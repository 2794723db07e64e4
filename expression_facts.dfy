/** Properties of expression emission and of Expression.Inline (Editor/CodeGen/Expression.cs). */
module ExpressionFacts {
  import opened Outcomes
  import opened Text
  import opened IR

  /** Indenting an expression shifts its whole text, unless it begins with out-argument declarations. */
  lemma {:induction false} EmitAtLevel(e: Expression, n: nat)
    requires e.IndentsAsWhole()
    ensures e.Emit(n) == Indent(e.Emit(0), n)
  {
    match e
    case Inlineable(inner) =>
      EmitAtLevel(inner, n);
    case FunctionCall(f, ins, outs) =>
      assert OutArgumentLines(outs, n) == "" == OutArgumentLines(outs, 0);
    case Sequence(es) =>
      var atN := seq(|es|, i requires 0 <= i < |es| => es[i].Emit(if i == 0 then n else 0));
      var at0 := seq(|es|, i requires 0 <= i < |es| => es[i].Emit(if i == 0 then 0 else 0));
      assert atN[1..] == at0[1..];
      EmitAtLevel(es[0], n);
      assert e.Emit(n) == atN[0] + Concat(atN[1..]);
      assert e.Emit(0) == at0[0] + Concat(at0[1..]);
    case _ =>
  }

  /** InlineableExpr markers never change the emitted text. */
  lemma {:induction false} EmitIgnoresInlineable(e: Expression, n: nat)
    ensures e.StripInlineable().Emit(n) == e.Emit(n)
  {
    match e
    case Inlineable(inner) =>
      EmitIgnoresInlineable(inner, n);
    case Binary(l, o, r) =>
      EmitIgnoresInlineable(l, 0);
      EmitIgnoresInlineable(r, 0);
    case FunctionCall(f, ins, outs) =>
      var stripped := seq(|ins|, i requires 0 <= i < |ins| => ins[i].StripInlineable());
      forall i | 0 <= i < |ins|
        ensures stripped[i].Emit(0) == ins[i].Emit(0)
      {
        EmitIgnoresInlineable(ins[i], 0);
      }
      assert seq(|stripped|, i requires 0 <= i < |stripped| => stripped[i].Emit(0))
          == seq(|ins|, i requires 0 <= i < |ins| => ins[i].Emit(0));
    case Sequence(es) =>
      var stripped := seq(|es|, i requires 0 <= i < |es| => es[i].StripInlineable());
      forall i | 0 <= i < |es|
        ensures stripped[i].Emit(if i == 0 then n else 0) == es[i].Emit(if i == 0 then n else 0)
      {
        EmitIgnoresInlineable(es[i], if i == 0 then n else 0);
      }
      assert seq(|stripped|, i requires 0 <= i < |stripped| => stripped[i].Emit(if i == 0 then n else 0))
          == seq(|es|, i requires 0 <= i < |es| => es[i].Emit(if i == 0 then n else 0));
    case _ =>
  }

  /** Termination of inlining survives shortening the chase path. */
  lemma {:induction false} InlineTerminatesMonotone(e: Expression, table: map<string, Expression>, p: set<string>, q: set<string>)
    requires p <= q && e.InlineTerminates(table, q)
    ensures e.InlineTerminates(table, p)
    decreases |table.Keys - q|, e
  {
    match e
    case Inlineable(inner) =>
      InlineTerminatesMonotone(inner, table, p, q);
    case Variable(n) =>
      if n in table {
        KeyRemovalShrinks(table.Keys, q, n);
        InlineTerminatesMonotone(table[n], table, p + {n}, q + {n});
      }
    case Binary(l, _, r) =>
      InlineTerminatesMonotone(l, table, p, q);
      InlineTerminatesMonotone(r, table, p, q);
    case FunctionCall(_, ins, _) =>
      forall i | 0 <= i < |ins| ensures ins[i].InlineTerminates(table, p) {
        InlineTerminatesMonotone(ins[i], table, p, q);
      }
    case Sequence(es) =>
      forall i | 0 <= i < |es| ensures es[i].InlineTerminates(table, p) {
        InlineTerminatesMonotone(es[i], table, p, q);
      }
    case _ =>
  }

  /** The chase path only guards termination: it never changes the inlined result. */
  lemma {:induction false} InlinePathIrrelevant(e: Expression, table: map<string, Expression>, p: set<string>, q: set<string>)
    requires e.InlineTerminates(table, p) && e.InlineTerminates(table, q)
    ensures e.Inline(table, p) == e.Inline(table, q)
    decreases |table.Keys - p|, e, 1
  {
    match e
    case Inlineable(inner) =>
      InlinePathIrrelevant(inner, table, p, q);
    case Variable(n) =>
      if n in table {
        KeyRemovalShrinks(table.Keys, p, n);
        InlinePathIrrelevant(table[n], table, p + {n}, q + {n});
      }
    case Binary(l, _, r) =>
      InlinePathIrrelevant(l, table, p, q);
      InlinePathIrrelevant(r, table, p, q);
    case FunctionCall(_, ins, _) =>
      InlinePathIrrelevantArguments(e, table, p, q);
    case Sequence(es) =>
      InlinePathIrrelevantElements(e, table, p, q);
    case _ =>
  }

  lemma {:induction false} InlinePathIrrelevantArguments(e: Expression, table: map<string, Expression>, p: set<string>, q: set<string>)
    requires e.FunctionCall? && e.InlineTerminates(table, p) && e.InlineTerminates(table, q)
    ensures e.Inline(table, p) == e.Inline(table, q)
    decreases |table.Keys - p|, e, 0
  {
    var ins := e.inArguments;
    forall i | 0 <= i < |ins| ensures ins[i].Inline(table, p) == ins[i].Inline(table, q) {
      InlinePathIrrelevant(ins[i], table, p, q);
    }
    assert seq(|ins|, i requires 0 <= i < |ins| => ins[i].Inline(table, p))
        == seq(|ins|, i requires 0 <= i < |ins| => ins[i].Inline(table, q));
  }

  lemma {:induction false} InlinePathIrrelevantElements(e: Expression, table: map<string, Expression>, p: set<string>, q: set<string>)
    requires e.Sequence? && e.InlineTerminates(table, p) && e.InlineTerminates(table, q)
    ensures e.Inline(table, p) == e.Inline(table, q)
    decreases |table.Keys - p|, e, 0
  {
    var es := e.expressions;
    forall i | 0 <= i < |es| ensures es[i].Inline(table, p) == es[i].Inline(table, q) {
      InlinePathIrrelevant(es[i], table, p, q);
    }
    assert seq(|es|, i requires 0 <= i < |es| => es[i].Inline(table, p))
        == seq(|es|, i requires 0 <= i < |es| => es[i].Inline(table, q));
  }

  /** Alias chains collapse: a variable with a table entry inlines to whatever its entry inlines to. */
  lemma InlineChasesAlias(n: string, table: map<string, Expression>)
    requires n in table && Variable(n).InlineTerminates(table, {})
    ensures table[n].InlineTerminates(table, {})
    ensures Variable(n).Inline(table, {}) == table[n].Inline(table, {})
  {
    var empty: set<string> := {};
    assert empty + {n} == {n};
    InlineTerminatesMonotone(table[n], table, {}, {n});
    InlinePathIrrelevant(table[n], table, {}, {n});
  }

  /** A variable without a table entry is left alone. */
  lemma InlineKeepsUnknownVariable(n: string, table: map<string, Expression>)
    requires n !in table
    ensures Variable(n).InlineTerminates(table, {}) && Variable(n).Inline(table, {}) == Variable(n)
  {
  }

  /** A name aliased to itself makes inlining diverge. */
  lemma SelfAliasDiverges(n: string, table: map<string, Expression>)
    requires n in table && table[n] == Variable(n)
    ensures !Variable(n).InlineTerminates(table, {})
  {
    assert !Variable(n).InlineTerminates(table, {n});
  }

  /** A marker-free, normalized tree that mentions no key is a fixed point of inlining. */
  lemma {:induction false} InlineFixesClean(e: Expression, table: map<string, Expression>, path: set<string>)
    requires !e.HasInlineable() && !e.MentionsKey(table.Keys) && e.Normalized()
    ensures e.InlineTerminates(table, path) && e.Inline(table, path) == e
  {
    match e
    case Binary(l, _, r) =>
      InlineFixesClean(l, table, path);
      InlineFixesClean(r, table, path);
    case FunctionCall(f, ins, outs) =>
      forall i | 0 <= i < |ins| ensures ins[i].InlineTerminates(table, path) && ins[i].Inline(table, path) == ins[i] {
        InlineFixesClean(ins[i], table, path);
      }
      assert seq(|ins|, i requires 0 <= i < |ins| => ins[i].Inline(table, path)) == ins;
    case Sequence(es) =>
      forall i | 0 <= i < |es| ensures es[i].InlineTerminates(table, path) && es[i].Inline(table, path) == es[i] {
        InlineFixesClean(es[i], table, path);
      }
      assert seq(|es|, i requires 0 <= i < |es| => es[i].Inline(table, path)) == es;
    case _ =>
  }

  /**
   * No variable the table defines survives inlining, except the empty name that an emptied
   * sequence turns into.
   */
  lemma {:induction false} InlineRemovesKeys(e: Expression, table: map<string, Expression>, path: set<string>)
    requires e.InlineTerminates(table, path)
    ensures !e.Inline(table, path).MentionsKey(table.Keys - {""})
    decreases |table.Keys - path|, e, 1
  {
    match e
    case Inlineable(inner) => InlineRemovesKeys(inner, table, path);
    case Variable(n) =>
      if n in table {
        KeyRemovalShrinks(table.Keys, path, n);
        InlineRemovesKeys(table[n], table, path + {n});
      }
    case Binary(l, _, r) =>
      InlineRemovesKeys(l, table, path);
      InlineRemovesKeys(r, table, path);
    case FunctionCall(_, _, _) => InlineRemovesKeysArguments(e, table, path);
    case Sequence(_) => InlineRemovesKeysElements(e, table, path);
    case _ =>
  }

  lemma {:induction false} InlineRemovesKeysArguments(e: Expression, table: map<string, Expression>, path: set<string>)
    requires e.FunctionCall? && e.InlineTerminates(table, path)
    ensures !e.Inline(table, path).MentionsKey(table.Keys - {""})
    decreases |table.Keys - path|, e, 0
  {
    var ins := e.inArguments;
    var args := e.Inline(table, path).inArguments;
    forall i | 0 <= i < |ins| ensures !args[i].MentionsKey(table.Keys - {""}) {
      InlineRemovesKeys(ins[i], table, path);
    }
  }

  lemma {:induction false} InlineRemovesKeysElements(e: Expression, table: map<string, Expression>, path: set<string>)
    requires e.Sequence? && e.InlineTerminates(table, path)
    ensures !e.Inline(table, path).MentionsKey(table.Keys - {""})
    decreases |table.Keys - path|, e, 0
  {
    var es := e.expressions;
    if |es| == 1 {
      InlineRemovesKeys(es[0], table, path);
    } else if |es| > 1 {
      var elements := e.Inline(table, path).expressions;
      forall i | 0 <= i < |es| ensures !elements[i].MentionsKey(table.Keys - {""}) {
        InlineRemovesKeys(es[i], table, path);
      }
    }
  }

  /** Inlining twice gives what inlining once gives, when no table entry has the empty name. */
  lemma InlineIdempotent(e: Expression, table: map<string, Expression>)
    requires "" !in table && e.InlineTerminates(table, {})
    ensures e.Inline(table, {}).InlineTerminates(table, {})
    ensures e.Inline(table, {}).Inline(table, {}) == e.Inline(table, {})
  {
    assert table.Keys - {""} == table.Keys;
    InlineRemovesKeys(e, table, {});
    InlineFixesClean(e.Inline(table, {}), table, {});
  }

  /**
   * With an entry under the empty name, inlining is not idempotent: an empty sequence becomes
   * VariableExpr.Null, which a second pass then replaces.
   */
  lemma InlineNotIdempotentWithEmptyName()
    ensures var table := map["" := Constant("1")];
      && Sequence([]).Inline(table, {}) == NullVariable
      && NullVariable.Inline(table, {}) == Constant("1")
  {
  }

  /** Inlining never folds: in (a + 3) with a = 5 the operator and both operands stay. */
  lemma InlineDoesNotFold()
    ensures var table := map["a" := Constant("5")];
      Binary(Variable("a"), "+", Constant("3")).Inline(table, {}) == Binary(Constant("5"), "+", Constant("3"))
  {
  }
}

/** What the instruction compiler's inliner guarantees (Editor/CodeGen/InstructionCompiler.cs:56-151). */
module CompilerInliningFacts {
  import opened Outcomes
  import opened IR
  import opened CompilerInlining

  /**
   * out keeps some of the instructions of ins, in their order, each with its result declaration
   * unchanged and its expression present exactly when the original's is; no kept instruction was an
   * inlineable definition.
   */
  predicate RetainedInOrder(out: seq<Instruction>, ins: seq<Instruction>)
    decreases |ins|
  {
    if |out| == 0 then true
    else if |ins| == 0 then false
    else
      (&& out[0].result == ins[0].result
       && !IsInlineableDefinition(ins[0])
       && (out[0].expression.None? <==> ins[0].expression.None?)
       && RetainedInOrder(out[1..], ins[1..]))
      || RetainedInOrder(out, ins[1..])
  }

  lemma {:induction false} RetainedInOrderNoLonger(out: seq<Instruction>, ins: seq<Instruction>)
    requires RetainedInOrder(out, ins)
    ensures |out| <= |ins|
    decreases |ins|
  {
    if |out| > 0 {
      if && out[0].result == ins[0].result
         && !IsInlineableDefinition(ins[0])
         && (out[0].expression.None? <==> ins[0].expression.None?)
         && RetainedInOrder(out[1..], ins[1..])
      {
        RetainedInOrderNoLonger(out[1..], ins[1..]);
      } else {
        RetainedInOrderNoLonger(out, ins[1..]);
      }
    }
  }

  lemma {:induction false} InlinePassRetainsInOrder(ins: seq<Instruction>, table: Table)
    requires InlinePass(ins, table).Some?
    ensures RetainedInOrder(InlinePass(ins, table).value, ins)
    decreases |ins|
  {
    if |ins| > 0 {
      var instr := ins[0];
      if instr.result.IsValid() && instr.result.name in table {
        InlinePassRetainsInOrder(ins[1..], table);
        SkipFirst(InlinePass(ins, table).value, ins);
      } else if IsInlineableDefinition(instr) {
        var t2 := table[instr.result.name := instr.expression.value.inner];
        InlinePassRetainsInOrder(ins[1..], t2);
        SkipFirst(InlinePass(ins, table).value, ins);
      } else {
        InlinePassRetainsInOrder(ins[1..], table);
        var out := InlinePass(ins, table).value;
        assert out[1..] == InlinePass(ins[1..], table).value;
      }
    }
  }

  lemma SkipFirst(out: seq<Instruction>, ins: seq<Instruction>)
    requires |ins| > 0 && RetainedInOrder(out, ins[1..])
    ensures RetainedInOrder(out, ins)
  {
  }

  /**
   * The inliner's output is an order-preserving selection of its input, each kept instruction with
   * its own result, and is no longer than the input.
   */
  lemma InlinedIsOrderedSelection(ins: seq<Instruction>)
    requires InlinedInstructions(ins).Some?
    ensures RetainedInOrder(InlinedInstructions(ins).value, ins)
    ensures |InlinedInstructions(ins).value| <= |ins|
  {
    InlinePassRetainsInOrder(ins, ConstantTable(ins));
    RetainedInOrderNoLonger(InlinedInstructions(ins).value, ins);
  }

  lemma {:induction false} MentionsFewerKeys(e: Expression, small: set<string>, large: set<string>)
    requires small <= large && !MentionsKeyOutsideSequences(e, large)
    ensures !MentionsKeyOutsideSequences(e, small)
  {
    match e
    case Inlineable(inner) => MentionsFewerKeys(inner, small, large);
    case Binary(l, _, r) =>
      MentionsFewerKeys(l, small, large);
      MentionsFewerKeys(r, small, large);
    case FunctionCall(_, ins, _) =>
      forall i | 0 <= i < |ins| ensures !MentionsKeyOutsideSequences(ins[i], small) {
        MentionsFewerKeys(ins[i], small, large);
      }
    case _ =>
  }

  /** Names whose definitions were dropped are neither defined nor referenced (outside sequences) by what is kept. */
  predicate DroppedAndSubstituted(out: seq<Instruction>, names: set<string>) {
    forall k :: 0 <= k < |out| ==>
      && !(out[k].result.IsValid() && out[k].result.name in names)
      && (out[k].expression.Some? ==> !MentionsKeyOutsideSequences(out[k].expression.value, names))
  }

  lemma {:induction false} InlinePassSubstitutes(ins: seq<Instruction>, table: Table, names: set<string>)
    requires names <= table.Keys && InlinePass(ins, table).Some?
    ensures DroppedAndSubstituted(InlinePass(ins, table).value, names)
    decreases |ins|
  {
    if |ins| > 0 {
      var instr := ins[0];
      if instr.result.IsValid() && instr.result.name in table {
        InlinePassSubstitutes(ins[1..], table, names);
      } else if IsInlineableDefinition(instr) {
        var t2 := table[instr.result.name := instr.expression.value.inner];
        InlinePassSubstitutes(ins[1..], t2, names);
      } else {
        InlinePassSubstitutes(ins[1..], table, names);
        var out := InlinePass(ins, table).value;
        var e := InlineInExpression(instr.expression, table);
        if e.Some? {
          MentionsFewerKeys(e.value, names, table.Keys);
        }
        assert out == [Instruction(instr.result, e)] + InlinePass(ins[1..], table).value;
      }
    }
  }

  /**
   * Every constant definition is dropped, wherever it stands, and its name no longer occurs (outside
   * sequences) in any kept expression, earlier instructions included.
   */
  lemma ConstantDefinitionsDropped(ins: seq<Instruction>)
    requires InlinedInstructions(ins).Some?
    ensures DroppedAndSubstituted(InlinedInstructions(ins).value, ConstantTable(ins).Keys)
  {
    InlinePassSubstitutes(ins, ConstantTable(ins), ConstantTable(ins).Keys);
  }

  /** The result declarations of the instructions that store rather than define: invalid result, not inlineable. */
  function Stores(s: seq<Instruction>): seq<VariableDeclaration> {
    if |s| == 0 then []
    else (if !s[0].result.IsValid() && !IsInlineableDefinition(s[0]) then [s[0].result] else []) + Stores(s[1..])
  }

  lemma {:induction false} InlinePassKeepsStores(ins: seq<Instruction>, table: Table)
    requires InlinePass(ins, table).Some?
    ensures Stores(InlinePass(ins, table).value) == Stores(ins)
    decreases |ins|
  {
    if |ins| > 0 {
      var instr := ins[0];
      if instr.result.IsValid() && instr.result.name in table {
        InlinePassKeepsStores(ins[1..], table);
      } else if IsInlineableDefinition(instr) {
        InlinePassKeepsStores(ins[1..], table[instr.result.name := instr.expression.value.inner]);
      } else {
        InlinePassKeepsStores(ins[1..], table);
        var out := InlinePass(ins, table).value;
        assert out[1..] == InlinePass(ins[1..], table).value;
      }
    }
  }

  /**
   * Instructions with an invalid result (such as a texture store) are never dropped and keep their
   * order, unless they are inlineable definitions.
   */
  lemma StoresSurviveInlining(ins: seq<Instruction>)
    requires InlinedInstructions(ins).Some?
    ensures Stores(InlinedInstructions(ins).value) == Stores(ins)
  {
    InlinePassKeepsStores(ins, ConstantTable(ins));
  }

  /** One step of the second pass: a definition of a table name is skipped. */
  lemma PassSkips(x: Instruction, rest: seq<Instruction>, table: Table)
    requires x.result.IsValid() && x.result.name in table
    ensures InlinePass([x] + rest, table) == InlinePass(rest, table)
  {
    assert ([x] + rest)[1..] == rest;
  }

  /** One step of the second pass: an inlineable definition is recorded, not kept. */
  lemma PassRecords(x: Instruction, rest: seq<Instruction>, table: Table)
    requires !(x.result.IsValid() && x.result.name in table)
    requires IsInlineableDefinition(x) && ExpressionTerminates(x.expression, table)
    ensures InlinePass([x] + rest, table) == InlinePass(rest, table[x.result.name := x.expression.value.inner])
  {
    assert ([x] + rest)[1..] == rest;
  }

  /** One step of the second pass: any other instruction is kept with its expression rewritten. */
  lemma PassKeeps(x: Instruction, rest: seq<Instruction>, table: Table)
    requires !(x.result.IsValid() && x.result.name in table)
    requires !IsInlineableDefinition(x) && ExpressionTerminates(x.expression, table)
    requires InlinePass(rest, table).Some?
    ensures InlinePass([x] + rest, table)
         == Some([Instruction(x.result, InlineInExpression(x.expression, table))] + InlinePass(rest, table).value)
  {
    assert ([x] + rest)[1..] == rest;
  }

  /** [a = 5, b = a + 3] becomes [b = (5 + 3)]: the constant is substituted and nothing is folded. */
  lemma SubstitutesWithoutFolding()
    ensures var a := Instruction(VariableDeclaration(Float, "a"), Some(Constant("5")));
      var b := Instruction(VariableDeclaration(Float, "b"), Some(Binary(Variable("a"), "+", Constant("3"))));
      InlinedInstructions([a, b]) == Some([Instruction(VariableDeclaration(Float, "b"), Some(Binary(Constant("5"), "+", Constant("3"))))])
  {
    var a := Instruction(VariableDeclaration(Float, "a"), Some(Constant("5")));
    var b := Instruction(VariableDeclaration(Float, "b"), Some(Binary(Variable("a"), "+", Constant("3"))));
    assert [a, b][..1] == [a] && [a][..0] == [];
    var t := map["a" := Constant("5")];
    assert ConstantTable([a]) == t;
    assert ConstantTable([a, b]) == t;
    assert InlineInTree(Variable("a"), t, {}) == Constant("5");
    PassKeeps(b, [], t);
    var rw := Instruction(VariableDeclaration(Float, "b"), Some(Binary(Constant("5"), "+", Constant("3"))));
    assert InlineInExpression(b.expression, t) == rw.expression;
    assert [b] + [] == [b] && [rw] + [] == [rw];
    PassSkips(a, [b], t);
    assert [a] + [b] == [a, b];
  }

  /** A constant defined after its use is substituted into the earlier instruction too. */
  lemma SubstitutesIntoEarlierUse()
    ensures var b := Instruction(VariableDeclaration(Float, "b"), Some(Variable("a")));
      var a := Instruction(VariableDeclaration(Float, "a"), Some(Constant("5")));
      InlinedInstructions([b, a]) == Some([Instruction(VariableDeclaration(Float, "b"), Some(Constant("5")))])
  {
    var b := Instruction(VariableDeclaration(Float, "b"), Some(Variable("a")));
    var a := Instruction(VariableDeclaration(Float, "a"), Some(Constant("5")));
    assert [b, a][..1] == [b] && [b][..0] == [];
    var t := map["a" := Constant("5")];
    assert ConstantTable([b]) == map[];
    assert ConstantTable([b, a]) == t;
    PassSkips(a, [], t);
    assert [a] + [] == [a];
    assert InlineInTree(Variable("a"), t, {}) == Constant("5");
    PassKeeps(b, [a], t);
    var rw := Instruction(VariableDeclaration(Float, "b"), Some(Constant("5")));
    assert InlineInExpression(b.expression, t) == rw.expression;
    assert [b] + [a] == [b, a] && [rw] + [] == [rw];
  }

  /** Of two constant definitions of one name, the later one is substituted everywhere. */
  lemma LaterConstantWins()
    ensures var a5 := Instruction(VariableDeclaration(Float, "a"), Some(Constant("5")));
      var a6 := Instruction(VariableDeclaration(Float, "a"), Some(Constant("6")));
      var b := Instruction(VariableDeclaration(Float, "b"), Some(Variable("a")));
      InlinedInstructions([b, a5, a6]) == Some([Instruction(VariableDeclaration(Float, "b"), Some(Constant("6")))])
  {
    var a5 := Instruction(VariableDeclaration(Float, "a"), Some(Constant("5")));
    var a6 := Instruction(VariableDeclaration(Float, "a"), Some(Constant("6")));
    var b := Instruction(VariableDeclaration(Float, "b"), Some(Variable("a")));
    var s := [b, a5, a6];
    assert s[..2] == [b, a5] && [b, a5][..1] == [b] && [b][..0] == [];
    assert ConstantTable([b]) == map[];
    assert ConstantTable([b, a5]) == map["a" := Constant("5")];
    var t := map["a" := Constant("6")];
    assert ConstantTable(s) == t;
    PassSkips(a6, [], t);
    assert [a6] + [] == [a6];
    PassSkips(a5, [a6], t);
    assert [a5] + [a6] == [a5, a6];
    assert InlineInTree(Variable("a"), t, {}) == Constant("6");
    PassKeeps(b, [a5, a6], t);
    var rw := Instruction(VariableDeclaration(Float, "b"), Some(Constant("6")));
    assert InlineInExpression(b.expression, t) == rw.expression;
    assert [rw] + [] == [rw];
    assert [b] + [a5, a6] == s;
  }

  /**
   * An inlineable definition is dropped and its inner expression is substituted only into the
   * instructions after it: the earlier use keeps the name.
   */
  lemma InlineableAffectsOnlyLater()
    ensures var before := Instruction(VariableDeclaration(Float, "c"), Some(Variable("x")));
      var x := Instruction(VariableDeclaration(Float, "x"), Some(Inlineable(Binary(Variable("y"), "*", Constant("2")))));
      var after := Instruction(VariableDeclaration(Float, "d"), Some(Variable("x")));
      InlinedInstructions([before, x, after]) ==
        Some([before, Instruction(VariableDeclaration(Float, "d"), Some(Binary(Variable("y"), "*", Constant("2"))))])
  {
    var before := Instruction(VariableDeclaration(Float, "c"), Some(Variable("x")));
    var x := Instruction(VariableDeclaration(Float, "x"), Some(Inlineable(Binary(Variable("y"), "*", Constant("2")))));
    var after := Instruction(VariableDeclaration(Float, "d"), Some(Variable("x")));
    var s := [before, x, after];
    assert s[..2] == [before, x] && [before, x][..1] == [before] && [before][..0] == [];
    assert ConstantTable([before]) == map[];
    assert ConstantTable([before, x]) == map[];
    var t: Table := map[];
    assert ConstantTable(s) == t;
    var t2 := t[x.result.name := x.expression.value.inner];
    var empty: set<string> := {};
    assert empty + {"x"} == {"x"};
    assert t2 == map["x" := Binary(Variable("y"), "*", Constant("2"))];
    assert "y" !in t2;
    assert ChaseTerminates(Variable("y"), t2, {"x"}) && ChaseTerminates(Constant("2"), t2, {"x"});
    assert InlineInTree(Variable("y"), t2, {"x"}) == Variable("y");
    assert InlineInTree(Binary(Variable("y"), "*", Constant("2")), t2, {"x"}) == Binary(Variable("y"), "*", Constant("2"));
    assert InlineInTree(Variable("x"), t2, {}) == Binary(Variable("y"), "*", Constant("2"));
    assert InlineInTree(Variable("x"), t, {}) == Variable("x");
    PassKeeps(after, [], t2);
    var after2 := Instruction(VariableDeclaration(Float, "d"), Some(Binary(Variable("y"), "*", Constant("2"))));
    assert [after2] + [] == [after2];
    PassRecords(x, [after], t);
    assert [x] + [after] == [x, after];
    PassKeeps(before, [x, after], t);
    assert [before] + [x, after] == s;
    assert [before] + [after2] == [before, after2];
  }

  /**
   * Inlining is not idempotent: [a = 5, b = a, c = b] gives [b = 5, c = b], which a second run
   * turns into [c = 5].
   */
  lemma InliningNotIdempotent()
    ensures var a := Instruction(VariableDeclaration(Float, "a"), Some(Constant("5")));
      var b := Instruction(VariableDeclaration(Float, "b"), Some(Variable("a")));
      var c := Instruction(VariableDeclaration(Float, "c"), Some(Variable("b")));
      var b5 := Instruction(VariableDeclaration(Float, "b"), Some(Constant("5")));
      && InlinedInstructions([a, b, c]) == Some([b5, c])
      && InlinedInstructions([b5, c]) == Some([Instruction(VariableDeclaration(Float, "c"), Some(Constant("5")))])
  {
    var a := Instruction(VariableDeclaration(Float, "a"), Some(Constant("5")));
    var b := Instruction(VariableDeclaration(Float, "b"), Some(Variable("a")));
    var c := Instruction(VariableDeclaration(Float, "c"), Some(Variable("b")));
    var b5 := Instruction(VariableDeclaration(Float, "b"), Some(Constant("5")));
    var s := [a, b, c];
    assert s[..2] == [a, b] && [a, b][..1] == [a] && [a][..0] == [];
    var t := map["a" := Constant("5")];
    assert ConstantTable([a]) == t;
    assert ConstantTable([a, b]) == t;
    assert ConstantTable(s) == t;
    PassKeeps(c, [], t);
    assert [c] + [] == [c];
    PassKeeps(b, [c], t);
    assert [b] + [c] == [b, c] && [b5] + [c] == [b5, c];
    PassSkips(a, [b, c], t);
    assert [a] + [b, c] == s;
    var s2 := [b5, c];
    assert s2[..1] == [b5] && [b5][..0] == [];
    var t2 := map["b" := Constant("5")];
    assert ConstantTable([b5]) == t2;
    assert ConstantTable(s2) == t2;
    PassKeeps(c, [], t2);
    var c5 := Instruction(VariableDeclaration(Float, "c"), Some(Constant("5")));
    assert [c5] + [] == [c5];
    PassSkips(b5, [c], t2);
    assert [b5] + [c] == s2;
  }

  predicate HasSequence(e: Expression) {
    match e
    case Inlineable(inner) => HasSequence(inner)
    case Binary(l, _, r) => HasSequence(l) || HasSequence(r)
    case FunctionCall(_, ins, _) => exists i :: 0 <= i < |ins| && HasSequence(ins[i])
    case Sequence(_) => true
    case _ => false
  }

  /** Where no sequence is involved, the compiler's inliner and Expression.Inline agree. */
  lemma {:induction false} InlinersAgreeWithoutSequences(e: Expression, table: Table, path: set<string>)
    requires !HasSequence(e) && forall k :: k in table ==> !HasSequence(table[k])
    requires e.InlineTerminates(table, path)
    ensures ChaseTerminates(e, table, path)
    ensures InlineInTree(e, table, path) == e.Inline(table, path)
    decreases |table.Keys - path|, e
  {
    match e
    case Inlineable(inner) =>
      InlinersAgreeWithoutSequences(inner, table, path);
    case Variable(n) =>
      if n in table {
        KeyRemovalShrinks(table.Keys, path, n);
        InlinersAgreeWithoutSequences(table[n], table, path + {n});
      }
    case Binary(l, _, r) =>
      InlinersAgreeWithoutSequences(l, table, path);
      InlinersAgreeWithoutSequences(r, table, path);
    case FunctionCall(_, ins, _) =>
      forall i | 0 <= i < |ins|
        ensures ChaseTerminates(ins[i], table, path) && InlineInTree(ins[i], table, path) == ins[i].Inline(table, path)
      {
        InlinersAgreeWithoutSequences(ins[i], table, path);
      }
      assert seq(|ins|, i requires 0 <= i < |ins| => InlineInTree(ins[i], table, path))
          == seq(|ins|, i requires 0 <= i < |ins| => ins[i].Inline(table, path));
    case _ =>
  }

  /** Inside a sequence the two inliners part ways: the compiler's leaves it untouched. */
  lemma InlinersDifferOnSequence()
    ensures var table := map["a" := Constant("1")];
      && InlineInTree(Sequence([Variable("a")]), table, {}) == Sequence([Variable("a")])
      && Sequence([Variable("a")]).Inline(table, {}) == Constant("1")
  {
  }
}

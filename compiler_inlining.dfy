/**
 * The instruction compiler's own inliner (Editor/CodeGen/InstructionCompiler.cs:56-151): a first pass
 * collects constant definitions, a second pass drops them and the inlineable definitions and rewrites
 * every other instruction's expression through the table built so far.
 */
module CompilerInlining {
  import opened Outcomes
  import opened IR

  type Table = map<string, Expression>

  /**
   * Whether InlineInExpression returns: as Expression.InlineTerminates, except that sequences and
   * operators are returned as they are and so never chase anything.
   */
  predicate ChaseTerminates(e: Expression, table: Table, path: set<string>)
    decreases |table.Keys - path|, e
  {
    match e
    case Inlineable(inner) => ChaseTerminates(inner, table, path)
    case Variable(n) =>
      n in table ==> n !in path && (KeyRemovalShrinks(table.Keys, path, n); ChaseTerminates(table[n], table, path + {n}))
    case Constant(_) => true
    case Binary(l, _, r) => ChaseTerminates(l, table, path) && ChaseTerminates(r, table, path)
    case FunctionCall(_, ins, _) => forall i :: 0 <= i < |ins| ==> ChaseTerminates(ins[i], table, path)
    case Sequence(_) => true
    case Operator(_) => true
  }

  /** An InlineableExpr marker outside any sequence (sequences are not looked into). */
  predicate HasInlineableOutsideSequences(e: Expression) {
    match e
    case Inlineable(_) => true
    case Binary(l, _, r) => HasInlineableOutsideSequences(l) || HasInlineableOutsideSequences(r)
    case FunctionCall(_, ins, _) => exists i :: 0 <= i < |ins| && HasInlineableOutsideSequences(ins[i])
    case _ => false
  }

  /** A variable named by one of the keys, outside any sequence. */
  predicate MentionsKeyOutsideSequences(e: Expression, keys: set<string>) {
    match e
    case Inlineable(inner) => MentionsKeyOutsideSequences(inner, keys)
    case Variable(n) => n in keys
    case Binary(l, _, r) => MentionsKeyOutsideSequences(l, keys) || MentionsKeyOutsideSequences(r, keys)
    case FunctionCall(_, ins, _) => exists i :: 0 <= i < |ins| && MentionsKeyOutsideSequences(ins[i], keys)
    case _ => false
  }

  /** The recursive body of InlineInExpression on a non-null expression. */
  function InlineInTree(e: Expression, table: Table, ghost path: set<string>): (r: Expression)
    requires ChaseTerminates(e, table, path)
    ensures !r.Inlineable?
    ensures !HasInlineableOutsideSequences(r)
    ensures !MentionsKeyOutsideSequences(r, table.Keys)
    ensures r.FunctionCall? ==> r.outArguments.Some? ==> |r.outArguments.value| > 0
    decreases |table.Keys - path|, e
  {
    match e
    case Variable(n) =>
      if n in table then (KeyRemovalShrinks(table.Keys, path, n); InlineInTree(table[n], table, path + {n})) else e
    case Constant(_) => e
    case Binary(l, o, r) => Binary(InlineInTree(l, table, path), o, InlineInTree(r, table, path))
    case FunctionCall(f, ins, outs) =>
      FunctionCall(f, seq(|ins|, i requires 0 <= i < |ins| => InlineInTree(ins[i], table, path)),
                   if outs.Some? && |outs.value| > 0 then outs else Option.None)
    case Inlineable(inner) => InlineInTree(inner, table, path)
    case Sequence(_) => e
    case Operator(_) => e
  }

  predicate ExpressionTerminates(e: Option<Expression>, table: Table) {
    e.Some? ==> ChaseTerminates(e.value, table, {})
  }

  /** InlineInExpression: null stays null. */
  function InlineInExpression(e: Option<Expression>, table: Table): (r: Option<Expression>)
    requires ExpressionTerminates(e, table)
    ensures r.None? <==> e.None?
    ensures r.Some? ==> !r.value.Inlineable? && !MentionsKeyOutsideSequences(r.value, table.Keys)
  {
    match e
    case None => Option.None
    case Some(x) => Some(InlineInTree(x, table, {}))
  }

  /** A valid result whose expression is a ConstantExpr: the first pass's inline candidates. */
  predicate IsConstantDefinition(instr: Instruction) {
    instr.result.IsValid() && instr.expression.Some? && instr.expression.value.Constant?
  }

  predicate IsInlineableDefinition(instr: Instruction) {
    instr.expression.Some? && instr.expression.value.Inlineable?
  }

  /** The first pass: every constant definition, the later one winning for a repeated name. */
  function ConstantTable(instrs: seq<Instruction>): (t: Table)
    ensures forall n :: n in t <==> exists j :: 0 <= j < |instrs| && IsConstantDefinition(instrs[j]) && instrs[j].result.name == n
  {
    if |instrs| == 0 then map[]
    else
      var t := ConstantTable(instrs[..|instrs| - 1]);
      var last := instrs[|instrs| - 1];
      assert forall j :: 0 <= j < |instrs| - 1 ==> instrs[..|instrs| - 1][j] == instrs[j];
      if IsConstantDefinition(last) then t[last.result.name := last.expression.value] else t
  }

  /**
   * The second pass from a given table on: None when some chase would not end (the source then
   * overflows its stack).
   */
  function InlinePass(instrs: seq<Instruction>, table: Table): Option<seq<Instruction>>
    decreases |instrs|
  {
    if |instrs| == 0 then Some([])
    else
      var instr := instrs[0];
      if instr.result.IsValid() && instr.result.name in table then InlinePass(instrs[1..], table)
      else if !ExpressionTerminates(instr.expression, table) then Option.None
      else if IsInlineableDefinition(instr) then
        InlinePass(instrs[1..], table[instr.result.name := instr.expression.value.inner])
      else
        var rewritten := Instruction(instr.result, InlineInExpression(instr.expression, table));
        match InlinePass(instrs[1..], table)
        case None => Option.None
        case Some(rest) => Some([rewritten] + rest)
  }

  /** What InlineInstructions returns. */
  function InlinedInstructions(instrs: seq<Instruction>): Option<seq<Instruction>> {
    InlinePass(instrs, ConstantTable(instrs))
  }

  function Prepend(done: seq<Instruction>, rest: Option<seq<Instruction>>): Option<seq<Instruction>> {
    match rest
    case None => Option.None
    case Some(r) => Some(done + r)
  }

  lemma PrependStep(done: seq<Instruction>, x: Instruction, rest: Option<seq<Instruction>>)
    ensures Prepend(done, match rest case None => Option.None case Some(r) => Some([x] + r)) == Prepend(done + [x], rest)
  {
    if rest.Some? {
      assert done + ([x] + rest.value) == (done + [x]) + rest.value;
    }
  }

  /** InlineInstructions, with its two loops over the instructions and the mutated candidate table. */
  method InlineInstructions(instructions: seq<Instruction>) returns (r: Option<seq<Instruction>>)
    ensures r == InlinedInstructions(instructions)
  {
    var inlineCandidates: Table := map[];
    for i := 0 to |instructions|
      invariant inlineCandidates == ConstantTable(instructions[..i])
    {
      assert instructions[..i + 1][..i] == instructions[..i];
      var instr := instructions[i];
      if IsConstantDefinition(instr) {
        inlineCandidates := inlineCandidates[instr.result.name := instr.expression.value];
      }
    }
    assert instructions[..|instructions|] == instructions;
    var outList: seq<Instruction> := [];
    var i := 0;
    assert instructions[0..] == instructions;
    match InlinedInstructions(instructions) {
      case None =>
      case Some(all) => assert [] + all == all;
    }
    while i < |instructions|
      invariant 0 <= i <= |instructions|
      invariant InlinedInstructions(instructions) == Prepend(outList, InlinePass(instructions[i..], inlineCandidates))
    {
      var instr := instructions[i];
      assert instructions[i..][0] == instr && instructions[i..][1..] == instructions[i + 1..];
      if instr.result.IsValid() && instr.result.name in inlineCandidates {
        i := i + 1;
        continue;
      }
      if !ExpressionTerminates(instr.expression, inlineCandidates) {
        return Option.None;
      }
      var newInstr := Instruction(instr.result, InlineInExpression(instr.expression, inlineCandidates));
      if IsInlineableDefinition(instr) {
        inlineCandidates := inlineCandidates[instr.result.name := instr.expression.value.inner];
      } else {
        PrependStep(outList, newInstr, InlinePass(instructions[i + 1..], inlineCandidates));
        outList := outList + [newInstr];
      }
      i := i + 1;
    }
    assert instructions[i..] == [];
    assert outList + [] == outList;
    r := Some(outList);
  }
}

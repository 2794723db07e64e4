/**
 * The text the instruction compiler emits (Editor/CodeGen/InstructionCompiler.cs:24-54,153-203,
 * 225-313): function definitions, the built-in prelude, kernel headers, one statement per retained
 * instruction, and the whole shader with its sections in their fixed order.
 */
module CompilerText {
  import opened Outcomes
  import opened Text
  import opened IR
  import opened Formatting
  import opened Contexts
  import opened LibraryContracts
  import opened CompilerInlining

  // ----- Concatenating the text of a list, left to right -------------------------------------------

  function ConcatMap<T>(xs: seq<T>, f: T -> string): string {
    if |xs| == 0 then "" else ConcatMap(xs[..|xs| - 1], f) + f(xs[|xs| - 1])
  }

  /** As ConcatMap, where each piece may fail; the first failure, in list order, is the result. */
  function ConcatMapResult<T>(xs: seq<T>, f: T -> Result<string, Exception>): Result<string, Exception> {
    if |xs| == 0 then Success("")
    else
      match ConcatMapResult(xs[..|xs| - 1], f)
      case Failure(e) => Failure(e)
      case Success(front) =>
        match f(xs[|xs| - 1])
        case Failure(e) => Failure(e)
        case Success(last) => Success(front + last)
  }

  /** Once a prefix has failed, the whole list fails the same way. */
  lemma {:induction false} ConcatMapResultFailurePersists<T>(xs: seq<T>, f: T -> Result<string, Exception>, i: nat)
    requires i <= |xs| && ConcatMapResult(xs[..i], f).Failure?
    ensures ConcatMapResult(xs, f) == ConcatMapResult(xs[..i], f)
    decreases |xs|
  {
    if i == |xs| {
      assert xs[..i] == xs;
    } else {
      var init := xs[..|xs| - 1];
      assert init[..i] == xs[..i];
      ConcatMapResultFailurePersists(init, f, i);
    }
  }

  /** The list's text exists exactly when every piece's does, and is then their concatenation. */
  lemma {:induction false} ConcatMapResultSucceedsIff<T>(xs: seq<T>, f: T -> Result<string, Exception>)
    ensures ConcatMapResult(xs, f).Success? <==> forall i :: 0 <= i < |xs| ==> f(xs[i]).Success?
    ensures ConcatMapResult(xs, f).Success? ==>
      ConcatMapResult(xs, f).value == ConcatMap(xs, x => if f(x).Success? then f(x).value else "")
    ensures ConcatMapResult(xs, f).Failure? ==>
      exists i :: 0 <= i < |xs| && f(xs[i]) == Failure(ConcatMapResult(xs, f).error)
    decreases |xs|
  {
    if |xs| > 0 {
      var init := xs[..|xs| - 1];
      ConcatMapResultSucceedsIff(init, f);
      assert forall i :: 0 <= i < |init| ==> init[i] == xs[i];
    }
  }

  // ----- GenerateFunctionCode ------------------------------------------------------------------

  /** The HLSL parameter modifier for a ParameterModifier value; bits other than In and Out are ignored. */
  function ModifierKeyword(m: bv32): (r: string)
    ensures r == "inout " <==> HasFlag(m, ModifierIn) && HasFlag(m, ModifierOut)
    ensures r == "in " <==> HasFlag(m, ModifierIn) && !HasFlag(m, ModifierOut)
    ensures r == "out " <==> !HasFlag(m, ModifierIn) && HasFlag(m, ModifierOut)
    ensures r == "" <==> !HasFlag(m, ModifierIn) && !HasFlag(m, ModifierOut)
  {
    if HasFlag(m, ModifierIn) && HasFlag(m, ModifierOut) then "inout "
    else if HasFlag(m, ModifierIn) then "in "
    else if HasFlag(m, ModifierOut) then "out "
    else ""
  }

  /** The four named modifiers give their keywords, and other bits do not change the keyword. */
  lemma ModifierKeywords(m: bv32)
    ensures ModifierKeyword(ModifierNone) == "" && ModifierKeyword(ModifierIn) == "in "
    ensures ModifierKeyword(ModifierOut) == "out " && ModifierKeyword(ModifierInOut) == "inout "
    ensures ModifierKeyword(m) == ModifierKeyword(m & ModifierInOut)
  {
    assert HasFlag(m, ModifierIn) <==> HasFlag(m & ModifierInOut, ModifierIn);
    assert HasFlag(m, ModifierOut) <==> HasFlag(m & ModifierInOut, ModifierOut);
  }

  /** A parameter's type text: "void" stands in for a type without a spelling. */
  function ParameterTypeText(t: ShaderVariableType): (r: string)
    ensures r != "" && ' ' !in r
    ensures ToHLSLString(t) != "" ==> r == ToHLSLString(t)
  {
    if ToHLSLString(t) == "" then "void" else ToHLSLString(t)
  }

  function ParameterText(p: ParameterDeclaration): string {
    ModifierKeyword(p.modifier) + ParameterTypeText(p.shaderType) + " " + p.name
  }

  function ParameterNames(ps: seq<ParameterDeclaration>): seq<string> {
    seq(|ps|, i requires 0 <= i < |ps| => ps[i].name)
  }

  function ParameterTexts(ps: seq<ParameterDeclaration>): seq<string> {
    seq(|ps|, i requires 0 <= i < |ps| => ParameterText(ps[i]))
  }

  predicate HasParameters(f: FunctionDeclaration) {
    f.signature != null && |f.signature.items| > 0
  }

  /** The function's HLSL definition, or the FormatException its template raises. */
  function FunctionCode(f: FunctionDeclaration): (r: Result<string, Exception>)
    ensures r.Failure? <==> HasParameters(f) && Format(f.code, ParameterNames(f.signature.items)).Failure?
    ensures r.Failure? ==> r.error == FormatException
  {
    var inlineText := if HasFlag(f.flags, FunctionFlagInlineable) then "inline " else "";
    var parameters := if HasParameters(f) then Join(", ", ParameterTexts(f.signature.items)) else "";
    var body := if HasParameters(f) then Format(f.code, ParameterNames(f.signature.items)) else Success(f.code);
    match body
    case Failure(e) => Failure(e)
    case Success(code) => Success("\n" + (inlineText + FunctionText(f, parameters, code)))
  }

  /** The definition after the line break and the optional "inline ": "type name (parameters)" and the body. */
  function FunctionText(f: FunctionDeclaration, parameters: string, code: string): string {
    ToHLSLString(f.returnType) + (" " + FunctionSignature(f.name, parameters, code))
  }

  function FunctionSignature(name: string, parameters: string, code: string): string {
    name + (" (" + (parameters + (")" + FunctionBlock(code))))
  }

  /** The braces around the body, which starts indented once on its own line. */
  function FunctionBlock(code: string): string {
    "\n{\n    " + code + "\n}\n"
  }

  predicate EndsWith(s: string, suffix: string) {
    |suffix| <= |s| && s[|s| - |suffix|..] == suffix
  }

  lemma EndsWithAppend(a: string, b: string, suffix: string)
    requires EndsWith(b, suffix)
    ensures EndsWith(a + b, suffix)
  {
    assert (a + b)[|a + b| - |suffix|..] == b[|b| - |suffix|..];
  }

  /** No type spelling, nor a lone space, starts like the inline keyword. */
  lemma NotInlineKeyword(t: ShaderVariableType, rest: string)
    ensures !("inline " <= ToHLSLString(t) + (" " + rest))
  {
    var s := ToHLSLString(t) + (" " + rest);
    match t
    case Int => assert s[2] == 't';
    case Int2 => assert s[2] == 't';
    case Int3 => assert s[2] == 't';
    case Int4 => assert s[2] == 't';
    case _ => assert s[0] != 'i';
  }

  /** The definition starts with "inline " exactly when the Inlineable flag is set. */
  lemma InlineKeywordIffFlag(f: FunctionDeclaration)
    requires FunctionCode(f).Success?
    ensures "\ninline " <= FunctionCode(f).value <==> HasFlag(f.flags, FunctionFlagInlineable)
  {
    var parameters := if HasParameters(f) then Join(", ", ParameterTexts(f.signature.items)) else "";
    var body := if HasParameters(f) then Format(f.code, ParameterNames(f.signature.items)).value else f.code;
    var tail := FunctionText(f, parameters, body);
    if HasFlag(f.flags, FunctionFlagInlineable) {
      InlinePrefix(FunctionCode(f).value, tail);
    } else {
      NotInlineKeyword(f.returnType, FunctionSignature(f.name, parameters, body));
      NoInlinePrefix(FunctionCode(f).value, ToHLSLString(f.returnType) + (" " + FunctionSignature(f.name, parameters, body)));
    }
  }

  lemma InlinePrefix(v: string, tail: string)
    requires v == "\n" + ("inline " + tail)
    ensures "\ninline " <= v
  {
    assert v[..8] == "\ninline ";
  }

  lemma NoInlinePrefix(v: string, tail: string)
    requires v == "\n" + ("" + tail) && !("inline " <= tail)
    ensures !("\ninline " <= v)
  {
    assert v[1..] == tail;
    if |v| >= 8 {
      assert v[..8][1..] == tail[..7];
    }
  }

  /**
   * The body is the template passed through Format with the parameter names when there are
   * parameters, and the template verbatim otherwise (placeholders and all).
   */
  lemma FunctionBodyPlacement(f: FunctionDeclaration)
    requires FunctionCode(f).Success?
    ensures var body := if HasParameters(f) then Format(f.code, ParameterNames(f.signature.items)).value else f.code;
      EndsWith(FunctionCode(f).value, FunctionBlock(body))
  {
    var parameters := if HasParameters(f) then Join(", ", ParameterTexts(f.signature.items)) else "";
    var body := if HasParameters(f) then Format(f.code, ParameterNames(f.signature.items)).value else f.code;
    var inlineText := if HasFlag(f.flags, FunctionFlagInlineable) then "inline " else "";
    var block := FunctionBlock(body);
    assert EndsWith(block, block);
    EndsWithAppend(")", block, block);
    EndsWithAppend(parameters, ")" + block, block);
    EndsWithAppend(" (", parameters + (")" + block), block);
    EndsWithAppend(f.name, " (" + (parameters + (")" + block)), block);
    EndsWithAppend(" ", FunctionSignature(f.name, parameters, body), block);
    EndsWithAppend(ToHLSLString(f.returnType), " " + FunctionSignature(f.name, parameters, body), block);
    EndsWithAppend(inlineText, FunctionText(f, parameters, body), block);
    EndsWithAppend("\n", inlineText + FunctionText(f, parameters, body), block);
  }

  // ----- GenerateBuiltInVariables ---------------------------------------------------------------

  /** The order Enum.GetValues lists the built-ins in. */
  const BuiltInOrder: seq<BuiltInVariable> := [DispatchThreadID, GroupID, GroupIndex, GroupThreadID, PixelCoordinate, UV]

  /** A local variable declaration on a new line, indented once: "\n    type name = value;". */
  function DeclarationLine(shaderType: string, name: string, value: string): string {
    "\n    " + shaderType + " " + name + " = " + value + ";"
  }

  /** The prelude line a built-in needs; the others come in as kernel parameters. */
  function BuiltInDeclaration(v: BuiltInVariable): string {
    match v
    case PixelCoordinate => DeclarationLine("uint2", "pixelCoordinate", "dispatchThreadID.xy")
    case UV => DeclarationLine("float2", "uv", "(pixelCoordinate + 0.5f) * textureSize.zw")
    case _ => ""
  }

  /** What GenerateBuiltInVariables appends at the top of every kernel: both lines, then a line break. */
  const BuiltInPrelude: string := BuiltInDeclaration(PixelCoordinate) + BuiltInDeclaration(UV) + "\n"

  /** pattern occurs in text at offset k. */
  predicate OccursAt(text: string, k: int, pattern: string) {
    0 <= k <= |text| - |pattern| && text[k..k + |pattern|] == pattern
  }

  lemma OccursAtEnd(front: string, pattern: string)
    ensures OccursAt(front + pattern, |front|, pattern)
  {
    assert (front + pattern)[|front|..|front| + |pattern|] == pattern;
  }

  lemma OccursExtend(front: string, back: string, k: int, pattern: string)
    requires OccursAt(front, k, pattern)
    ensures OccursAt(front + back, k, pattern)
  {
    assert (front + back)[k..k + |pattern|] == front[k..k + |pattern|];
  }

  /** text declares name: " name = " occurs in it. */
  ghost predicate Declares(text: string, name: string) {
    exists k :: 1 <= k && OccursAt(text, k, name + " = ") && text[k - 1] == ' '
  }

  lemma DeclaresByShape(front: string, name: string, back: string)
    ensures Declares(front + " " + name + " = " + back, name)
  {
    var text := front + " " + name + " = " + back;
    assert OccursAt(text, |front| + 1, name + " = ");
  }

  /** The prelude declares the variables the pixelCoordinate and uv built-ins are named after. */
  lemma PreludeDeclaresDerivedBuiltIns()
    ensures Declares(BuiltInPrelude, GetBuiltInVariableName(PixelCoordinate).value)
    ensures Declares(BuiltInPrelude, GetBuiltInVariableName(UV).value)
  {
    PreludeDeclares(BuiltInDeclaration(PixelCoordinate), BuiltInDeclaration(UV));
  }

  /** Two declaration lines and a line break declare the names of both lines. */
  lemma PreludeDeclares(first: string, second: string)
    requires first == DeclarationLine("uint2", "pixelCoordinate", "dispatchThreadID.xy")
    requires second == DeclarationLine("float2", "uv", "(pixelCoordinate + 0.5f) * textureSize.zw")
    ensures Declares(first + second + "\n", "pixelCoordinate")
    ensures Declares(first + second + "\n", "uv")
  {
    assert first + second + "\n" == "" + first + (second + "\n");
    LineDeclares("uint2", "pixelCoordinate", "dispatchThreadID.xy", "", second + "\n");
    LineDeclares("float2", "uv", "(pixelCoordinate + 0.5f) * textureSize.zw", first, "\n");
  }

  /** A declaration line declares its name, whatever text surrounds it. */
  lemma LineDeclares(shaderType: string, name: string, value: string, before: string, after: string)
    ensures Declares(before + DeclarationLine(shaderType, name, value) + after, name)
  {
    var back := value + ";" + after;
    assert before + DeclarationLine(shaderType, name, value) + after
        == (before + "\n    " + shaderType) + " " + name + " = " + back;
    DeclaresByShape(before + "\n    " + shaderType, name, back);
  }

  // ----- Kernel header --------------------------------------------------------------------------

  const KernelName := "CSMain"
  /** threadGroupSize. */
  const ThreadGroupSize: (nat, nat, nat) := (8, 8, 1)

  /** The four semantic-bound kernel parameters under the given names. */
  function KernelParameters(names: seq<string>): string
    requires |names| == 4
  {
    "uint3 " + names[0] + " : SV_DispatchThreadID, uint3 " + names[1] + " : SV_GroupID, uint "
    + names[2] + " : SV_GroupIndex, uint3 " + names[3] + " : SV_GroupThreadID"
  }

  function KernelHeaderWith(i: nat, names: seq<string>): string
    requires |names| == 4
  {
    "\n[numthreads(" + NatToString(ThreadGroupSize.0) + "," + NatToString(ThreadGroupSize.1) + ","
    + NatToString(ThreadGroupSize.2) + ")]\nvoid " + KernelName + NatToString(i)
    + " (" + KernelParameters(names) + ")\n{"
  }

  /** The parameter names the kernel signature spells out. */
  const KernelParameterNamesAsWritten: seq<string> := ["dispatchThreadID", "groupId", "groupIndex", "groupThreadId"]

  function KernelHeaderAsWritten(i: nat): string {
    KernelHeaderWith(i, KernelParameterNamesAsWritten)
  }

  /** The parameter names taken from GetBuiltInVariableName, in semantic order. */
  function KernelParameterNames(): (r: seq<string>)
    ensures |r| == 4
  {
    [GetBuiltInVariableName(DispatchThreadID).value, GetBuiltInVariableName(GroupID).value,
     GetBuiltInVariableName(GroupIndex).value, GetBuiltInVariableName(GroupThreadID).value]
  }

  function KernelHeader(i: nat): string {
    KernelHeaderWith(i, KernelParameterNames())
  }

  /**
   * As written, the kernel's parameters do not carry the names the GroupID and GroupThreadID
   * built-ins are emitted under ("groupID" against "groupId", "groupThreadID" against
   * "groupThreadId"); HLSL identifiers are case sensitive.
   */
  lemma GroupNamesNotParametersAsWritten()
    ensures GetBuiltInVariableName(GroupID).value !in KernelParameterNamesAsWritten
    ensures GetBuiltInVariableName(GroupThreadID).value !in KernelParameterNamesAsWritten
  {
    var names := KernelParameterNamesAsWritten;
    assert names[0] != "groupID" && names[1] != "groupID" && names[2] != "groupID" && names[3] != "groupID";
    assert names[0] != "groupThreadID" && names[1] != "groupThreadID" && names[2] != "groupThreadID" && names[3] != "groupThreadID";
  }

  /** With the corrected header every defined built-in is in scope in every kernel. */
  lemma EveryBuiltInInScope(v: BuiltInVariable)
    requires v != Undefined
    ensures var name := GetBuiltInVariableName(v).value;
      name in KernelParameterNames() || Declares(BuiltInPrelude, name)
  {
    PreludeDeclaresDerivedBuiltIns();
  }

  // ----- Statements -----------------------------------------------------------------------------

  /** One retained instruction as the compiler writes it; a null expression throws. */
  function StatementTextAsWritten(instr: Instruction): (r: Result<string, Exception>)
    ensures r.Failure? <==> instr.expression.None?
    ensures r.Failure? ==> r.error == NullReferenceException
  {
    match instr.expression
    case None => Failure(NullReferenceException)
    case Some(e) =>
      if instr.result.IsValid() then Success(Indent(instr.result.ToShaderCode() + " = " + e.Emit(0) + ";", 1) + "\n")
      else Success(e.Emit(1) + ";" + "\n")
  }

  /**
   * One retained instruction with the store target kept: a result without a type but with a name
   * (a texture element) is assigned to rather than dropped.
   */
  function StatementText(instr: Instruction): (r: Result<string, Exception>)
    ensures r.Failure? <==> instr.expression.None?
    ensures r.Failure? ==> r.error == NullReferenceException
  {
    match instr.expression
    case None => Failure(NullReferenceException)
    case Some(e) =>
      if instr.result.IsValid() then Success(Indent(instr.result.ToShaderCode() + " = " + e.Emit(0) + ";", 1) + "\n")
      else if instr.result.name != "" then Success(Indent(instr.result.name + " = " + e.Emit(0) + ";", 1) + "\n")
      else Success(e.Emit(1) + ";" + "\n")
  }

  /** The statement of an instruction with a named result assigns the expression to that name. */
  ghost predicate AssignsTo(text: string, name: string, e: Expression) {
    exists p :: text == Indent(p + name + " = " + e.Emit(0) + ";", 1) + "\n"
  }

  /** Every named result is assigned, whether or not it has a type. */
  lemma NamedResultsAreAssigned(instr: Instruction)
    requires instr.expression.Some? && instr.result.name != ""
    ensures StatementText(instr).Success?
    ensures AssignsTo(StatementText(instr).value, instr.result.name, instr.expression.value)
  {
    var e := instr.expression.value;
    var d := instr.result;
    if d.IsValid() {
      var t := ToHLSLString(d.shaderType);
      var p := if t == "" then "" else t + " ";
      var code := d.ToShaderCode();
      assert code == p + d.name by {
        if t != "" {
          assert |code| == |t| + 1 + |d.name|;
          assert code[..|t|] == t && code[|t|] == ' ' && code[|t| + 1..] == d.name;
          assert code == code[..|t|] + [code[|t|]] + code[|t| + 1..];
        }
      }
      assert StatementText(instr).value == Indent(p + d.name + " = " + e.Emit(0) + ";", 1) + "\n";
    } else {
      assert d.name == "" + d.name;
      assert StatementText(instr).value == Indent("" + d.name + " = " + e.Emit(0) + ";", 1) + "\n";
    }
  }

  /** The correction changes nothing for typed results or for instructions with no result name. */
  lemma StatementTextAgreesOffStores(instr: Instruction)
    requires instr.result.IsValid() || instr.result.name == ""
    ensures StatementText(instr) == StatementTextAsWritten(instr)
  {
  }

  /**
   * As written, WriteTexture2D's store "output_var0[pixelCoordinate] = input" comes out as the bare
   * statement "input;": the texture write is lost.
   */
  lemma StoreLostAsWritten()
    ensures var store := Instruction(VariableDeclaration(ShaderVariableType.None, "output_var0[pixelCoordinate]"), Some(Variable("input")));
      && StatementTextAsWritten(store) == Success("    input;\n")
      && !AssignsTo(StatementTextAsWritten(store).value, store.result.name, store.expression.value)
  {
    var name := "output_var0[pixelCoordinate]";
    var e := Variable("input");
    var r := Indent("input", 1);
    assert r == "    " + "input" by {
      assert |r| == 9 && r[4..] == "input";
      assert forall i :: 0 <= i < 9 ==> r[i] == ("    " + "input")[i];
    }
    assert StatementTextAsWritten(Instruction(VariableDeclaration(ShaderVariableType.None, name), Some(e)))
        == Success(r + ";" + "\n");
    assert r + ";" + "\n" == "    input;\n";
  }

  // ----- Kernels --------------------------------------------------------------------------------

  /**
   * Which compiler a text describes: the program as written, or the one with the kernel parameter
   * names and the dropped stores corrected (findings 1 and 2).
   */
  datatype Variant = AsWritten | Corrected

  function KernelHeaderOf(v: Variant, i: nat): string {
    if v.Corrected? then KernelHeader(i) else KernelHeaderAsWritten(i)
  }

  function StatementOf(v: Variant): Instruction -> Result<string, Exception> {
    if v.Corrected? then StatementText else StatementTextAsWritten
  }

  /** Either variant fails on a statement exactly when its instruction has no expression. */
  lemma StatementOfFails(v: Variant, instr: Instruction)
    ensures StatementOf(v)(instr).Failure? <==> instr.expression.None?
    ensures StatementOf(v)(instr).Failure? ==> StatementOf(v)(instr).error == NullReferenceException
  {
    var _ := StatementText(instr);
    var _ := StatementTextAsWritten(instr);
  }

  function StatementsText(v: Variant, instrs: seq<Instruction>): Result<string, Exception> {
    ConcatMapResult(instrs, StatementOf(v))
  }

  /**
   * The text of kernel i: a null context throws, a diverging alias chase overflows the stack, and
   * otherwise the header, the prelude and one statement per retained instruction.
   */
  function KernelText(v: Variant, i: nat, slot: Option<seq<Instruction>>): Result<string, Exception> {
    match slot
    case None => Failure(NullReferenceException)
    case Some(instrs) =>
      match InlinedInstructions(instrs)
      case None => Failure(StackOverflow)
      case Some(retained) =>
        match StatementsText(v, retained)
        case Failure(e) => Failure(e)
        case Success(body) => Success(KernelHeaderOf(v, i) + BuiltInPrelude + "\n" + body + "\n}\n")
  }

  function KernelsText(v: Variant, slots: seq<Option<seq<Instruction>>>): Result<string, Exception> {
    if |slots| == 0 then Success("")
    else
      match KernelsText(v, slots[..|slots| - 1])
      case Failure(e) => Failure(e)
      case Success(front) =>
        match KernelText(v, |slots| - 1, slots[|slots| - 1])
        case Failure(e) => Failure(e)
        case Success(last) => Success(front + last)
  }

  lemma {:induction false} KernelsFailurePersists(v: Variant, slots: seq<Option<seq<Instruction>>>, i: nat)
    requires i <= |slots| && KernelsText(v, slots[..i]).Failure?
    ensures KernelsText(v, slots) == KernelsText(v, slots[..i])
    decreases |slots|
  {
    if i == |slots| {
      assert slots[..i] == slots;
    } else {
      var init := slots[..|slots| - 1];
      assert init[..i] == slots[..i];
      KernelsFailurePersists(v, init, i);
    }
  }

  predicate AllHaveExpressions(instrs: seq<Instruction>) {
    forall j :: 0 <= j < |instrs| ==> instrs[j].expression.Some?
  }

  /** What a kernel needs to compile: a context, terminating alias chases, and an expression on every retained instruction. */
  predicate KernelCompiles(slot: Option<seq<Instruction>>) {
    && slot.Some?
    && InlinedInstructions(slot.value).Some?
    && AllHaveExpressions(InlinedInstructions(slot.value).value)
  }

  lemma KernelTextSucceedsIff(v: Variant, i: nat, slot: Option<seq<Instruction>>)
    ensures KernelText(v, i, slot).Success? <==> KernelCompiles(slot)
  {
    if slot.Some? && InlinedInstructions(slot.value).Some? {
      var retained := InlinedInstructions(slot.value).value;
      ConcatMapResultSucceedsIff(retained, StatementOf(v));
      forall j | 0 <= j < |retained| {
        StatementOfFails(v, retained[j]);
      }
    }
  }

  lemma KernelsTextStep(v: Variant, slots: seq<Option<seq<Instruction>>>)
    requires |slots| > 0
    ensures KernelsText(v, slots).Success? <==>
      KernelsText(v, slots[..|slots| - 1]).Success? && KernelText(v, |slots| - 1, slots[|slots| - 1]).Success?
  {
  }

  lemma ForallSnoc<T>(xs: seq<T>, init: seq<T>, P: T -> bool)
    requires |xs| > 0 && init == xs[..|xs| - 1]
    ensures (forall k :: 0 <= k < |xs| ==> P(xs[k]))
        <==> (forall k :: 0 <= k < |init| ==> P(init[k])) && P(xs[|xs| - 1])
  {
    assert forall k :: 0 <= k < |init| ==> init[k] == xs[k];
  }

  lemma {:induction false} KernelsSucceedIff(v: Variant, slots: seq<Option<seq<Instruction>>>)
    ensures KernelsText(v, slots).Success? <==> forall k :: 0 <= k < |slots| ==> KernelCompiles(slots[k])
    decreases |slots|
  {
    if |slots| > 0 {
      var init := slots[..|slots| - 1];
      KernelsSucceedIff(v, init);
      KernelTextSucceedsIff(v, |slots| - 1, slots[|slots| - 1]);
      KernelsTextStep(v, slots);
      ForallSnoc(slots, init, KernelCompiles);
    }
  }

  // ----- Compile --------------------------------------------------------------------------------

  /**
   * One enumeration of each of the library's collections: the order a HashSet yields its elements
   * in is not specified, so it is a parameter of compilation.
   */
  datatype LibraryView = LibraryView(includes: seq<string>, definitions: seq<string>,
                                     variables: seq<ShaderVariableDeclaration>, functions: seq<FunctionDeclaration>)

  const Header := "// Auto-generated shader code\n"

  function PragmaLine(i: nat): string {
    "#pragma kernel " + KernelName + NatToString(i) + "\n"
  }

  /** One #pragma line for each of the first n kernel slots. */
  function Pragmas(n: nat): string {
    if n == 0 then "" else Pragmas(n - 1) + PragmaLine(n - 1)
  }

  /** The #pragma line of every slot, in slot order. */
  lemma {:induction false} PragmaForEverySlot(n: nat, i: nat)
    requires i < n
    ensures exists k :: OccursAt(Pragmas(n), k, PragmaLine(i))
  {
    assert Pragmas(n) == Pragmas(n - 1) + PragmaLine(n - 1);
    if i == n - 1 {
      OccursAtEnd(Pragmas(n - 1), PragmaLine(i));
    } else {
      PragmaForEverySlot(n - 1, i);
      var k :| OccursAt(Pragmas(n - 1), k, PragmaLine(i));
      OccursExtend(Pragmas(n - 1), PragmaLine(n - 1), k, PragmaLine(i));
    }
  }

  function IncludeLine(file: string): string {
    "#include \"" + file + "\"\n"
  }

  function DefineLine(definition: string): string {
    "#define " + definition + "\n"
  }

  function VariableLine(v: ShaderVariableDeclaration): string {
    v.declaration.ToShaderCode() + ";\n"
  }

  /** GenerateDefaultVariables. */
  const DefaultVariables := "\nfloat4 textureSize; // width, height, 1/width, 1/height\n"

  /** A section: nothing for an empty collection, otherwise the lead-in and one piece per element. */
  function Section<T>(xs: seq<T>, lead: string, f: T -> string): (r: string)
    ensures |xs| == 0 ==> r == ""
    ensures |xs| > 0 ==> lead <= r
  {
    if |xs| == 0 then "" else lead + ConcatMap(xs, f)
  }

  function VariableLead(): string {
    "\n" + DefaultVariables + "\n"
  }

  function FunctionSection(fs: seq<FunctionDeclaration>): Result<string, Exception> {
    if |fs| == 0 then Success("") else Prefix("\n", ConcatMapResult(fs, FunctionCode))
  }

  /** Everything ahead of the function section. */
  function Preamble(slotCount: nat, view: LibraryView): string {
    Header + Pragmas(slotCount)
    + Section(view.includes, "\n", IncludeLine)
    + Section(view.definitions, "\n", DefineLine)
    + Section(view.variables, VariableLead(), VariableLine)
  }

  /** The compiled shader, or the first exception raised while writing it. */
  function CompileText(v: Variant, slots: seq<Option<seq<Instruction>>>, view: LibraryView): Result<string, Exception> {
    match FunctionSection(view.functions)
    case Failure(e) => Failure(e)
    case Success(functions) => Prefix(Preamble(|slots|, view) + functions, KernelsText(v, slots))
  }

  /**
   * Compilation succeeds exactly when every library function's template formats and every kernel
   * compiles; a formatting failure is reported before any kernel's.
   */
  lemma CompileSucceedsIff(v: Variant, slots: seq<Option<seq<Instruction>>>, view: LibraryView)
    ensures CompileText(v, slots, view).Success? <==>
      && (forall j :: 0 <= j < |view.functions| ==> FunctionCode(view.functions[j]).Success?)
      && (forall k :: 0 <= k < |slots| ==> KernelCompiles(slots[k]))
    ensures (exists j :: 0 <= j < |view.functions| && FunctionCode(view.functions[j]).Failure?) ==>
      CompileText(v, slots, view) == Failure(FormatException)
  {
    ConcatMapResultSucceedsIff(view.functions, FunctionCode);
    KernelsSucceedIff(v, slots);
  }

  /**
   * A compiled shader opens with the header and the pragma lines, and the textureSize declaration
   * heads the variable section exactly when the library has variables.
   */
  lemma CompiledLayout(v: Variant, slots: seq<Option<seq<Instruction>>>, view: LibraryView)
    requires CompileText(v, slots, view).Success?
    ensures Header + Pragmas(|slots|) <= CompileText(v, slots, view).value
    ensures |view.variables| > 0 <==> "\n" + DefaultVariables <= Section(view.variables, VariableLead(), VariableLine)
  {
    CompiledTextOpens(v, slots, view);
    VariableSectionOpens(view.variables);
  }

  lemma CompiledTextOpens(v: Variant, slots: seq<Option<seq<Instruction>>>, view: LibraryView)
    requires CompileText(v, slots, view).Success?
    ensures Header + Pragmas(|slots|) <= CompileText(v, slots, view).value
  {
    var front := Header + Pragmas(|slots|);
    var fs := FunctionSection(view.functions).value;
    var ks := KernelsText(v, slots).value;
    var a := front + Section(view.includes, "\n", IncludeLine);
    var b := a + Section(view.definitions, "\n", DefineLine);
    var c := b + Section(view.variables, VariableLead(), VariableLine);
    assert c == Preamble(|slots|, view);
    assert CompileText(v, slots, view).value == (c + fs) + ks;
    PrefixOfAppend(front, Section(view.includes, "\n", IncludeLine));
    PrefixOfAppend(a, Section(view.definitions, "\n", DefineLine));
    PrefixOfAppend(b, Section(view.variables, VariableLead(), VariableLine));
    PrefixOfAppend(c, fs);
    PrefixOfAppend(c + fs, ks);
    PrefixTransitive(front, a, b);
    PrefixTransitive(front, b, c);
    PrefixTransitive(front, c, c + fs);
    PrefixTransitive(front, c + fs, (c + fs) + ks);
  }

  /** The textureSize declaration heads the variable section exactly when there are variables. */
  lemma VariableSectionOpens(variables: seq<ShaderVariableDeclaration>)
    ensures |variables| > 0 <==> "\n" + DefaultVariables <= Section(variables, VariableLead(), VariableLine)
  {
    if |variables| > 0 {
      var lead := VariableLead();
      PrefixOfAppend("\n" + DefaultVariables, "\n");
      PrefixOfAppend(lead, ConcatMap(variables, VariableLine));
      PrefixTransitive("\n" + DefaultVariables, lead, lead + ConcatMap(variables, VariableLine));
    }
  }

  lemma PrefixOfAppend(a: string, b: string)
    ensures a <= a + b
  {
    assert (a + b)[..|a|] == a;
  }

  lemma PrefixTransitive(a: string, b: string, c: string)
    requires a <= b && b <= c
    ensures a <= c
  {
    assert c[..|a|] == b[..|a|];
  }
}

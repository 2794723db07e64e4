/**
 * The instruction compiler object (Editor/CodeGen/InstructionCompiler.cs): its list of per-kernel
 * contexts, grown in place by AddContext, and Compile, which writes the shader section by section.
 */
module InstructionCompilers {
  import opened Outcomes
  import opened Numerics
  import opened Text
  import opened IR
  import opened Formatting
  import opened Contexts
  import opened LibraryContracts
  import opened ShaderLibraries
  import opened CompilerInlining
  import opened CompilerText

  /** xs holds every element of s exactly once. */
  predicate Enumerates<T(==)>(xs: seq<T>, s: set<T>) {
    && (forall i, j :: 0 <= i < j < |xs| ==> xs[i] != xs[j])
    && (forall i :: 0 <= i < |xs| ==> xs[i] in s)
    && (forall x :: x in s ==> x in xs)
  }

  /** An enumeration is as long as the set it enumerates. */
  lemma {:induction false} EnumerationSize<T>(xs: seq<T>, s: set<T>)
    requires Enumerates(xs, s)
    ensures |xs| == |s|
    decreases |xs|
  {
    if |xs| > 0 {
      var rest := s - {xs[0]};
      forall x ensures x in xs[1..] <==> x in rest {
        if x in xs[1..] {
          var j :| 0 <= j < |xs[1..]| && xs[1..][j] == x;
          assert xs[j + 1] == x;
        }
        if x in rest {
          var j :| 0 <= j < |xs| && xs[j] == x;
          assert j != 0;
          assert xs[1..][j - 1] == x;
        }
      }
      EnumerationSize(xs[1..], rest);
    }
  }

  /** The view enumerates each of the library's four collections. */
  predicate Lists(view: LibraryView, library: ShaderLibrary)
    reads library
  {
    && Enumerates(view.includes, library.includedFiles)
    && Enumerates(view.definitions, library.definitions)
    && Enumerates(view.variables, library.variables)
    && Enumerates(view.functions, library.functions)
  }

  /** A section of the compiled shader is present exactly when its collection in the library is not empty. */
  lemma SectionsFollowLibrary(view: LibraryView, library: ShaderLibrary)
    requires Lists(view, library)
    ensures |view.includes| > 0 <==> library.includedFiles != {}
    ensures |view.definitions| > 0 <==> library.definitions != {}
    ensures |view.variables| > 0 <==> library.variables != {}
    ensures |view.functions| > 0 <==> library.functions != {}
  {
    EnumerationSize(view.includes, library.includedFiles);
    EnumerationSize(view.definitions, library.definitions);
    EnumerationSize(view.variables, library.variables);
    EnumerationSize(view.functions, library.functions);
  }

  /** GenerateFunctionCode: the parameter array filled in a loop, then the template formatted. */
  method GenerateFunctionCode(declaration: FunctionDeclaration) returns (r: Result<string, Exception>)
    ensures r == FunctionCode(declaration)
  {
    var inlineText := if HasFlag(declaration.flags, FunctionFlagInlineable) then "inline " else "";
    var parameters := "";
    var realCode := declaration.code;
    if declaration.signature != null && |declaration.signature.items| > 0 {
      var items := declaration.signature.items;
      var paramArray := new string[|items|];
      for i := 0 to |items|
        invariant forall j :: 0 <= j < i ==> paramArray[j] == ParameterText(items[j])
      {
        var param := items[i];
        var modifier := "";
        if HasFlag(param.modifier, ModifierIn) && HasFlag(param.modifier, ModifierOut) {
          modifier := "inout ";
        } else if HasFlag(param.modifier, ModifierIn) {
          modifier := "in ";
        } else if HasFlag(param.modifier, ModifierOut) {
          modifier := "out ";
        }
        var typeStr := ToHLSLString(param.shaderType);
        if typeStr == "" {
          typeStr := "void";
        }
        paramArray[i] := modifier + typeStr + " " + param.name;
      }
      assert paramArray[..] == ParameterTexts(items);
      parameters := Join(", ", paramArray[..]);
      var formatted := Format(declaration.code, ParameterNames(items));
      if formatted.Failure? {
        return Failure(formatted.error);
      }
      realCode := formatted.value;
    }
    r := Success("\n" + (inlineText + FunctionText(declaration, parameters, realCode)));
  }

  lemma BuiltInOrderText()
    ensures ConcatMap(BuiltInOrder, BuiltInDeclaration) + "\n" == BuiltInPrelude
  {
    var o := BuiltInOrder;
    assert o[..0] == [] && o[..1][..0] == o[..0] && o[..2][..1] == o[..1] && o[..3][..2] == o[..2];
    assert o[..4][..3] == o[..3] && o[..5][..4] == o[..4] && o[..6][..5] == o[..5] && o[..6] == o;
    assert o[..1][0] == DispatchThreadID && o[..2][1] == GroupID && o[..3][2] == GroupIndex;
    assert o[..4][3] == GroupThreadID && o[..5][4] == PixelCoordinate && o[..6][5] == UV;
    assert ConcatMap(o[..1], BuiltInDeclaration) == "";
    assert ConcatMap(o[..2], BuiltInDeclaration) == "";
    assert ConcatMap(o[..3], BuiltInDeclaration) == "";
    assert ConcatMap(o[..4], BuiltInDeclaration) == "";
    assert ConcatMap(o[..5], BuiltInDeclaration) == BuiltInDeclaration(PixelCoordinate);
  }

  /** GenerateBuiltInVariables: one pass over the enum's values, then a line break. */
  method GenerateBuiltInVariables() returns (text: string)
    ensures text == BuiltInPrelude
  {
    text := "";
    for i := 0 to |BuiltInOrder|
      invariant text == ConcatMap(BuiltInOrder[..i], BuiltInDeclaration)
    {
      assert BuiltInOrder[..i + 1][..i] == BuiltInOrder[..i];
      text := text + BuiltInDeclaration(BuiltInOrder[i]);
    }
    assert BuiltInOrder[..|BuiltInOrder|] == BuiltInOrder;
    BuiltInOrderText();
    text := text + "\n";
  }

  /** Appends one line per element, in order. */
  method AppendEach<T>(text: string, xs: seq<T>, line: T -> string) returns (r: string)
    ensures r == text + ConcatMap(xs, line)
  {
    r := text;
    for i := 0 to |xs|
      invariant r == text + ConcatMap(xs[..i], line)
    {
      assert xs[..i + 1][..i] == xs[..i];
      r := r + line(xs[i]);
    }
    assert xs[..|xs|] == xs;
  }

  class InstructionCompiler {
    const shaderLibrary: ShaderLibrary
    /** The kernel slots; a slot no context was added for holds null. */
    var codeGenContexts: seq<CodeGenContext?>
    /** The list's Capacity, which AddContext keeps equal to its Count. */
    var capacity: nat

    predicate Valid()
      reads this
    {
      capacity == |codeGenContexts| && |codeGenContexts| <= INT32_MAX
    }

    constructor (shaderLibrary: ShaderLibrary)
      ensures this.shaderLibrary == shaderLibrary
      ensures codeGenContexts == [] && Valid()
    {
      this.shaderLibrary := shaderLibrary;
      codeGenContexts := [];
      capacity := 0;
    }

    /**
     * Puts ctx into slot kernelIndex, growing the list with null slots as needed. A negative index,
     * and int.MaxValue (whose successor wraps around), are out of range and change nothing.
     */
    method AddContext(ctx: CodeGenContext?, kernelIndex: int32) returns (r: Outcome<Exception>)
      requires Valid()
      modifies this
      ensures Valid()
      ensures r.Fail? <==> kernelIndex < 0 || kernelIndex == INT32_MAX
      ensures r.Fail? ==> r.error == ArgumentOutOfRangeException && codeGenContexts == old(codeGenContexts)
      ensures r.Pass? ==>
        && |codeGenContexts| == (if kernelIndex + 1 > |old(codeGenContexts)| then kernelIndex + 1 else |old(codeGenContexts)|)
        && codeGenContexts[kernelIndex] == ctx
        && forall j :: 0 <= j < |codeGenContexts| && j != kernelIndex ==>
             codeGenContexts[j] == (if j < |old(codeGenContexts)| then old(codeGenContexts)[j] else null)
    {
      var next := Int32Increment(kernelIndex);
      var newSize := if capacity >= next then capacity else next;
      if newSize > |codeGenContexts| {
        capacity := newSize;
        var i := |codeGenContexts|;
        while i < newSize
          invariant |old(codeGenContexts)| <= i <= newSize && |codeGenContexts| == i && capacity == newSize
          invariant codeGenContexts[..|old(codeGenContexts)|] == old(codeGenContexts)
          invariant forall j :: |old(codeGenContexts)| <= j < i ==> codeGenContexts[j] == null
        {
          codeGenContexts := codeGenContexts + [null];
          i := i + 1;
        }
      }
      if kernelIndex < 0 || kernelIndex >= |codeGenContexts| {
        return Fail(ArgumentOutOfRangeException);
      }
      codeGenContexts := codeGenContexts[kernelIndex := ctx];
      r := Pass;
    }

    /** The context in slot kernelIndex; an index outside the list throws. */
    method GetContext(kernelIndex: int32) returns (r: Result<CodeGenContext?, Exception>)
      ensures 0 <= kernelIndex < |codeGenContexts| ==> r == Success(codeGenContexts[kernelIndex])
      ensures !(0 <= kernelIndex < |codeGenContexts|) ==> r == Failure(ArgumentOutOfRangeException)
    {
      if kernelIndex < 0 || kernelIndex >= |codeGenContexts| {
        return Failure(ArgumentOutOfRangeException);
      }
      r := Success(codeGenContexts[kernelIndex]);
    }

    /** What each slot holds for compilation: its context's instructions, or nothing. */
    function Slots(): seq<Option<seq<Instruction>>>
      reads this, codeGenContexts
    {
      seq(|codeGenContexts|, i reads this, codeGenContexts requires 0 <= i < |codeGenContexts| => SlotOf(codeGenContexts[i]))
    }

    /** Compile: the shader text for the library (enumerated as view lists it) and every kernel slot. */
    method Compile(view: LibraryView) returns (r: Result<string, Exception>)
      requires Valid() && Lists(view, shaderLibrary)
      ensures r == CompileText(AsWritten, Slots(), view)
    {
      var sb := GeneratePreamble(|codeGenContexts|, view);
      var functions := GenerateFunctions(view.functions);
      if functions.Failure? {
        return Failure(functions.error);
      }
      var kernels := GenerateKernels();
      if kernels.Failure? {
        return Failure(kernels.error);
      }
      r := Success(sb + functions.value + kernels.value);
    }

    /** The kernel section: each slot's kernel in slot order; the first failure stops it. */
    method GenerateKernels() returns (r: Result<string, Exception>)
      ensures r == KernelsText(AsWritten, Slots())
    {
      ghost var slots := Slots();
      ghost var v := AsWritten;
      var kernels := "";
      assert slots[..0] == [];
      for k := 0 to |codeGenContexts|
        invariant KernelsText(v, slots[..k]) == Success(kernels)
      {
        assert slots[k] == SlotOf(codeGenContexts[k]);
        var kernel := GenerateKernel(k, codeGenContexts[k]);
        KernelsSnoc(v, slots, k, kernels, kernel);
        if kernel.Failure? {
          return Failure(kernel.error);
        }
        kernels := kernels + kernel.value;
      }
      assert slots[..|slots|] == slots;
      r := Success(kernels);
    }
  }

  /** One more kernel: a failure is the whole section's failure, a success extends the section by its text. */
  lemma KernelsSnoc(v: Variant, slots: seq<Option<seq<Instruction>>>, k: nat, done: string, kernel: Result<string, Exception>)
    requires k < |slots| && KernelsText(v, slots[..k]) == Success(done)
    requires kernel == KernelText(v, k, slots[k])
    ensures kernel.Failure? ==> KernelsText(v, slots) == Failure(kernel.error)
    ensures kernel.Success? ==> KernelsText(v, slots[..k + 1]) == Success(done + kernel.value)
  {
    assert slots[..k + 1][..k] == slots[..k];
    if kernel.Failure? {
      KernelsFailurePersists(v, slots, k + 1);
    }
  }

  /** The instructions a context holds, or nothing for a null slot. */
  function SlotOf(context: CodeGenContext?): Option<seq<Instruction>>
    reads context
  {
    if context == null then Option.None else Some(context.instructionSet)
  }

  /** The header comment, one pragma per kernel slot, and the include, define and variable sections. */
  method GeneratePreamble(slotCount: nat, view: LibraryView) returns (sb: string)
    ensures sb == Preamble(slotCount, view)
  {
    var pragmas := "";
    for k := 0 to slotCount
      invariant pragmas == Pragmas(k)
    {
      pragmas := pragmas + PragmaLine(k);
    }
    var includes := GenerateSection(view.includes, "\n", IncludeLine);
    var definitions := GenerateSection(view.definitions, "\n", DefineLine);
    var variables := GenerateSection(view.variables, VariableLead(), VariableLine);
    sb := Header + pragmas + includes + definitions + variables;
  }

  /** A section written only when its collection is not empty: the lead-in, then one line per element. */
  method GenerateSection<T>(xs: seq<T>, lead: string, line: T -> string) returns (r: string)
    ensures r == Section(xs, lead, line)
  {
    r := "";
    if |xs| > 0 {
      r := AppendEach(lead, xs, line);
    }
  }

  /** The function section: a leading line break, then each function's code; the first failure stops it. */
  method GenerateFunctions(functions: seq<FunctionDeclaration>) returns (r: Result<string, Exception>)
    ensures r == FunctionSection(functions)
  {
    if |functions| == 0 {
      return Success("");
    }
    var codes := "";
    assert functions[..0] == [];
    for i := 0 to |functions|
      invariant ConcatMapResult(functions[..i], FunctionCode) == Success(codes)
    {
      assert functions[..i + 1][..i] == functions[..i];
      var code := GenerateFunctionCode(functions[i]);
      if code.Failure? {
        ConcatMapResultFailurePersists(functions, FunctionCode, i + 1);
        return Failure(code.error);
      }
      codes := codes + code.value;
    }
    assert functions[..|functions|] == functions;
    r := Success("\n" + codes);
  }

  /** The statements of a kernel body, one per instruction; the first failure stops it. */
  method GenerateStatements(instructions: seq<Instruction>) returns (r: Result<string, Exception>)
    ensures r == StatementsText(AsWritten, instructions)
  {
    var body := "";
    assert instructions[..0] == [];
    for j := 0 to |instructions|
      invariant StatementsText(AsWritten, instructions[..j]) == Success(body)
    {
      assert instructions[..j + 1][..j] == instructions[..j];
      var statement := StatementTextAsWritten(instructions[j]);
      if statement.Failure? {
        ConcatMapResultFailurePersists(instructions, StatementOf(AsWritten), j + 1);
        return Failure(statement.error);
      }
      body := body + statement.value;
    }
    assert instructions[..|instructions|] == instructions;
    r := Success(body);
  }

  /** One kernel: its header and built-in prelude, then one statement per instruction left after inlining. */
  method GenerateKernel(k: nat, context: CodeGenContext?) returns (r: Result<string, Exception>)
    ensures r == KernelText(AsWritten, k, SlotOf(context))
  {
    var prelude := GenerateBuiltInVariables();
    if context == null {
      return Failure(NullReferenceException);
    }
    var inlined := InlineInstructions(context.instructionSet);
    if inlined.None? {
      return Failure(StackOverflow);
    }
    var body := GenerateStatements(inlined.value);
    if body.Failure? {
      return Failure(body.error);
    }
    r := Success(KernelHeaderAsWritten(k) + prelude + "\n" + body.value + "\n}\n");
  }
}

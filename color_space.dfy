/**
 * The ColorSpaceConversion node (Editor/Models/Nodes/Artistic/ColorSpaceConversion.cs): it registers
 * two inlineable HLSL functions, sRGB to linear and linear to sRGB, and calls the one its option picks.
 */
module ColorSpace {
  import opened Outcomes
  import opened Text
  import opened IR
  import opened Contexts
  import opened CodeGenUtility
  import opened NodeCodeGen
  import opened LibraryContracts
  import opened ShaderLibraries
  import opened Formatting
  import opened CompilerText
  import opened MathNodes

  /** The "Conversion Type" option; Undefined stands for any other value the enum can hold. */
  datatype ConversionType = SrgbToLinear | LinearToSrgb | Undefined

  const SrgbToLinearName: string := "ColorSpaceConversion_sRGB_Linear"
  const LinearToSrgbName: string := "ColorSpaceConversion_Linear_sRGB"

  /** The placeholders of both bodies: {0} is the colour, {1} the preserve-alpha flag. */
  const BodyHoles: seq<nat> := [0, 0, 0, 1, 0]

  // The literal text of the two bodies, between their placeholders. Each long piece is written in
  // short chunks so that its lack of braces is checked chunk by chunk.
  const SrgbLead: string := "\n    float4 " + "linearRGBLo = "
  const SrgbLow: string := " / 12.92;;\n    " + "float4 linearRGBHi " + "= pow(max(abs(("
  const SrgbHigh: string := " + 0.055) / 1.055), " + "1.192092896e-07), " + "2.4);\n    float4 " + "result = float4("
  const SrgbSelect: string := " <= 0.04045) ? " + "linearRGBLo : " + "linearRGBHi;\n    " + "return "
  const LinearLead: string := "\n    float4 " + "sRGBLo = "
  const LinearLow: string := " * 12.92;\n    " + "float4 sRGBHi = " + "(pow(max(abs("
  const LinearHigh: string := "), 1.192092896e-07), " + "0.4166667) * 1.055) " + "- 0.055;\n    float4" + " result = float4("
  const LinearSelect: string := " <= 0.0031308) ? " + "sRGBLo : sRGBHi;" + "\n    return "
  const AlphaChoice: string := " ? float4(result.x, " + "result.y, result.z, "
  const AlphaEnd: string := ".w) : result;"

  /** The sRGB-to-linear body, as the literal text between its placeholders. */
  const SrgbToLinearPieces: seq<string> := [SrgbLead, SrgbLow, SrgbHigh, SrgbSelect, AlphaChoice, AlphaEnd]

  /** The linear-to-sRGB body, as the literal text between its placeholders. */
  const LinearToSrgbPieces: seq<string> := [LinearLead, LinearLow, LinearHigh, LinearSelect, AlphaChoice, AlphaEnd]

  /** The template's parameters: the colour and whether to keep its alpha, neither with a modifier. */
  const ConversionParameters: seq<ParameterDeclaration> := [
    ParameterDeclaration(Float4, ModifierNone, "color"),
    ParameterDeclaration(Bool, ModifierNone, "preserveAlpha")]

  /** The two registered functions, sharing the template's signature list. */
  function SrgbToLinearFunction(signature: ParamList): FunctionDeclaration {
    FunctionDeclaration(SrgbToLinearName, Template(SrgbToLinearPieces, BodyHoles), signature, Float4, FunctionFlagInlineable)
  }

  function LinearToSrgbFunction(signature: ParamList): FunctionDeclaration {
    FunctionDeclaration(LinearToSrgbName, Template(LinearToSrgbPieces, BodyHoles), signature, Float4, FunctionFlagInlineable)
  }

  /** What one Initialize adds to the library. */
  function RegisteredFunctions(signature: ParamList): set<FunctionDeclaration> {
    {SrgbToLinearFunction(signature), LinearToSrgbFunction(signature)}
  }

  /** No piece of either body holds a brace, so each is copied verbatim. */
  lemma PiecesAreLiteral()
    ensures forall k :: 0 <= k < |SrgbToLinearPieces| ==> NoBraces(SrgbToLinearPieces[k])
    ensures forall k :: 0 <= k < |LinearToSrgbPieces| ==> NoBraces(LinearToSrgbPieces[k])
  {
    SrgbPiecesLiteral();
    LinearPiecesLiteral();
    AlphaPiecesLiteral();
  }

  lemma SrgbPiecesLiteral()
    ensures NoBraces(SrgbLead) && NoBraces(SrgbLow) && NoBraces(SrgbHigh) && NoBraces(SrgbSelect)
  {
    Chunks2Literal("\n    float4 ", "linearRGBLo = ");
    Chunks3Literal(" / 12.92;;\n    ", "float4 linearRGBHi ", "= pow(max(abs((");
    Chunks4Literal(" + 0.055) / 1.055), ", "1.192092896e-07), ", "2.4);\n    float4 ", "result = float4(");
    Chunks4Literal(" <= 0.04045) ? ", "linearRGBLo : ", "linearRGBHi;\n    ", "return ");
  }

  lemma LinearPiecesLiteral()
    ensures NoBraces(LinearLead) && NoBraces(LinearLow) && NoBraces(LinearHigh) && NoBraces(LinearSelect)
  {
    Chunks2Literal("\n    float4 ", "sRGBLo = ");
    Chunks3Literal(" * 12.92;\n    ", "float4 sRGBHi = ", "(pow(max(abs(");
    Chunks4Literal("), 1.192092896e-07), ", "0.4166667) * 1.055) ", "- 0.055;\n    float4", " result = float4(");
    Chunks3Literal(" <= 0.0031308) ? ", "sRGBLo : sRGBHi;", "\n    return ");
  }

  lemma AlphaPiecesLiteral()
    ensures NoBraces(AlphaChoice) && NoBraces(AlphaEnd)
  {
    Chunks2Literal(" ? float4(result.x, ", "result.y, result.z, ");
    assert NoBraces(AlphaEnd);
  }

  lemma Chunks2Literal(a: string, b: string)
    requires NoBraces(a) && NoBraces(b)
    ensures NoBraces(a + b)
  {
    NoBracesJoin(a, b);
  }

  lemma Chunks3Literal(a: string, b: string, c: string)
    requires NoBraces(a) && NoBraces(b) && NoBraces(c)
    ensures NoBraces(a + b + c)
  {
    NoBracesJoin(a, b);
    NoBracesJoin(a + b, c);
  }

  lemma Chunks4Literal(a: string, b: string, c: string, d: string)
    requires NoBraces(a) && NoBraces(b) && NoBraces(c) && NoBraces(d)
    ensures NoBraces(a + b + c + d)
  {
    Chunks3Literal(a, b, c);
    NoBracesJoin(a + b + c, d);
  }

  /**
   * Both bodies use only the placeholders {0} and {1}, which the two parameters fill: the compiler
   * writes each function without a FormatException, and the two have different names.
   */
  lemma RegisteredFunctionsCompile(signature: ParamList)
    requires signature.items == ConversionParameters
    ensures FunctionCode(SrgbToLinearFunction(signature)).Success?
    ensures FunctionCode(LinearToSrgbFunction(signature)).Success?
    ensures SrgbToLinearFunction(signature).name != LinearToSrgbFunction(signature).name
  {
    PiecesAreLiteral();
    assert forall k :: 0 <= k < |BodyHoles| ==> BodyHoles[k] < 2;
    TemplateCompiles(SrgbToLinearFunction(signature), SrgbToLinearPieces, BodyHoles);
    TemplateCompiles(LinearToSrgbFunction(signature), LinearToSrgbPieces, BodyHoles);
  }

  /** A function of the two conversion parameters whose body fills the body placeholders compiles. */
  lemma TemplateCompiles(f: FunctionDeclaration, pieces: seq<string>, holes: seq<nat>)
    requires |pieces| == |holes| + 1 && f.code == Template(pieces, holes)
    requires f.signature != null && f.signature.items == ConversionParameters
    requires forall k :: 0 <= k < |pieces| ==> NoBraces(pieces[k])
    requires forall k :: 0 <= k < |holes| ==> holes[k] < 2
    ensures FunctionCode(f).Success?
  {
    var names := ParameterNames(ConversionParameters);
    assert |names| == 2;
    TemplateFormats(pieces, holes, names);
  }

  /**
   * Initialize as written: one signature list for both functions, registered with AddFunction.
   * A second node's Initialize builds a new list, so its functions are new set elements.
   */
  method InitializeAsWritten(library: ShaderLibrary) returns (signature: ParamList)
    modifies library
    ensures fresh(signature) && signature.items == ConversionParameters
    ensures library.functions == old(library.functions) + RegisteredFunctions(signature)
    ensures library.includedFiles == old(library.includedFiles) && library.definitions == old(library.definitions)
    ensures library.variables == old(library.variables) && library.variableCounter == old(library.variableCounter)
  {
    signature := new ParamList(ConversionParameters);
    library.AddFunction(SrgbToLinearFunction(signature));
    library.AddFunction(LinearToSrgbFunction(signature));
  }

  /**
   * Two nodes initialized as written leave four functions in the library, two of each content:
   * the shader then defines each conversion function twice.
   */
  lemma TwoNodesDuplicateAsWritten(first: ParamList, second: ParamList)
    requires first != second && first.items == second.items
    ensures var functions := RegisteredFunctions(first) + RegisteredFunctions(second);
      && |functions| == 4
      && !NoContentDuplicates(functions)
  {
    SeparateListsAreDifferentFunctions(SrgbToLinearFunction(first), SrgbToLinearFunction(second));
    SeparateListsAreDifferentFunctions(LinearToSrgbFunction(first), LinearToSrgbFunction(second));
    var functions := RegisteredFunctions(first) + RegisteredFunctions(second);
    assert functions == {SrgbToLinearFunction(first)} + {LinearToSrgbFunction(first)}
                      + {SrgbToLinearFunction(second)} + {LinearToSrgbFunction(second)};
    assert FunctionContent(SrgbToLinearFunction(first)) == FunctionContent(SrgbToLinearFunction(second));
  }

  /**
   * Initialize with each function registered by content: both conversion functions are in the
   * library afterwards, nothing else is added, and a library without duplicate contents keeps none.
   */
  method Initialize(library: ShaderLibrary) returns (signature: ParamList)
    modifies library
    ensures fresh(signature) && signature.items == ConversionParameters
    ensures old(library.functions) <= library.functions
    ensures library.functions <= old(library.functions) + RegisteredFunctions(signature)
    ensures forall f :: f in RegisteredFunctions(signature) ==> ContentPresent(library.functions, f)
    ensures NoContentDuplicates(old(library.functions)) ==> NoContentDuplicates(library.functions)
    ensures library.includedFiles == old(library.includedFiles) && library.definitions == old(library.definitions)
    ensures library.variables == old(library.variables) && library.variableCounter == old(library.variableCounter)
  {
    signature := new ParamList(ConversionParameters);
    var srgbToLinear := SrgbToLinearFunction(signature);
    var linearToSrgb := LinearToSrgbFunction(signature);
    library.AddFunctionByContent(srgbToLinear);
    ghost var between := library.functions;
    library.AddFunctionByContent(linearToSrgb);
    RegisteredInTurn(old(library.functions), between, library.functions, srgbToLinear, linearToSrgb);
    assert RegisteredFunctions(signature) == {srgbToLinear, linearToSrgb};
  }

  /** Two registrations by content in turn: both contents are present and at most the two functions are added. */
  lemma RegisteredInTurn(before: set<FunctionDeclaration>, between: set<FunctionDeclaration>, after: set<FunctionDeclaration>,
                         first: FunctionDeclaration, second: FunctionDeclaration)
    requires ContentPresent(before, first) ==> between == before
    requires !ContentPresent(before, first) ==> between == before + {first}
    requires ContentPresent(between, second) ==> after == between
    requires !ContentPresent(between, second) ==> after == between + {second}
    ensures before <= after && after <= before + {first, second}
    ensures ContentPresent(after, first) && ContentPresent(after, second)
  {
    AddedContentPresent(before, between, first);
    AddedContentPresent(between, after, second);
    ContentStaysPresent(between, after, first);
  }

  /** Whether some function in the set has the content of f. */
  ghost predicate ContentPresent(functions: set<FunctionDeclaration>, f: FunctionDeclaration) {
    exists g :: g in functions && FunctionContent(g) == FunctionContent(f)
  }

  /** After a registration by content, the registered content is present. */
  lemma AddedContentPresent(before: set<FunctionDeclaration>, after: set<FunctionDeclaration>, f: FunctionDeclaration)
    requires ContentPresent(before, f) ==> after == before
    requires !ContentPresent(before, f) ==> after == before + {f}
    ensures ContentPresent(after, f) && before <= after
  {
    if !ContentPresent(before, f) {
      assert f in after;
    }
  }

  /** Adding functions keeps every content present. */
  lemma ContentStaysPresent(before: set<FunctionDeclaration>, after: set<FunctionDeclaration>, f: FunctionDeclaration)
    requires ContentPresent(before, f) && before <= after
    ensures ContentPresent(after, f)
  {
  }

  /** The function GenerateCode calls; any other conversion type throws NotSupportedException. */
  function FunctionName(conversion: ConversionType): (r: Result<string, Exception>)
    ensures r.Failure? <==> conversion == ConversionType.Undefined
    ensures r.Failure? ==> r.error == NotSupportedException
  {
    match conversion
    case SrgbToLinear => Success(SrgbToLinearName)
    case LinearToSrgb => Success(LinearToSrgbName)
    case Undefined => Failure(NotSupportedException)
  }

  /**
   * Every conversion GenerateCode accepts calls a function Initialize registers, with one argument
   * per parameter of that function.
   */
  lemma CalledFunctionRegistered(conversion: ConversionType, signature: ParamList)
    requires conversion != ConversionType.Undefined && signature.items == ConversionParameters
    ensures exists f :: f in RegisteredFunctions(signature) && f.name == FunctionName(conversion).value
                        && |f.signature.items| == 2
  {
    if conversion == SrgbToLinear {
      assert SrgbToLinearFunction(signature) in RegisteredFunctions(signature);
    } else {
      assert LinearToSrgbFunction(signature) in RegisteredFunctions(signature);
    }
  }

  /** The input port and the output port. */
  function InputPort(self: Node, connection: Option<Endpoint>): Port {
    Port(Endpoint(self, "Input"), connection)
  }

  function OutputPort(self: Node): Endpoint {
    Endpoint(self, "Result")
  }

  /** The fallback for an unconnected input: the float4 value written as an HLSL constant by formatColor. */
  function ColorFallback<T>(formatColor: T -> string): T -> Result<Expression, Exception> {
    v => Success(Constant(formatColor(v)))
  }

  /** The HLSL literal for the "Preserve Alpha" option. */
  function BoolLiteral(b: bool): string {
    if b then "true" else "false"
  }

  /** The call instruction: the output port's float4 variable set to the conversion applied to the input. */
  function ConversionInstruction(self: Node, functionName: string, inputVar: string, preserveAlpha: bool): Instruction {
    Instruction(VariableDeclaration(Float4, GetOutputVariableName(OutputPort(self))),
                Some(FunctionCall(functionName, [Variable(inputVar), Constant(BoolLiteral(preserveAlpha))], Option.None)))
  }

  /**
   * ColorSpaceConversion.GenerateCode as a value: the input is resolved first, so an unexpected
   * conversion type throws only after the input's instruction is appended.
   */
  function ConversionGeneration<T>(conversion: ConversionType, preserveAlpha: bool, self: Node, connection: Option<Endpoint>,
                                   portValue: (Node, string) -> T, formatColor: T -> string): Generated
  {
    match ResolveTyped(InputPort(self, connection), ClrFloat4, portValue, ColorFallback(formatColor))
    case Failure(e) => Generated([], Fail(e))
    case Success(input) =>
      match FunctionName(conversion)
      case Failure(e) => Generated(input.appended, Fail(e))
      case Success(name) => Generated(input.appended + [ConversionInstruction(self, name, input.name, preserveAlpha)], Pass)
  }

  /**
   * The node throws when its input does or when the conversion type is out of range; otherwise it
   * appends, after the input's own instructions, the output's float4 declaration set to
   * "name(input, true|false)".
   */
  lemma ConversionGenerationFacts<T>(conversion: ConversionType, preserveAlpha: bool, self: Node,
                                     connection: Option<Endpoint>, portValue: (Node, string) -> T, formatColor: T -> string)
    ensures var g := ConversionGeneration(conversion, preserveAlpha, self, connection, portValue, formatColor);
      var input := ResolveTyped(InputPort(self, connection), ClrFloat4, portValue, ColorFallback(formatColor));
      && (g.outcome.Fail? <==> input.Failure? || conversion == ConversionType.Undefined)
      && (input.Success? && conversion == ConversionType.Undefined ==>
            g == Generated(input.value.appended, Fail(NotSupportedException)))
      && (g.outcome.Pass? ==>
            var last := g.appended[|g.appended| - 1];
            && g.appended[..|g.appended| - 1] == input.value.appended
            && last.result == VariableDeclaration(Float4, GetUniqueVariableName(OutputPort(self)))
            && last.expression.value.Emit(0)
               == Applied(FunctionName(conversion).value, input.value.name + ", " + BoolLiteral(preserveAlpha)))
  {
    var input := ResolveTyped(InputPort(self, connection), ClrFloat4, portValue, ColorFallback(formatColor));
    if input.Success? && conversion != ConversionType.Undefined {
      var name := FunctionName(conversion).value;
      var last := ConversionInstruction(self, name, input.value.name, preserveAlpha);
      assert ConversionGeneration(conversion, preserveAlpha, self, connection, portValue, formatColor)
        == Generated(input.value.appended + [last], Pass);
      assert (input.value.appended + [last])[..|input.value.appended|] == input.value.appended;
      ConversionCallText(name, input.value.name, preserveAlpha);
    }
  }

  /** The call reads as the function applied to the input variable and the preserve-alpha literal. */
  lemma ConversionCallText(name: string, inputVar: string, preserveAlpha: bool)
    ensures FunctionCall(name, [Variable(inputVar), Constant(BoolLiteral(preserveAlpha))], Option.None).Emit(0)
            == Applied(name, inputVar + ", " + BoolLiteral(preserveAlpha))
  {
    var args := [Variable(inputVar), Constant(BoolLiteral(preserveAlpha))];
    assert seq(|args|, i requires 0 <= i < |args| => args[i].Emit(0)) == [inputVar, BoolLiteral(preserveAlpha)];
    JoinPair(inputVar, BoolLiteral(preserveAlpha));
  }

  /** ColorSpaceConversion.GenerateCode. */
  method GenerateCode<T>(conversion: ConversionType, preserveAlpha: bool, self: Node, connection: Option<Endpoint>,
                         ctx: CodeGenContext, portValue: (Node, string) -> T, formatColor: T -> string)
    returns (r: Outcome<Exception>)
    modifies ctx
    ensures var g := ConversionGeneration(conversion, preserveAlpha, self, connection, portValue, formatColor);
      ctx.instructionSet == old(ctx.instructionSet) + g.appended && r == g.outcome
  {
    var inputVar := ResolveTypedInput(InputPort(self, connection), ClrFloat4, ctx, portValue, ColorFallback(formatColor));
    if inputVar.Failure? {
      return Fail(inputVar.error);
    }
    var outputVar := GetOutputVariableName(OutputPort(self));
    var functionName := FunctionName(conversion);
    if functionName.Failure? {
      return Fail(functionName.error);
    }
    ctx.AddInstruction(Instruction(VariableDeclaration(Float4, outputVar),
                                   Some(FunctionCall(functionName.value, [Variable(inputVar.value), Constant(BoolLiteral(preserveAlpha))], Option.None))));
    r := Pass;
  }
}

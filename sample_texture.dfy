/**
 * The SampleTexture2D node (Editor/Models/Nodes/SampleTexture2D.cs): it declares a texture and its
 * sampler in the shader library and samples the texture at the UV input.
 */
module SampleTexture {
  import opened Outcomes
  import opened Numerics
  import opened Text
  import opened IR
  import opened Contexts
  import opened CodeGenUtility
  import opened NodeCodeGen
  import opened LibraryContracts
  import opened ShaderLibraries
  import opened MathNodes

  /**
   * A port value as ToConstantExpr receives it, boxed: F stands for the single-precision float,
   * whose text the caller's formatters produce; BoxedNull is a null reference.
   */
  datatype BoxedValue<F> =
    | BoxedFloat(f: F)
    | BoxedFloat2(x2: F, y2: F)
    | BoxedFloat3(x3: F, y3: F, z3: F)
    | BoxedFloat4(x4: F, y4: F, z4: F, w4: F)
    | BoxedBool(b: bool)
    | BoxedOther
    | BoxedNull

  /** The shader type whose constants a boxed value can become, if any. */
  function ConstantType<F>(data: BoxedValue<F>): Option<ShaderVariableType> {
    match data
    case BoxedFloat(_) => Some(Float)
    case BoxedFloat2(_, _) => Some(Float2)
    case BoxedFloat3(_, _, _) => Some(Float3)
    case BoxedFloat4(_, _, _, _) => Some(Float4)
    case BoxedBool(_) => Some(Bool)
    case BoxedOther => Option.None
    case BoxedNull => Option.None
  }

  /** The HLSL literal of a boolean. */
  function BoolLiteral(b: bool): string {
    if b then "true" else "false"
  }

  /**
   * SampleTexture2D.ToConstantExpr: a constant for a value whose kind matches the port's type;
   * fixedPoint formats a float with "F", general as string interpolation does. Any other value
   * throws InvalidOperationException, except null: building that exception's message asks null
   * for its type, which throws NullReferenceException first.
   */
  function ToConstantExpr<F>(data: BoxedValue<F>, dataType: ShaderVariableType, fixedPoint: F -> string, general: F -> string)
    : (r: Result<Expression, Exception>)
    ensures r.Success? <==> ConstantType(data) == Some(dataType)
    ensures r.Failure? ==> r.error == (if data.BoxedNull? then NullReferenceException else InvalidOperationException)
    ensures r.Success? ==> r.value.Constant?
  {
    match data
    case BoxedFloat(f) =>
      if dataType == Float then Success(Constant(fixedPoint(f))) else Failure(InvalidOperationException)
    case BoxedFloat2(x, y) =>
      if dataType == Float2 then Success(Constant(Applied("float2", Join(", ", [general(x), general(y)]))))
      else Failure(InvalidOperationException)
    case BoxedFloat3(x, y, z) =>
      if dataType == Float3 then Success(Constant(Applied("float3", Join(", ", [general(x), general(y), general(z)]))))
      else Failure(InvalidOperationException)
    case BoxedFloat4(x, y, z, w) =>
      if dataType == Float4 then Success(Constant(Applied("float4", Join(", ", [general(x), general(y), general(z), general(w)]))))
      else Failure(InvalidOperationException)
    case BoxedBool(b) =>
      if dataType == Bool then Success(Constant(BoolLiteral(b))) else Failure(InvalidOperationException)
    case BoxedOther => Failure(InvalidOperationException)
    case BoxedNull => Failure(NullReferenceException)
  }

  /** A boolean becomes "true" or "false"; a vector becomes its constructor applied to its components. */
  lemma ConstantTexts<F>(data: BoxedValue<F>, fixedPoint: F -> string, general: F -> string)
    requires ConstantType(data).Some?
    ensures var r := ToConstantExpr(data, ConstantType(data).value, fixedPoint, general);
      && (data.BoxedBool? ==> r == Success(Constant(if data.b then "true" else "false")))
      && (data.BoxedFloat? ==> r == Success(Constant(fixedPoint(data.f))))
      && (data.BoxedFloat2? ==> r == Success(Constant(Applied("float2", general(data.x2) + ", " + general(data.y2)))))
      && (data.BoxedFloat3? ==>
            r == Success(Constant(Applied("float3", general(data.x3) + ", " + general(data.y3) + ", " + general(data.z3)))))
  {
    if data.BoxedFloat2? {
      JoinPair(general(data.x2), general(data.y2));
    } else if data.BoxedFloat3? {
      JoinTriple(general(data.x3), general(data.y3), general(data.z3));
    }
  }

  /** Three arguments are joined by commas and spaces. */
  lemma JoinTriple(a: string, b: string, c: string)
    ensures Join(", ", [a, b, c]) == a + ", " + b + ", " + c
  {
    assert [a, b, c][1..] == [b, c];
    JoinPair(b, c);
  }

  /** The name Initialize gives the sampler of a texture variable. */
  function SamplerName(textureVar: string): string {
    "sampler_" + textureVar
  }

  /** The sampler's name is never its texture's, and determines it. */
  lemma SamplerNamesDistinct(t1: string, t2: string)
    ensures SamplerName(t1) != t1
    ensures SamplerName(t1) == SamplerName(t2) ==> t1 == t2
  {
    assert |SamplerName(t1)| == |t1| + 8;
    if SamplerName(t1) == SamplerName(t2) {
      assert t1 == SamplerName(t1)[8..] && t2 == SamplerName(t2)[8..];
    }
  }

  /**
   * Two nodes initialized one after the other draw successive counter values, so their textures,
   * and with them their samplers, have different names.
   */
  lemma SuccessiveTexturesDistinct(counter: uint32)
    ensures VariableName("Input", counter) != VariableName("Input", WrappingIncrement(counter))
    ensures SamplerName(VariableName("Input", counter)) != SamplerName(VariableName("Input", WrappingIncrement(counter)))
  {
    if VariableName("Input", counter) == VariableName("Input", WrappingIncrement(counter)) {
      VariableNameInjective("Input", counter, "Input", WrappingIncrement(counter));
    }
    SamplerNamesDistinct(VariableName("Input", counter), VariableName("Input", WrappingIncrement(counter)));
  }

  /** The sampling call: the texture's SampleLevel method at mip level 0. */
  function SampleInstruction(self: Node, textureVar: string, samplerVar: string, uvVar: string): Instruction {
    Instruction(VariableDeclaration(Float4, GetOutputVariableName(Endpoint(self, "Result"))),
                Some(FunctionCall(textureVar + ".SampleLevel", [Variable(samplerVar), Variable(uvVar), Constant("0")], Option.None)))
  }

  /** The UV input port. */
  function UvPort(self: Node, connection: Option<Endpoint>): Port {
    Port(Endpoint(self, "UV"), connection)
  }

  /** The fallback for an unconnected UV input: the float2 value written as an HLSL constant by formatUv. */
  function UvFallback<T>(formatUv: T -> string): T -> Result<Expression, Exception> {
    v => Success(Constant(formatUv(v)))
  }

  /** SampleTexture2D.GenerateCode as a value: the UV input is resolved as a float2, then sampled at. */
  function SampleGeneration<T>(textureVar: string, samplerVar: string, self: Node, connection: Option<Endpoint>,
                               portValue: (Node, string) -> T, formatUv: T -> string): Generated
  {
    match ResolveTyped(UvPort(self, connection), ClrFloat2, portValue, UvFallback(formatUv))
    case Failure(e) => Generated([], Fail(e))
    case Success(uv) => Generated(uv.appended + [SampleInstruction(self, textureVar, samplerVar, uv.name)], Pass)
  }

  /**
   * The node throws only when its UV input does, appending nothing; otherwise, after the UV input's
   * own instructions, it declares the output port's float4 as "tex.SampleLevel(sampler, uv, 0)".
   */
  lemma SampleGenerationFacts<T>(textureVar: string, samplerVar: string, self: Node, connection: Option<Endpoint>,
                                 portValue: (Node, string) -> T, formatUv: T -> string)
    ensures var g := SampleGeneration(textureVar, samplerVar, self, connection, portValue, formatUv);
      var uv := ResolveTyped(UvPort(self, connection), ClrFloat2, portValue, UvFallback(formatUv));
      && (g.outcome.Fail? <==> uv.Failure?)
      && (g.outcome.Fail? ==> g.appended == [])
      && (g.outcome.Pass? ==>
            var last := g.appended[|g.appended| - 1];
            && g.appended[..|g.appended| - 1] == uv.value.appended
            && last.result == VariableDeclaration(Float4, GetUniqueVariableName(Endpoint(self, "Result")))
            && last.expression.value.Emit(0)
               == textureVar + ".SampleLevel(" + samplerVar + ", " + uv.value.name + ", 0)")
  {
    var uv := ResolveTyped(UvPort(self, connection), ClrFloat2, portValue, UvFallback(formatUv));
    if uv.Success? {
      var last := SampleInstruction(self, textureVar, samplerVar, uv.value.name);
      assert (uv.value.appended + [last])[..|uv.value.appended|] == uv.value.appended;
      SampleCallText(textureVar, samplerVar, uv.value.name);
    }
  }

  /** The sampling call's text. */
  lemma SampleCallText(textureVar: string, samplerVar: string, uvVar: string)
    ensures FunctionCall(textureVar + ".SampleLevel", [Variable(samplerVar), Variable(uvVar), Constant("0")], Option.None).Emit(0)
            == textureVar + ".SampleLevel(" + samplerVar + ", " + uvVar + ", 0)"
  {
    var args := [Variable(samplerVar), Variable(uvVar), Constant("0")];
    assert seq(|args|, i requires 0 <= i < |args| => args[i].Emit(0)) == [samplerVar, uvVar, "0"];
    JoinTriple(samplerVar, uvVar, "0");
  }

  /** The node: its UV connection, and the names Initialize gives its texture and sampler. */
  class SampleTexture2DNode {
    const self: Node
    const uvConnection: Option<Endpoint>
    var textureVarName: string
    var samplerVarName: string

    constructor (self: Node, uvConnection: Option<Endpoint>)
      ensures this.self == self && this.uvConnection == uvConnection
      ensures textureVarName == "" && samplerVarName == ""
    {
      this.self := self;
      this.uvConnection := uvConnection;
      textureVarName := "";
      samplerVarName := "";
    }

    /**
     * Declares the texture under the next counter name with prefix "Input" (the input port's name)
     * and its sampler under exactly "sampler_" and that name, with no binding.
     */
    method Initialize(library: ShaderLibrary) returns (ghost binding: BindingCallback)
      modifies this, library
      ensures fresh(binding)
      ensures textureVarName == VariableName("Input", old(library.variableCounter))
      ensures samplerVarName == SamplerName(textureVarName)
      ensures library.variableCounter == WrappingIncrement(old(library.variableCounter))
      ensures library.variables == old(library.variables)
        + {ShaderVariableDeclaration(VariableDeclaration(Texture2D, textureVarName), binding)}
        + {ShaderVariableDeclaration(VariableDeclaration(SamplerState, samplerVarName), null)}
      ensures library.includedFiles == old(library.includedFiles) && library.definitions == old(library.definitions)
      ensures library.functions == old(library.functions)
    {
      var callback := new BindingCallback();
      binding := callback;
      textureVarName := library.AddVariable(Texture2D, "Input", callback);
      samplerVarName := library.AddVariableExactName(SamplerState, SamplerName(textureVarName), null);
    }

    /** SampleTexture2D.GenerateCode, with the names Initialize stored. */
    method GenerateCode<T>(ctx: CodeGenContext, portValue: (Node, string) -> T, formatUv: T -> string)
      returns (r: Outcome<Exception>)
      modifies ctx
      ensures var g := SampleGeneration(textureVarName, samplerVarName, self, uvConnection, portValue, formatUv);
        ctx.instructionSet == old(ctx.instructionSet) + g.appended && r == g.outcome
    {
      var uvVar := ResolveTypedInput(UvPort(self, uvConnection), ClrFloat2, ctx, portValue, UvFallback(formatUv));
      if uvVar.Failure? {
        return Fail(uvVar.error);
      }
      var outputVar := GetOutputVariableName(Endpoint(self, "Result"));
      ctx.AddInstruction(Instruction(VariableDeclaration(Float4, outputVar),
                                     Some(FunctionCall(textureVarName + ".SampleLevel",
                                                       [Variable(samplerVarName), Variable(uvVar.value), Constant("0")], Option.None))));
      r := Pass;
    }
  }
}

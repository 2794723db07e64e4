/**
 * The BuiltInData node (Editor/Models/Nodes/BuiltInData.cs): one output port carrying a built-in
 * kernel variable chosen by the node's "Variable" option.
 */
module BuiltInData {
  import opened Outcomes
  import opened IR
  import opened Contexts
  import opened CodeGenUtility
  import opened NodeCodeGen
  import opened CompilerText

  /** The CLR type OnDefinePorts gives the output port for each option; any other value is float. */
  function PortClrType(v: BuiltInVariable): ClrType {
    match v
    case DispatchThreadID => ClrUInt3
    case GroupID => ClrUInt3
    case GroupThreadID => ClrUInt3
    case GroupIndex => ClrUInt
    case PixelCoordinate => ClrUInt2
    case UV => ClrFloat2
    case Undefined => ClrFloat
  }

  /** The type GenerateCode declares the output variable with; any other value is Float. */
  function VariableType(v: BuiltInVariable): ShaderVariableType {
    match v
    case DispatchThreadID => UInt3
    case GroupID => UInt3
    case GroupIndex => UInt
    case GroupThreadID => UInt3
    case PixelCoordinate => UInt2
    case UV => Float2
    case Undefined => Float
  }

  /** The two switches agree: the declared variable has the shader type of the port's data type, for every option. */
  lemma VariableTypeMatchesPort(v: BuiltInVariable)
    ensures ClrToShaderType(PortClrType(v)) == Some(VariableType(v))
  {
  }

  /** The node's output port. */
  function OutputPort(self: Node): Endpoint {
    Endpoint(self, "Output")
  }

  /** BuiltInData.GenerateCode as a value: an out-of-range option throws before anything is appended. */
  function BuiltInGeneration(v: BuiltInVariable, self: Node): Generated {
    match GetBuiltInVariableName(v)
    case Failure(e) => Generated([], Fail(e))
    case Success(name) =>
      Generated([Instruction(VariableDeclaration(VariableType(v), GetUniqueVariableName(OutputPort(self))), Some(Constant(name)))], Pass)
  }

  /**
   * The node throws exactly on an out-of-range option; otherwise it declares its output port's
   * variable with the port's type, set to a built-in that every kernel of the corrected compiler
   * has in scope (as written, GroupID and GroupThreadID are not: finding 1).
   */
  lemma BuiltInGenerationFacts(v: BuiltInVariable, self: Node)
    ensures var g := BuiltInGeneration(v, self);
      && (g.outcome.Fail? <==> v == Undefined)
      && (g.outcome.Fail? ==> g == Generated([], Fail(ArgumentOutOfRangeException)))
      && (g.outcome.Pass? ==>
            && |g.appended| == 1
            && g.appended[0].result.name == GetUniqueVariableName(OutputPort(self))
            && Some(g.appended[0].result.shaderType) == ClrToShaderType(PortClrType(v))
            && g.appended[0].expression.Some? && g.appended[0].expression.value.Constant?
            && var name := g.appended[0].expression.value.name;
               name in KernelParameterNames() || Declares(BuiltInPrelude, name))
  {
    if v != Undefined {
      EveryBuiltInInScope(v);
    }
  }

  /** BuiltInData.GenerateCode: the declaration of the output variable, set to the built-in's name. */
  method GenerateCode(v: BuiltInVariable, self: Node, ctx: CodeGenContext) returns (r: Outcome<Exception>)
    modifies ctx
    ensures var g := BuiltInGeneration(v, self);
      ctx.instructionSet == old(ctx.instructionSet) + g.appended && r == g.outcome
  {
    var variableType := VariableType(v);
    var name := GetBuiltInVariableName(v);
    if name.Failure? {
      return Fail(name.error);
    }
    ctx.AddInstruction(Instruction(VariableDeclaration(variableType, GetUniqueVariableName(OutputPort(self))), Some(Constant(name.value))));
    r := Pass;
  }
}

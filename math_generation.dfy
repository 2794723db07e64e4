/**
 * MathOperatorNode.GenerateCode (Editor/Models/Nodes/Math/MathOperatorNode.cs): the instructions a
 * math or condition node appends, and what they declare and read.
 */
module MathGeneration {
  import opened Outcomes
  import opened IR
  import opened Contexts
  import opened CodeGenUtility
  import opened NodeCodeGen
  import opened MultiDimension
  import opened MathNodes

  /**
   * The type GenerateCode declares the result variable with, as written: the node's value type,
   * also for Compare, whose output port is declared bool.
   */
  function ResultTypeAsWritten(op: MathOperator, dimension: bv32): ShaderVariableType {
    ToShaderVariableType(dimension)
  }

  /** The type the result variable is declared with in this model: the output port's own type. */
  function ResultType(op: MathOperator, dimension: bv32): (r: ShaderVariableType)
    ensures r == OutputDeclarations(op, ToShaderVariableType(dimension))[0].valueType
  {
    ReturnType(op, ToShaderVariableType(dimension))
  }

  /** As written, a Compare node's bool output port is backed by a float4 variable at the default dimension. */
  lemma CompareResultTypeAsWritten()
    ensures ResultTypeAsWritten(Compare(Equal), DefaultDimension) == Float4
    ensures OutputDeclarations(Compare(Equal), ToShaderVariableType(DefaultDimension))[0].valueType == Bool
  {
  }

  /** Only Compare is affected: for every other node both declare the value type. */
  lemma ResultTypeAgreesOffCompare(op: MathOperator, dimension: bv32)
    requires !op.Compare?
    ensures ResultType(op, dimension) == ResultTypeAsWritten(op, dimension)
  {
  }

  /** The instruction a math node appends once its inputs are resolved: its output variable set to its expression. */
  function ResultInstruction(op: MathOperator, dimension: bv32, self: Node, inputs: seq<string>): (r: Result<Instruction, Exception>)
    requires |inputs| == Arity(op)
    ensures r.Success? ==> r.value.expression.Some?
  {
    match BuildExpression(op, inputs)
    case Failure(e) => Failure(e)
    case Success(expression) =>
      Success(Instruction(VariableDeclaration(ResultType(op, dimension), GetOutputVariableName(OutputPortOf(self, 0))), Some(expression)))
  }

  /**
   * The rest of GenerateCode once the inputs are resolved (res): an input's exception is passed on,
   * otherwise the result instruction is appended unless BuildExpression throws.
   */
  function Finish(op: MathOperator, dimension: bv32, self: Node, res: Resolution): (g: Generated)
    requires res.error.None? ==> |res.names| == Arity(op)
    ensures g.outcome.Pass? ==> |g.appended| > 0 && g.appended[|g.appended| - 1].expression.Some?
  {
    if res.error.Some? then Generated(res.appended, Fail(res.error.value))
    else
      match ResultInstruction(op, dimension, self, res.names)
      case Failure(e) => Generated(res.appended, Fail(e))
      case Success(instruction) => Generated(res.appended + [instruction], Pass)
  }

  /** MathOperatorNode.GenerateCode as a value: the input ports resolved in order with their declared types, then Finish. */
  function Generation<T>(op: MathOperator, dimension: bv32, self: Node, connections: seq<Option<Endpoint>>,
                         portValue: (Node, string) -> T,
                         toConstant: (T, ShaderVariableType) -> Result<Expression, Exception>): Generated
    requires |connections| == Arity(op)
  {
    Finish(op, dimension, self, ResolveAll(InputPortsOf(self, connections), InputTypes(op, ToShaderVariableType(dimension)),
                                          portValue, toConstant))
  }

  /**
   * A math node throws exactly when one of its inputs throws, passing that exception on, or when
   * Compare's option is out of range; either way the inputs' instructions stay appended.
   */
  lemma FinishFails(op: MathOperator, dimension: bv32, self: Node, res: Resolution)
    requires res.error.None? ==> |res.names| == Arity(op)
    ensures var g := Finish(op, dimension, self, res);
      && (g.outcome.Fail? <==> res.error.Some? || op == Compare(ComparisonType.Undefined))
      && (res.error.Some? ==> g == Generated(res.appended, Fail(res.error.value)))
      && (res.error.None? && g.outcome.Fail? ==> g == Generated(res.appended, Fail(ArgumentOutOfRangeException)))
  {
  }

  /**
   * What a math node contributes when it does not throw: the inputs' instructions, then its result,
   * declared as its output port's variable with the output port's type and computed by the HLSL its
   * kind stands for.
   */
  lemma FinishDeclaresOutput(op: MathOperator, dimension: bv32, self: Node, res: Resolution)
    requires res.error.None? ==> |res.names| == Arity(op)
    requires Finish(op, dimension, self, res).outcome.Pass?
    ensures var g := Finish(op, dimension, self, res);
      var last := g.appended[|g.appended| - 1];
      && res.error.None?
      && g.appended[..|g.appended| - 1] == res.appended
      && last.result == VariableDeclaration(OutputDeclarations(op, ToShaderVariableType(dimension))[0].valueType,
                                            GetUniqueVariableName(OutputPortOf(self, 0)))
      && last.expression.value.Emit(0) == FormText(FormOf(op).value, res.names)
  {
    var instruction := ResultInstruction(op, dimension, self, res.names);
    assert Finish(op, dimension, self, res) == Generated(res.appended + [instruction.value], Pass);
    BuildExpressionText(op, res.names);
  }

  /** When a math node does not throw, what its inputs appended comes first, then exactly one instruction. */
  lemma FinishKeepsInputs(op: MathOperator, dimension: bv32, self: Node, res: Resolution)
    requires res.error.None? ==> |res.names| == Arity(op)
    requires Finish(op, dimension, self, res).outcome.Pass?
    ensures var g := Finish(op, dimension, self, res);
      res.error.None? && g.appended[..|g.appended| - 1] == res.appended && |g.appended| == |res.appended| + 1
  {
    var instruction := ResultInstruction(op, dimension, self, res.names);
    assert Finish(op, dimension, self, res) == Generated(res.appended + [instruction.value], Pass);
  }

  /** The result's expression reads only the resolved input names. */
  lemma FinishReadsInputs(op: MathOperator, dimension: bv32, self: Node, res: Resolution, supplied: set<string>, keys: set<string>)
    requires res.error.None? ==> |res.names| == Arity(op)
    requires Finish(op, dimension, self, res).outcome.Pass?
    requires forall i :: 0 <= i < |res.names| ==> res.names[i] in supplied
    requires keys !! supplied
    ensures var g := Finish(op, dimension, self, res);
      !g.appended[|g.appended| - 1].expression.value.MentionsKey(keys)
  {
    var instruction := ResultInstruction(op, dimension, self, res.names);
    assert Finish(op, dimension, self, res) == Generated(res.appended + [instruction.value], Pass);
    BuildExpressionMentions(op, res.names, keys);
  }

  /**
   * Declare before use: the result's expression reads no variable other than those the connected
   * upstream nodes supply and those the node's own inputs declared before it.
   */
  lemma GenerationReadsDeclared<T>(op: MathOperator, dimension: bv32, self: Node, connections: seq<Option<Endpoint>>,
                                   portValue: (Node, string) -> T,
                                   toConstant: (T, ShaderVariableType) -> Result<Expression, Exception>, keys: set<string>)
    requires |connections| == Arity(op)
    requires Generation(op, dimension, self, connections, portValue, toConstant).outcome.Pass?
    requires var g := Generation(op, dimension, self, connections, portValue, toConstant);
      keys !! ConnectedNames(InputPortsOf(self, connections)) + DeclaredNames(g.appended[..|g.appended| - 1])
    ensures var g := Generation(op, dimension, self, connections, portValue, toConstant);
      !g.appended[|g.appended| - 1].expression.value.MentionsKey(keys)
  {
    var ports := InputPortsOf(self, connections);
    var types := InputTypes(op, ToShaderVariableType(dimension));
    var res := ResolveAll(ports, types, portValue, toConstant);
    FinishKeepsInputs(op, dimension, self, res);
    ResolvedNamesSupplied(ports, types, portValue, toConstant);
    assert forall i :: 0 <= i < |res.names| ==> res.names[i] in ConnectedNames(ports) + DeclaredNames(res.appended);
    FinishReadsInputs(op, dimension, self, res, ConnectedNames(ports) + DeclaredNames(res.appended), keys);
  }

  /** MathOperatorNode.GenerateCode: resolves every input, then appends the result instruction. */
  method GenerateCode<T>(op: MathOperator, dimension: bv32, self: Node, connections: seq<Option<Endpoint>>,
                         ctx: CodeGenContext, portValue: (Node, string) -> T,
                         toConstant: (T, ShaderVariableType) -> Result<Expression, Exception>)
    returns (r: Outcome<Exception>)
    requires |connections| == Arity(op)
    modifies ctx
    ensures var g := Generation(op, dimension, self, connections, portValue, toConstant);
      ctx.instructionSet == old(ctx.instructionSet) + g.appended && r == g.outcome
  {
    var ports := InputPortsOf(self, connections);
    var types := InputTypes(op, ToShaderVariableType(dimension));
    ghost var res := ResolveAll(ports, types, portValue, toConstant);
    assert Generation(op, dimension, self, connections, portValue, toConstant) == Finish(op, dimension, self, res);
    var inputVars := ResolveInputs(ports, types, ctx, portValue, toConstant);
    if inputVars.Failure? {
      return Fail(inputVars.error);
    }
    var instruction := ResultInstruction(op, dimension, self, inputVars.value);
    if instruction.Failure? {
      return Fail(instruction.error);
    }
    ctx.AddInstruction(instruction.value);
    r := Pass;
  }
}

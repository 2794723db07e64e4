/**
 * The channel nodes (Editor/Models/Nodes/Channel/Split.cs and Combine.cs): Split declares one float
 * per component of its input vector, Combine packs four floats into a float4.
 */
module ChannelNodes {
  import opened Outcomes
  import opened Text
  import opened IR
  import opened Contexts
  import opened CodeGenUtility
  import opened NodeCodeGen
  import opened MultiDimension
  import opened MathNodes
  import opened CompilerInlining

  // ----- Split ----------------------------------------------------------------------------------

  /** Split's one input, of the node's value type, on every dimension. */
  function SplitInputDeclarations(valueType: ShaderVariableType): seq<PortDeclaration> {
    [PortDeclaration("Input", valueType, TargetDefault)]
  }

  /** Split's outputs, all float: R on every dimension, G from Float2 up, B from Float3 up, A on Float4. */
  const SplitOutputDeclarations: seq<PortDeclaration> := [
    PortDeclaration("R", Float, TargetDefault),
    PortDeclaration("G", Float, TargetFloat2 | TargetFloat3 | TargetFloat4),
    PortDeclaration("B", Float, TargetFloat3 | TargetFloat4),
    PortDeclaration("A", Float, TargetFloat4)]

  /** Split's admitted outputs: R, then each of G, B and A whose flags fit the dimension. */
  lemma SplitOutputsAdmitted(d: bv32)
    ensures var decls := SplitOutputDeclarations;
      Admitted(decls, d) == [decls[0]]
        + (if HasDimensionFlag(decls[1].targetDimension, d) then [decls[1]] else [])
        + (if HasDimensionFlag(decls[2].targetDimension, d) then [decls[2]] else [])
        + (if HasDimensionFlag(decls[3].targetDimension, d) then [decls[3]] else [])
  {
    var decls := SplitOutputDeclarations;
    assert decls[3..][1..] == [] && decls[2..][1..] == decls[3..] && decls[1..][1..] == decls[2..];
    var a := Admitted(decls[3..], d);
    assert a == (if HasDimensionFlag(decls[3].targetDimension, d) then [decls[3]] else []) + [];
    var b := Admitted(decls[2..], d);
    assert b == (if HasDimensionFlag(decls[2].targetDimension, d) then [decls[2]] else []) + a;
    var g := Admitted(decls[1..], d);
    assert g == (if HasDimensionFlag(decls[1].targetDimension, d) then [decls[1]] else []) + b;
    assert Admitted(decls, d) == [decls[0]] + g;
  }

  /** On a named dimension Split's output ports are the first ComponentCount declarations, R first. */
  lemma SplitOutputsPerComponent(d: bv32)
    requires IsNamedDimension(d)
    ensures Admitted(SplitOutputDeclarations, d) == SplitOutputDeclarations[..ComponentCount(d)]
  {
    var decls := SplitOutputDeclarations;
    SplitOutputsAdmitted(d);
    if d == DimensionFloat {
      assert !HasDimensionFlag(decls[1].targetDimension, d) && !HasDimensionFlag(decls[2].targetDimension, d);
      assert !HasDimensionFlag(decls[3].targetDimension, d);
      assert decls[..1] == [decls[0]];
    } else if d == DimensionFloat2 {
      assert HasDimensionFlag(decls[1].targetDimension, d) && !HasDimensionFlag(decls[2].targetDimension, d);
      assert !HasDimensionFlag(decls[3].targetDimension, d);
      assert decls[..2] == [decls[0]] + [decls[1]];
    } else if d == DimensionFloat3 {
      assert HasDimensionFlag(decls[1].targetDimension, d) && HasDimensionFlag(decls[2].targetDimension, d);
      assert !HasDimensionFlag(decls[3].targetDimension, d);
      assert decls[..3] == [decls[0]] + [decls[1]] + [decls[2]];
    } else {
      assert HasDimensionFlag(decls[1].targetDimension, d) && HasDimensionFlag(decls[2].targetDimension, d);
      assert HasDimensionFlag(decls[3].targetDimension, d);
      assert decls[..4] == [decls[0]] + [decls[1]] + [decls[2]] + [decls[3]];
    }
  }

  /** Split's input port, port 0, with the port connected to it if any. */
  function SplitInputPort(self: Node, connection: Option<Endpoint>): Port {
    Port(Endpoint(self, NatToString(0)), connection)
  }

  /** The HLSL text of component i of a vector variable. */
  function Component(vector: string, i: nat): string {
    vector + "[" + NatToString(i) + "]"
  }

  /** The instruction for Split's output i: a float named after output port i, set to component i of the input. */
  function ComponentInstruction(self: Node, inputVar: string, i: nat): Instruction {
    Instruction(VariableDeclaration(Float, GetOutputVariableName(OutputPortOf(self, i))), Some(Constant(Component(inputVar, i))))
  }

  /** The instructions for Split's first n outputs, in order. */
  function ComponentInstructions(self: Node, inputVar: string, n: nat): (r: seq<Instruction>)
    ensures |r| == n
  {
    seq(n, i requires 0 <= i < n => ComponentInstruction(self, inputVar, i))
  }

  /** One more output: its instruction follows those of the outputs before it. */
  lemma ComponentInstructionsSnoc(self: Node, inputVar: string, n: nat)
    ensures ComponentInstructions(self, inputVar, n + 1)
            == ComponentInstructions(self, inputVar, n) + [ComponentInstruction(self, inputVar, n)]
  {
    var longer := ComponentInstructions(self, inputVar, n + 1);
    var shorter := ComponentInstructions(self, inputVar, n) + [ComponentInstruction(self, inputVar, n)];
    forall i | 0 <= i < n + 1
      ensures longer[i] == shorter[i]
    {
      if i < n {
        assert shorter[i] == ComponentInstructions(self, inputVar, n)[i];
      }
    }
  }

  /** How many outputs Split writes: ComponentCount, cut short when fewer output ports are defined. */
  function SplitCount(dimension: bv32, outputPortCount: nat): nat {
    if ComponentCount(dimension) <= outputPortCount then ComponentCount(dimension) else outputPortCount
  }

  /** Split.GenerateCode as a value: the input resolved with the node's value type, then one instruction per component. */
  function SplitGeneration<T>(dimension: bv32, outputPortCount: nat, self: Node, connection: Option<Endpoint>,
                              portValue: (Node, string) -> T,
                              toConstant: (T, ShaderVariableType) -> Result<Expression, Exception>): Generated
  {
    match ResolveUntyped(SplitInputPort(self, connection), ToShaderVariableType(dimension), portValue, toConstant)
    case Failure(e) => Generated([], Fail(e))
    case Success(input) =>
      Generated(input.appended + ComponentInstructions(self, input.name, SplitCount(dimension, outputPortCount)), Pass)
  }

  /**
   * On a named dimension the component instructions declare Split's output ports, one per
   * component, in port order, each as a variable of the port's own type.
   */
  lemma ComponentsDeclareOutputPorts(dimension: bv32, self: Node, inputVar: string)
    requires IsNamedDimension(dimension)
    ensures var ports := PortDefinitions(Admitted(SplitOutputDeclarations, dimension));
      && |ports| == ComponentCount(dimension)
      && var instrs := ComponentInstructions(self, inputVar, SplitCount(dimension, |ports|));
      && |instrs| == |ports|
      && forall i :: 0 <= i < |ports| ==>
           && instrs[i].result == VariableDeclaration(ports[i].dataType, GetUniqueVariableName(Endpoint(self, ports[i].name)))
           && instrs[i].expression == Some(Constant(Component(inputVar, i)))
  {
    SplitOutputsPerComponent(dimension);
  }

  /**
   * With the ports a named dimension defines, Split throws only when its input does, and otherwise
   * appends what the input appended, then the component instructions for every output port.
   */
  lemma SplitDeclaresEveryOutput<T>(dimension: bv32, self: Node, connection: Option<Endpoint>,
                                    portValue: (Node, string) -> T,
                                    toConstant: (T, ShaderVariableType) -> Result<Expression, Exception>)
    requires IsNamedDimension(dimension)
    ensures var count := |PortDefinitions(Admitted(SplitOutputDeclarations, dimension))|;
      var g := SplitGeneration(dimension, count, self, connection, portValue, toConstant);
      var input := ResolveUntyped(SplitInputPort(self, connection), ToShaderVariableType(dimension), portValue, toConstant);
      && (g.outcome.Fail? <==> input.Failure?)
      && (input.Failure? ==> g.appended == [])
      && (input.Success? ==>
            g.appended == input.value.appended + ComponentInstructions(self, input.value.name, ComponentCount(dimension)))
  {
    SplitOutputsPerComponent(dimension);
  }

  /** Split's outputs are distinct variables: no two of its instructions declare the same name. */
  lemma SplitOutputsDistinct(self: Node, inputVar: string, n: nat, i: nat, j: nat)
    requires i < j < n
    ensures ComponentInstructions(self, inputVar, n)[i].result.name != ComponentInstructions(self, inputVar, n)[j].result.name
  {
    if NatToString(i) == NatToString(j) {
      NatToStringInjective(i, j);
    }
    UniqueNamesOfOneNode(OutputPortOf(self, i), OutputPortOf(self, j));
  }

  /**
   * Every component instruction declares a typed, named float set to a constant, so the compiler's
   * first pass records each of Split's outputs among the constants it inlines.
   */
  lemma ComponentsAreInlined(self: Node, inputVar: string, n: nat, i: nat)
    requires i < n
    ensures IsConstantDefinition(ComponentInstructions(self, inputVar, n)[i])
    ensures GetUniqueVariableName(OutputPortOf(self, i)) in ConstantTable(ComponentInstructions(self, inputVar, n))
  {
    var instrs := ComponentInstructions(self, inputVar, n);
    assert instrs[i] == ComponentInstruction(self, inputVar, i);
    assert instrs[i].result.name == GetUniqueVariableName(OutputPortOf(self, i));
  }

  /**
   * Split.GenerateCode: resolves the input, then appends the component declarations.
   */
  method SplitGenerateCode<T>(node: MultiDimensionNode, self: Node, connection: Option<Endpoint>, ctx: CodeGenContext,
                              portValue: (Node, string) -> T,
                              toConstant: (T, ShaderVariableType) -> Result<Expression, Exception>)
    returns (r: Outcome<Exception>)
    modifies ctx
    ensures var g := SplitGeneration(node.dimension, node.outputPorts.Length, self, connection, portValue, toConstant);
      ctx.instructionSet == old(ctx.instructionSet) + g.appended && r == g.outcome
  {
    var port := SplitInputPort(self, connection);
    ghost var g := SplitGeneration(node.dimension, node.outputPorts.Length, self, connection, portValue, toConstant);
    ghost var input := ResolveUntyped(port, ToShaderVariableType(node.dimension), portValue, toConstant);
    var inputVar := ResolveUntypedInput(port, ToShaderVariableType(node.dimension), ctx, portValue, toConstant);
    if inputVar.Failure? {
      assert g == Generated([], Fail(inputVar.error));
      assert ctx.instructionSet == old(ctx.instructionSet) + [];
      return Fail(inputVar.error);
    }
    ghost var components := ComponentInstructions(self, inputVar.value, SplitCount(node.dimension, node.outputPorts.Length));
    assert g == Generated(input.value.appended + components, Pass);
    AppendComponents(node.dimension, node.outputPorts.Length, self, inputVar.value, ctx);
    assert ctx.instructionSet == old(ctx.instructionSet) + input.value.appended + components;
    r := Pass;
  }

  /**
   * The loop of Split.GenerateCode: for each component, while the node has that many output ports,
   * the component's declaration is appended.
   */
  method AppendComponents(dimension: bv32, outputPortCount: nat, self: Node, inputVar: string, ctx: CodeGenContext)
    modifies ctx
    ensures ctx.instructionSet == old(ctx.instructionSet) + ComponentInstructions(self, inputVar, SplitCount(dimension, outputPortCount))
  {
    var i := 0;
    while i < ComponentCount(dimension)
      invariant i <= SplitCount(dimension, outputPortCount)
      invariant ctx.instructionSet == old(ctx.instructionSet) + ComponentInstructions(self, inputVar, i)
    {
      if i >= outputPortCount {
        break;
      }
      var outputVar := GetOutputVariableName(OutputPortOf(self, i));
      ctx.AddInstruction(Instruction(VariableDeclaration(Float, outputVar), Some(Constant(Component(inputVar, i)))));
      ComponentInstructionsSnoc(self, inputVar, i);
      i := i + 1;
    }
  }

  // ----- Combine --------------------------------------------------------------------------------

  /** Combine's four float inputs R, G, B and A, each with the port connected to it if any. */
  function CombineInputPorts(self: Node, connections: seq<Option<Endpoint>>): (r: seq<Port>)
    requires |connections| == 4
    ensures |r| == 4
  {
    [Port(Endpoint(self, "R"), connections[0]), Port(Endpoint(self, "G"), connections[1]),
     Port(Endpoint(self, "B"), connections[2]), Port(Endpoint(self, "A"), connections[3])]
  }

  /** The declared type of every Combine input. */
  const CombineInputTypes: seq<ShaderVariableType> := [Float, Float, Float, Float]

  /** Every Combine input is declared a float, the shader type of the CLR type it is read as. */
  lemma CombineInputsAreFloat()
    ensures |CombineInputTypes| == 4
    ensures forall i :: 0 <= i < |CombineInputTypes| ==> CombineInputTypes[i] == ClrToShaderType(ClrFloat).value
  {
  }

  /** Combine's float4 output port. */
  function CombineOutputPort(self: Node): Endpoint {
    Endpoint(self, "Result")
  }

  /** Combine's fallback: the input's float value written as an HLSL constant by formatFloat. */
  function FloatFallback<T>(formatFloat: T -> string): T -> Result<Expression, Exception> {
    v => Success(Constant(formatFloat(v)))
  }

  /** The float4 constructor over the four resolved names, declared as the output port's variable. */
  function CombineInstruction(self: Node, names: seq<string>): Instruction {
    Instruction(VariableDeclaration(Float4, GetUniqueVariableName(CombineOutputPort(self))), Some(Call("float4", names)))
  }

  /** The rest of Combine.GenerateCode once the inputs are resolved. */
  function CombineFinish(self: Node, res: Resolution): Generated {
    if res.error.Some? then Generated(res.appended, Fail(res.error.value))
    else Generated(res.appended + [CombineInstruction(self, res.names)], Pass)
  }

  /** Combine.GenerateCode as a value. */
  function CombineGeneration<T>(self: Node, connections: seq<Option<Endpoint>>, portValue: (Node, string) -> T,
                                formatFloat: T -> string): Generated
    requires |connections| == 4
  {
    CombineFinish(self, ResolveAll(CombineInputPorts(self, connections), CombineInputTypes, portValue, IgnoringType(FloatFallback(formatFloat))))
  }

  /**
   * Combine throws only when an input does; otherwise its last instruction declares the float4
   * output variable as float4(r, g, b, a) over the four resolved names, reading nothing else.
   */
  lemma CombineDeclaresOutput(self: Node, res: Resolution, keys: set<string>)
    requires res.error.None? ==> |res.names| == 4
    ensures var g := CombineFinish(self, res);
      && (g.outcome.Fail? <==> res.error.Some?)
      && (g.outcome.Pass? ==>
            var last := g.appended[|g.appended| - 1];
            && g.appended[..|g.appended| - 1] == res.appended
            && last.result == VariableDeclaration(Float4, GetUniqueVariableName(CombineOutputPort(self)))
            && last.expression.value.Emit(0) == Applied("float4", Join(", ", res.names))
            && (last.expression.value.MentionsKey(keys) <==> exists i :: 0 <= i < 4 && res.names[i] in keys))
  {
    if res.error.None? {
      var g := CombineFinish(self, res);
      assert g.appended[..|g.appended| - 1] == res.appended;
      CallText("float4", res.names);
      CallMentions("float4", res.names, keys);
    }
  }

  /**
   * Declare before use: Combine's float4 reads no variable other than those connected nodes supply
   * and those its own inputs declared before it.
   */
  lemma CombineReadsDeclared<T>(self: Node, connections: seq<Option<Endpoint>>, portValue: (Node, string) -> T,
                                formatFloat: T -> string, keys: set<string>)
    requires |connections| == 4
    requires CombineGeneration(self, connections, portValue, formatFloat).outcome.Pass?
    requires var res := ResolveAll(CombineInputPorts(self, connections), CombineInputTypes, portValue, IgnoringType(FloatFallback(formatFloat)));
      keys !! ConnectedNames(CombineInputPorts(self, connections)) + DeclaredNames(res.appended)
    ensures var g := CombineGeneration(self, connections, portValue, formatFloat);
      !g.appended[|g.appended| - 1].expression.value.MentionsKey(keys)
  {
    var ports := CombineInputPorts(self, connections);
    var res := ResolveAll(ports, CombineInputTypes, portValue, IgnoringType(FloatFallback(formatFloat)));
    ResolvedNamesSupplied(ports, CombineInputTypes, portValue, IgnoringType(FloatFallback(formatFloat)));
    CombineDeclaresOutput(self, res, keys);
    assert forall i :: 0 <= i < 4 ==> res.names[i] in ConnectedNames(ports) + DeclaredNames(res.appended);
  }

  /**
   * Combine.GenerateCode: R, G, B and A resolved with the typed overload for float, in that order,
   * then the float4 declaration appended.
   */
  method CombineGenerateCode<T>(self: Node, connections: seq<Option<Endpoint>>, ctx: CodeGenContext,
                                portValue: (Node, string) -> T, formatFloat: T -> string)
    returns (r: Outcome<Exception>)
    requires |connections| == 4
    modifies ctx
    ensures var g := CombineGeneration(self, connections, portValue, formatFloat);
      ctx.instructionSet == old(ctx.instructionSet) + g.appended && r == g.outcome
  {
    CombineInputsAreFloat();
    var names := ResolveTypedInputs(CombineInputPorts(self, connections), CombineInputTypes, ClrFloat, ctx,
                                    portValue, FloatFallback(formatFloat));
    if names.Failure? {
      return Fail(names.error);
    }
    ctx.AddInstruction(CombineInstruction(self, names.value));
    r := Pass;
  }
}

/**
 * Variable naming and input resolution for node code generation (Editor/CodeGen/CodeGenUtility.cs).
 * A graph node is seen through the attributes the code inspects: its class name, its hash code and
 * which interfaces it implements.
 */
module CodeGenUtility {
  import opened Outcomes
  import opened Numerics
  import opened Text
  import opened IR
  import opened Contexts

  datatype Node = Node(typeName: string, hashCode: int32, isConstantOrVariable: bool, isDataNode: bool)

  /** A port of a node, identified by the node and the port name. */
  datatype Endpoint = Endpoint(node: Node, name: string)

  /** An input port together with the first port connected to it, if any. */
  datatype Port = Port(self: Endpoint, firstConnectedPort: Option<Endpoint>)

  /** The node's hash code reinterpreted as a uint. */
  function GetNodeID(node: Node): (r: uint32)
    ensures r % TWO_TO_THE_32 == node.hashCode % TWO_TO_THE_32
  {
    AsUInt32(node.hashCode)
  }

  /** "<node class>_<node id>_<port name>". */
  function GetUniqueVariableName(port: Endpoint): (r: string)
    ensures |r| > |port.name| && r[|r| - |port.name|..] == port.name && r[|r| - |port.name| - 1] == '_'
  {
    port.node.typeName + "_" + NatToString(GetNodeID(port.node)) + "_" + port.name
  }

  /** Two ports of one node with different names get different variable names. */
  lemma UniqueNamesOfOneNode(a: Endpoint, b: Endpoint)
    requires a.node == b.node && a.name != b.name
    ensures GetUniqueVariableName(a) != GetUniqueVariableName(b)
  {
    var prefix := a.node.typeName + "_" + NatToString(GetNodeID(a.node)) + "_";
    assert GetUniqueVariableName(a) == prefix + a.name;
    assert GetUniqueVariableName(b) == prefix + b.name;
    assert (prefix + a.name)[|prefix|..] == a.name;
    assert (prefix + b.name)[|prefix|..] == b.name;
  }

  /**
   * When class names contain no underscore, the variable name determines the node class, the
   * node id and the port name.
   */
  lemma {:induction false} UniqueVariableNameInjective(a: Endpoint, b: Endpoint)
    requires '_' !in a.node.typeName && '_' !in b.node.typeName
    requires GetUniqueVariableName(a) == GetUniqueVariableName(b)
    ensures a.node.typeName == b.node.typeName
    ensures GetNodeID(a.node) == GetNodeID(b.node)
    ensures a.name == b.name
  {
    UniqueNameSplit(a);
    UniqueNameSplit(b);
    var da, db := NatToString(GetNodeID(a.node)), NatToString(GetNodeID(b.node));
    FirstSeparator(a.node.typeName, da + "_" + a.name, b.node.typeName, db + "_" + b.name);
    assert '_' !in da && '_' !in db;
    FirstSeparator(da, a.name, db, b.name);
    NatToStringInjective(GetNodeID(a.node), GetNodeID(b.node));
  }

  /** The variable name read as the class name, a separator, and the rest. */
  lemma UniqueNameSplit(p: Endpoint)
    ensures GetUniqueVariableName(p) == p.node.typeName + "_" + (NatToString(GetNodeID(p.node)) + "_" + p.name)
  {
  }

  lemma FirstSeparator(x: string, xs: string, y: string, ys: string)
    requires '_' !in x && '_' !in y && x + "_" + xs == y + "_" + ys
    ensures x == y && xs == ys
  {
    var s := x + "_" + xs;
    assert s == y + "_" + ys;
    assert s[|x|] == '_' && s[|y|] == '_';
    assert forall i :: 0 <= i < |x| ==> s[i] == x[i] != '_';
    assert forall i :: 0 <= i < |y| ==> s[i] == y[i] != '_';
    assert x == s[..|x|] == y;
    assert xs == s[|x| + 1..] == ys;
  }

  /** Where an input port's value comes from. */
  datatype InputSource =
    | FromFallback(at: Endpoint)   // the fallback runs on this port
    | FromConnectedNode(name: string)   // the connected node's own output variable

  /**
   * The untyped GetInputVariableName(port, fallback) dispatch: an unconnected port, or one connected
   * to a constant or variable node, goes to the fallback; otherwise the connected port's variable is used.
   */
  function ResolveInput(port: Port): (r: InputSource)
    ensures port.firstConnectedPort.None? ==> r == FromFallback(port.self)
    ensures port.firstConnectedPort.Some? && port.firstConnectedPort.value.node.isConstantOrVariable ==>
      r == FromFallback(port.firstConnectedPort.value)
    ensures port.firstConnectedPort.Some? && !port.firstConnectedPort.value.node.isConstantOrVariable ==>
      r == FromConnectedNode(GetUniqueVariableName(port.firstConnectedPort.value))
  {
    match port.firstConnectedPort
    case None => FromFallback(port.self)
    case Some(connected) =>
      if connected.node.isConstantOrVariable then FromFallback(connected)
      else FromConnectedNode(GetUniqueVariableName(connected))
  }

  /** GetInputVariableName(port, fallback): the fallback is consulted only when ResolveInput says so. */
  function GetInputVariableName(port: Port, fallback: Endpoint -> string): (r: string)
    ensures ResolveInput(port).FromFallback? ==> r == fallback(ResolveInput(port).at)
    ensures ResolveInput(port).FromConnectedNode? ==> r == ResolveInput(port).name
  {
    match ResolveInput(port)
    case FromFallback(at) => fallback(at)
    case FromConnectedNode(name) => name
  }

  /** The C# value types the typed overload can be instantiated with. */
  datatype ClrType =
    | ClrFloat | ClrFloat2 | ClrFloat3 | ClrFloat4
    | ClrInt | ClrInt2 | ClrInt3 | ClrInt4
    | ClrUInt | ClrUInt2 | ClrUInt3 | ClrUInt4
    | ClrBool | ClrOther

  /** The Unity.Mathematics spelling of the numeric types. */
  function ClrName(t: ClrType): string {
    match t
    case ClrFloat => "float"
    case ClrFloat2 => "float2"
    case ClrFloat3 => "float3"
    case ClrFloat4 => "float4"
    case ClrInt => "int"
    case ClrInt2 => "int2"
    case ClrInt3 => "int3"
    case ClrInt4 => "int4"
    case ClrUInt => "uint"
    case ClrUInt2 => "uint2"
    case ClrUInt3 => "uint3"
    case ClrUInt4 => "uint4"
    case ClrBool => "bool"
    case ClrOther => ""
  }

  /** The shader type of typeof(T): the twelve numeric vector types map to the HLSL type of the same name; bool and anything else have none. */
  function ClrToShaderType(t: ClrType): (r: Option<ShaderVariableType>)
    ensures r.None? <==> t == ClrBool || t == ClrOther
    ensures r.Some? ==> ToHLSLString(r.value) == ClrName(t)
  {
    match t
    case ClrFloat => Some(Float)
    case ClrFloat2 => Some(Float2)
    case ClrFloat3 => Some(Float3)
    case ClrFloat4 => Some(Float4)
    case ClrInt => Some(Int)
    case ClrInt2 => Some(Int2)
    case ClrInt3 => Some(Int3)
    case ClrInt4 => Some(Int4)
    case ClrUInt => Some(UInt)
    case ClrUInt2 => Some(UInt2)
    case ClrUInt3 => Some(UInt3)
    case ClrUInt4 => Some(UInt4)
    case _ => Option.None
  }

  /**
   * The typed GetInputVariableName<T>(port, ctx, fallback). When the fallback path runs, the node
   * behind the port must be a data node; its value for this port's name is read (portValue), and one
   * instruction declaring the port's unique variable, of the shader type of T, is appended. There is
   * no memoisation: every call on the fallback path appends again.
   */
  method GetInputVariableNameTyped<T>(port: Port, clrType: ClrType, ctx: CodeGenContext,
                                      portValue: (Node, string) -> T,
                                      fallback: T -> Result<Expression, Exception>)
    returns (r: Result<string, Exception>)
    modifies ctx
    ensures ResolveInput(port).FromConnectedNode? ==>
      r == Success(ResolveInput(port).name) && ctx.instructionSet == old(ctx.instructionSet)
    ensures ResolveInput(port).FromFallback? ==>
      var at := ResolveInput(port).at;
      var expr := fallback(portValue(at.node, port.self.name));
      if !at.node.isDataNode || ClrToShaderType(clrType).None? then
        r == Failure(InvalidOperationException) && ctx.instructionSet == old(ctx.instructionSet)
      else if expr.Failure? then
        r == Failure(expr.error) && ctx.instructionSet == old(ctx.instructionSet)
      else
        r == Success(GetUniqueVariableName(at))
        && ctx.instructionSet == old(ctx.instructionSet)
             + [Instruction(VariableDeclaration(ClrToShaderType(clrType).value, GetUniqueVariableName(at)), Some(expr.value))]
  {
    match ResolveInput(port)
    case FromConnectedNode(name) =>
      r := Success(name);
    case FromFallback(at) =>
      if !at.node.isDataNode {
        return Failure(InvalidOperationException);
      }
      var value := portValue(at.node, port.self.name);
      var varName := GetUniqueVariableName(at);
      var shaderType := ClrToShaderType(clrType);
      if shaderType.None? {
        return Failure(InvalidOperationException);
      }
      var expr := fallback(value);
      if expr.Failure? {
        return Failure(expr.error);
      }
      ctx.AddInstruction(Instruction(VariableDeclaration(shaderType.value, varName), Some(expr.value)));
      r := Success(varName);
  }

  /**
   * The untyped GetInputVariableName(port, variableType, ctx, callback): as the typed overload, but the
   * declared type is given by the caller and never fails.
   */
  method GetInputVariableNameUntyped<T>(port: Port, variableType: ShaderVariableType, ctx: CodeGenContext,
                                        portValue: (Node, string) -> T,
                                        callback: T -> Result<Expression, Exception>)
    returns (r: Result<string, Exception>)
    modifies ctx
    ensures ResolveInput(port).FromConnectedNode? ==>
      r == Success(ResolveInput(port).name) && ctx.instructionSet == old(ctx.instructionSet)
    ensures ResolveInput(port).FromFallback? ==>
      var at := ResolveInput(port).at;
      var expr := callback(portValue(at.node, port.self.name));
      if !at.node.isDataNode then
        r == Failure(InvalidOperationException) && ctx.instructionSet == old(ctx.instructionSet)
      else if expr.Failure? then
        r == Failure(expr.error) && ctx.instructionSet == old(ctx.instructionSet)
      else
        r == Success(GetUniqueVariableName(at))
        && ctx.instructionSet == old(ctx.instructionSet)
             + [Instruction(VariableDeclaration(variableType, GetUniqueVariableName(at)), Some(expr.value))]
  {
    match ResolveInput(port)
    case FromConnectedNode(name) =>
      r := Success(name);
    case FromFallback(at) =>
      if !at.node.isDataNode {
        return Failure(InvalidOperationException);
      }
      var value := portValue(at.node, port.self.name);
      var varName := GetUniqueVariableName(at);
      var expr := callback(value);
      if expr.Failure? {
        return Failure(expr.error);
      }
      ctx.AddInstruction(Instruction(VariableDeclaration(variableType, varName), Some(expr.value)));
      r := Success(varName);
  }

  /**
   * ICodeGenContext.GetOutputVariableName: the variable a node writes its output port to. It is the
   * variable every input connected to that port reads, unless the node is a constant or variable node,
   * whose consumers go to their fallback instead.
   */
  function GetOutputVariableName(port: Endpoint): (r: string)
    ensures |r| > |port.name| && r[|r| - |port.name| - 1] == '_' && r[|r| - |port.name|..] == port.name
    ensures forall consumer: Port :: consumer.firstConnectedPort == Some(port) && !port.node.isConstantOrVariable ==>
      ResolveInput(consumer) == FromConnectedNode(r)
  {
    GetUniqueVariableName(port)
  }

  /** An input connected to a node that is neither a constant nor a variable reads the name the producer wrote. */
  lemma ConsumerReadsProducerOutput(producer: Endpoint, consumer: Port, fallback: Endpoint -> string)
    requires consumer.firstConnectedPort == Some(producer) && !producer.node.isConstantOrVariable
    ensures GetInputVariableName(consumer, fallback) == GetOutputVariableName(producer)
  {
  }
}

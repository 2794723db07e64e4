/**
 * Nodes whose ports follow a "Dimension" option (Editor/Models/Nodes/MultiDimensionNode.cs): the
 * dimension flags, the component count and value type a dimension stands for, and the port lists a
 * node defines from its declarations.
 */
module MultiDimension {
  import opened Outcomes
  import opened Text
  import opened IR
  import opened CodeGenUtility

  /** TargetDimension: Default is no bit, each vector width one bit; a declaration may combine them. */
  const TargetDefault: bv32 := 0
  const TargetFloat: bv32 := 1
  const TargetFloat2: bv32 := 2
  const TargetFloat3: bv32 := 4
  const TargetFloat4: bv32 := 8

  /** PortDimension: each member is the TargetDimension flag of the same name. The option may hold any int. */
  const DimensionFloat: bv32 := TargetFloat
  const DimensionFloat2: bv32 := TargetFloat2
  const DimensionFloat3: bv32 := TargetFloat3
  const DimensionFloat4: bv32 := TargetFloat4

  /** The Dimension option's default value. */
  const DefaultDimension: bv32 := DimensionFloat4

  /** The four named dimensions. */
  predicate IsNamedDimension(d: bv32) {
    d == DimensionFloat || d == DimensionFloat2 || d == DimensionFloat3 || d == DimensionFloat4
  }

  /** ComponentCount: 1 to 4 for the named dimensions, and 4 for any other value. */
  function ComponentCount(d: bv32): (r: nat)
    ensures 1 <= r <= 4
    ensures !IsNamedDimension(d) ==> r == 4
  {
    if d == DimensionFloat then 1
    else if d == DimensionFloat2 then 2
    else if d == DimensionFloat3 then 3
    else 4
  }

  /** The float vector type of each width. */
  function FloatVector(width: nat): ShaderVariableType
    requires 1 <= width <= 4
  {
    if width == 1 then Float else if width == 2 then Float2 else if width == 3 then Float3 else Float4
  }

  /** ToShaderVariableType: the ShaderVariableType of the same name, Float4 for any other value. */
  function ToShaderVariableType(d: bv32): (r: ShaderVariableType)
    ensures r == Float || r == Float2 || r == Float3 || r == Float4
    ensures !IsNamedDimension(d) ==> r == Float4
  {
    if d == DimensionFloat then Float
    else if d == DimensionFloat2 then Float2
    else if d == DimensionFloat3 then Float3
    else Float4
  }

  /** A node's value type always has as many components as ComponentCount says, named dimension or not. */
  lemma ValueTypeMatchesComponentCount(d: bv32)
    ensures ToShaderVariableType(d) == FloatVector(ComponentCount(d))
  {
  }

  /** The four named dimensions have distinct component counts: the count identifies the dimension. */
  lemma ComponentCountInjective(a: bv32, b: bv32)
    requires IsNamedDimension(a) && IsNamedDimension(b) && ComponentCount(a) == ComponentCount(b)
    ensures a == b
  {
  }

  /** HasDimensionFlag: a Default declaration fits every dimension, any other one the dimensions whose bit it has. */
  predicate HasDimensionFlag(target: bv32, d: bv32) {
    target == TargetDefault || target & d != 0
  }

  /** A port declaration: display name, value type and the dimensions it is defined for. */
  datatype PortDeclaration = PortDeclaration(displayName: string, valueType: ShaderVariableType, targetDimension: bv32)

  /** A defined port: its name (the position, in decimal), display name and data type. */
  datatype PortDefinition = PortDefinition(name: string, displayName: string, dataType: ShaderVariableType)

  /** The declarations that fit dimension d, in declaration order (the Where filter). */
  function Admitted(decls: seq<PortDeclaration>, d: bv32): (r: seq<PortDeclaration>)
    ensures |r| <= |decls|
  {
    if |decls| == 0 then []
    else (if HasDimensionFlag(decls[0].targetDimension, d) then [decls[0]] else []) + Admitted(decls[1..], d)
  }

  /** The filter keeps exactly the declarations that fit the dimension. */
  lemma {:induction false} AdmittedFits(decls: seq<PortDeclaration>, d: bv32)
    ensures forall x :: x in Admitted(decls, d) <==> x in decls && HasDimensionFlag(x.targetDimension, d)
  {
    if |decls| > 0 {
      AdmittedFits(decls[1..], d);
      assert decls == [decls[0]] + decls[1..];
    }
  }

  /** Declarations that all fit are all kept, in order. */
  lemma {:induction false} AdmittedAll(decls: seq<PortDeclaration>, d: bv32)
    requires forall i :: 0 <= i < |decls| ==> HasDimensionFlag(decls[i].targetDimension, d)
    ensures Admitted(decls, d) == decls
  {
    if |decls| > 0 {
      AdmittedAll(decls[1..], d);
    }
  }

  /** The ports defined from the kept declarations: port i is named i.ToString(). */
  function PortDefinitions(decls: seq<PortDeclaration>): (r: seq<PortDefinition>)
    ensures |r| == |decls|
  {
    seq(|decls|, i requires 0 <= i < |decls| => PortDefinition(NatToString(i), decls[i].displayName, decls[i].valueType))
  }

  /** The ports of one node have distinct names. */
  lemma PortNamesDistinct(decls: seq<PortDeclaration>, i: nat, j: nat)
    requires i < j < |decls|
    ensures PortDefinitions(decls)[i].name != PortDefinitions(decls)[j].name
  {
    if NatToString(i) == NatToString(j) {
      NatToStringInjective(i, j);
    }
  }

  /** The input ports of a node, each with the port connected to it if any, as the resolution helpers see them. */
  function InputPortsOf(node: Node, connections: seq<Option<Endpoint>>): (r: seq<Port>)
    ensures |r| == |connections|
    ensures forall i :: 0 <= i < |r| ==> r[i].self == Endpoint(node, NatToString(i)) && r[i].firstConnectedPort == connections[i]
  {
    seq(|connections|, i requires 0 <= i < |connections| => Port(Endpoint(node, NatToString(i)), connections[i]))
  }

  /** The output port at position i of a node. */
  function OutputPortOf(node: Node, i: nat): Endpoint {
    Endpoint(node, NatToString(i))
  }

  /** The ports a multi-dimension node has defined, for the dimension it was defined with. */
  class MultiDimensionNode {
    const dimension: bv32
    var inputPorts: array<PortDefinition>
    var outputPorts: array<PortDefinition>

    constructor (dimension: bv32)
      ensures this.dimension == dimension
      ensures inputPorts.Length == 0 && outputPorts.Length == 0
    {
      this.dimension := dimension;
      inputPorts := new PortDefinition[0];
      outputPorts := new PortDefinition[0];
    }

    /** OnDefinePorts: the declarations that fit the dimension become the node's ports, in order. */
    method DefinePorts(inputDeclarations: seq<PortDeclaration>, outputDeclarations: seq<PortDeclaration>)
      modifies this
      ensures fresh(inputPorts) && fresh(outputPorts)
      ensures inputPorts[..] == PortDefinitions(Admitted(inputDeclarations, dimension))
      ensures outputPorts[..] == PortDefinitions(Admitted(outputDeclarations, dimension))
    {
      inputPorts := BuildPorts(Admitted(inputDeclarations, dimension));
      outputPorts := BuildPorts(Admitted(outputDeclarations, dimension));
    }
  }

  /** One of the two loops of OnDefinePorts: a fresh array with port i built from declaration i. */
  method BuildPorts(valid: seq<PortDeclaration>) returns (ports: array<PortDefinition>)
    ensures fresh(ports)
    ensures ports[..] == PortDefinitions(valid)
  {
    ports := new PortDefinition[|valid|];
    for i := 0 to |valid|
      invariant forall k :: 0 <= k < i ==> ports[k] == PortDefinitions(valid)[k]
    {
      var decl := valid[i];
      ports[i] := PortDefinition(NatToString(i), decl.displayName, decl.valueType);
    }
  }
}

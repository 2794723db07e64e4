/**
 * The shader intermediate representation: variable types and declarations, the expression tree
 * with its text emission and alias inlining, and the instruction record
 * (Editor/CodeGen/Instrcuction.cs and Editor/CodeGen/Expression.cs).
 */
module IR {
  import opened Outcomes
  import opened Text

  datatype ShaderVariableType =
    | None | Void
    | Float | Float2 | Float3 | Float4
    | Int | Int2 | Int3 | Int4
    | UInt | UInt2 | UInt3 | UInt4
    | Bool | Texture2D | RWTexture2D | SamplerState

  /** The HLSL spelling of a type; None and Void have none. */
  function ToHLSLString(t: ShaderVariableType): (r: string)
    ensures r == "" <==> t == ShaderVariableType.None || t == Void
    ensures t == RWTexture2D ==> r == "RWTexture2D<float4>"
    ensures ' ' !in r
  {
    match t
    case Float => "float"
    case Float2 => "float2"
    case Float3 => "float3"
    case Float4 => "float4"
    case Int => "int"
    case Int2 => "int2"
    case Int3 => "int3"
    case Int4 => "int4"
    case UInt => "uint"
    case UInt2 => "uint2"
    case UInt3 => "uint3"
    case UInt4 => "uint4"
    case Bool => "bool"
    case Texture2D => "Texture2D"
    case RWTexture2D => "RWTexture2D<float4>"
    case SamplerState => "SamplerState"
    case _ => ""
  }

  /** Every type with a spelling has its own spelling. */
  lemma ToHLSLStringInjective(a: ShaderVariableType, b: ShaderVariableType)
    requires ToHLSLString(a) == ToHLSLString(b) != ""
    ensures a == b
  {
  }

  datatype VariableDeclaration = VariableDeclaration(shaderType: ShaderVariableType, name: string)
  {
    predicate IsValid() {
      shaderType != ShaderVariableType.None && name != ""
    }

    /** The declaration text: empty when invalid, otherwise the HLSL type (if any), a space and the name. */
    function ToShaderCode(): (r: string)
      ensures r == "" <==> !IsValid()
      ensures IsValid() ==> |r| >= |name| && r[|r| - |name|..] == name
      ensures IsValid() && ToHLSLString(shaderType) == "" ==> r == name
      ensures IsValid() && ToHLSLString(shaderType) != "" ==>
        var t := ToHLSLString(shaderType); |r| == |t| + 1 + |name| && r[..|t|] == t && r[|t|] == ' '
    {
      if !IsValid() then ""
      else
        var hlsl := ToHLSLString(shaderType);
        if hlsl == "" then name else hlsl + " " + name
    }
  }

  /** The argument list of a call: the in-arguments, then the out-argument names, leaving out an empty group. */
  function CallArguments(inArgs: seq<string>, outArgs: Option<seq<VariableDeclaration>>): (r: string)
    ensures var inText, outText := Join(", ", inArgs), OutArgumentNames(outArgs);
      && (inText == "" ==> r == outText)
      && (outText == "" ==> r == inText)
      && (inText != "" && outText != "" ==> r == inText + ", " + outText)
  {
    var inText, outText := Join(", ", inArgs), OutArgumentNames(outArgs);
    assert [inText, outText][1..] == [outText] && [outText][1..] == [];
    assert NonEmpty([outText]) == if outText == "" then [] else [outText];
    assert NonEmpty([inText, outText]) == if inText == "" then NonEmpty([outText]) else [inText] + NonEmpty([outText]);
    Join(", ", NonEmpty([inText, outText]))
  }

  function OutArgumentNames(outArgs: Option<seq<VariableDeclaration>>): string {
    match outArgs
    case None => ""
    case Some(ds) => Join(", ", seq(|ds|, i requires 0 <= i < |ds| => ds[i].name))
  }

  /** One "<declaration>;" line per out-argument, each at the given indentation. */
  function OutArgumentLines(outArgs: Option<seq<VariableDeclaration>>, indentLevel: nat): string {
    match outArgs
    case None => ""
    case Some(ds) => Concat(seq(|ds|, i requires 0 <= i < |ds| => Indent(ds[i].ToShaderCode() + ";", indentLevel) + "\n"))
  }

  function NonEmpty(parts: seq<string>): (r: seq<string>)
    ensures forall i :: 0 <= i < |r| ==> r[i] != ""
  {
    if |parts| == 0 then []
    else if parts[0] == "" then NonEmpty(parts[1..])
    else [parts[0]] + NonEmpty(parts[1..])
  }

  datatype Expression =
    | Inlineable(inner: Expression)
    | Variable(name: string)
    | Constant(name: string)
    | Binary(left: Expression, op: string, right: Expression)
    | FunctionCall(functionName: string, inArguments: seq<Expression>, outArguments: Option<seq<VariableDeclaration>>)
    | Sequence(expressions: seq<Expression>)
    | Operator(op: string)
  {
    /** The HLSL text of the expression, the first line indented by indentLevel. */
    function Emit(indentLevel: nat): string
    {
      match this
      case Inlineable(e) => e.Emit(indentLevel)
      case Variable(n) => Indent(n, indentLevel)
      case Constant(n) => Indent(n, indentLevel)
      case Operator(o) => Indent(o, indentLevel)
      case Binary(l, o, r) => Indent("(" + l.Emit(0) + " " + o + " " + r.Emit(0) + ")", indentLevel)
      case FunctionCall(f, ins, outs) =>
        OutArgumentLines(outs, indentLevel)
        + Indent(f + "(" + CallArguments(seq(|ins|, i requires 0 <= i < |ins| => ins[i].Emit(0)), outs) + ")", indentLevel)
      case Sequence(es) =>
        Concat(seq(|es|, i requires 0 <= i < |es| => es[i].Emit(if i == 0 then indentLevel else 0)))
    }

    /**
     * Whether the emitted text is a single block that indentation shifts as a whole: no leading
     * out-argument declaration lines (which are indented one by one) and no empty sequence in front.
     */
    predicate IndentsAsWhole() {
      match this
      case Inlineable(e) => e.IndentsAsWhole()
      case FunctionCall(_, _, outs) => outs.None? || |outs.value| == 0
      case Sequence(es) => |es| > 0 && es[0].IndentsAsWhole()
      case _ => true
    }

    /** Whether an InlineableExpr marker occurs anywhere in the tree. */
    predicate HasInlineable() {
      match this
      case Inlineable(_) => true
      case Variable(_) => false
      case Constant(_) => false
      case Operator(_) => false
      case Binary(l, _, r) => l.HasInlineable() || r.HasInlineable()
      case FunctionCall(_, ins, _) => exists i :: 0 <= i < |ins| && ins[i].HasInlineable()
      case Sequence(es) => exists i :: 0 <= i < |es| && es[i].HasInlineable()
    }

    /** The tree with every InlineableExpr marker removed. */
    function StripInlineable(): (r: Expression)
      ensures !r.HasInlineable()
    {
      match this
      case Inlineable(e) => e.StripInlineable()
      case Binary(l, o, r) => Binary(l.StripInlineable(), o, r.StripInlineable())
      case FunctionCall(f, ins, outs) => FunctionCall(f, seq(|ins|, i requires 0 <= i < |ins| => ins[i].StripInlineable()), outs)
      case Sequence(es) => Sequence(seq(|es|, i requires 0 <= i < |es| => es[i].StripInlineable()))
      case _ => this
    }

    /** Whether a variable named by one of the keys occurs anywhere in the tree. */
    predicate MentionsKey(keys: set<string>) {
      match this
      case Inlineable(e) => e.MentionsKey(keys)
      case Variable(n) => n in keys
      case Constant(_) => false
      case Operator(_) => false
      case Binary(l, _, r) => l.MentionsKey(keys) || r.MentionsKey(keys)
      case FunctionCall(_, ins, _) => exists i :: 0 <= i < |ins| && ins[i].MentionsKey(keys)
      case Sequence(es) => exists i :: 0 <= i < |es| && es[i].MentionsKey(keys)
    }

    /** No sequence of fewer than two elements and no call with an empty out-argument list. */
    predicate Normalized() {
      match this
      case Inlineable(e) => e.Normalized()
      case Variable(_) => true
      case Constant(_) => true
      case Operator(_) => true
      case Binary(l, _, r) => l.Normalized() && r.Normalized()
      case FunctionCall(_, ins, outs) =>
        (outs.Some? ==> |outs.value| > 0) && forall i :: 0 <= i < |ins| ==> ins[i].Normalized()
      case Sequence(es) => |es| >= 2 && forall i :: 0 <= i < |es| ==> es[i].Normalized()
    }

    /**
     * Whether Inline returns: chasing a variable through the table never revisits a name already
     * on the current chase path (path); otherwise the source recurses without end.
     */
    predicate InlineTerminates(table: map<string, Expression>, path: set<string>)
      decreases |table.Keys - path|, this
    {
      match this
      case Inlineable(e) => e.InlineTerminates(table, path)
      case Variable(n) =>
        n in table ==> n !in path && (KeyRemovalShrinks(table.Keys, path, n); table[n].InlineTerminates(table, path + {n}))
      case Constant(_) => true
      case Operator(_) => true
      case Binary(l, _, r) => l.InlineTerminates(table, path) && r.InlineTerminates(table, path)
      case FunctionCall(_, ins, _) => forall i :: 0 <= i < |ins| ==> ins[i].InlineTerminates(table, path)
      case Sequence(es) => forall i :: 0 <= i < |es| ==> es[i].InlineTerminates(table, path)
    }

    /**
     * Expression.Inline: variables found in the table are replaced by their entry, inlined again;
     * markers disappear; sequences of zero and one element collapse; calls keep name and arity.
     */
    function Inline(table: map<string, Expression>, ghost path: set<string>): (r: Expression)
      requires InlineTerminates(table, path)
      ensures !r.HasInlineable()
      ensures r.Normalized()
      decreases |table.Keys - path|, this
    {
      match this
      case Inlineable(e) => e.Inline(table, path)
      case Variable(n) =>
        if n in table then (KeyRemovalShrinks(table.Keys, path, n); table[n].Inline(table, path + {n})) else this
      case Constant(_) => this
      case Operator(_) => this
      case Binary(l, o, r) => Binary(l.Inline(table, path), o, r.Inline(table, path))
      case FunctionCall(f, ins, outs) =>
        FunctionCall(f, seq(|ins|, i requires 0 <= i < |ins| => ins[i].Inline(table, path)),
                     if outs.Some? && |outs.value| > 0 then outs else Option.None)
      case Sequence(es) =>
        if |es| == 0 then NullVariable
        else if |es| == 1 then es[0].Inline(table, path)
        else Sequence(seq(|es|, i requires 0 <= i < |es| => es[i].Inline(table, path)))
    }
  }

  /** VariableExpr.Null and ConstantExpr.Null. */
  const NullVariable := Variable("")
  const NullConstant := Constant("")

  lemma KeyRemovalShrinks(keys: set<string>, path: set<string>, n: string)
    requires n in keys && n !in path
    ensures |keys - (path + {n})| < |keys - path|
  {
    assert keys - path == (keys - (path + {n})) + {n};
  }

  /** An instruction: the declared result and the expression assigned to it (null in a default instruction). */
  datatype Instruction = Instruction(result: VariableDeclaration, expression: Option<Expression>)

  /** default(Instruction): type None, no name, no expression. */
  const DefaultInstruction := Instruction(VariableDeclaration(ShaderVariableType.None, ""), Option.None)
}

/**
 * The math and condition nodes (Editor/Models/Nodes/Math/MathOperatorNode.cs, Math/Basic.cs,
 * Math/Advance.cs and Utility/Condition.cs): their port declarations, the expression each builds
 * from its input variables, and the GenerateCode they share.
 */
module MathNodes {
  import opened Outcomes
  import opened Text
  import opened IR
  import opened Contexts
  import opened CodeGenUtility
  import opened NodeCodeGen
  import opened MultiDimension

  /** Compare's "Comparison Type" option; Undefined stands for any other value the enum can hold. */
  datatype ComparisonType = Equal | NotEqual | Greater | GreaterEqual | Less | LessEqual | Undefined

  /** The MathOperatorNode subclasses; Compare carries its option. */
  datatype MathOperator =
    | Add | Subtract | Multiply | Divide | Power | Sqrt
    | Abs | Exp | Length | Log | Modulo | Negate | Normalize | Posterize | Reciprocal | ReciprocalSquareRoot
    | Condition | All | Any | Not | And | Or
    | Compare(comparison: ComparisonType)

  /** The subclasses that keep the default inputs A and B. */
  predicate HasDefaultInputs(op: MathOperator) {
    op.Add? || op.Subtract? || op.Multiply? || op.Divide? || op.Power? || op.Modulo? || op.And? || op.Or? || op.Compare?
  }

  /** The number of input ports a node of this kind declares. */
  function Arity(op: MathOperator): nat {
    if HasDefaultInputs(op) || op.Posterize? then 2 else if op.Condition? then 3 else 1
  }

  /** ReturnType: the node's value type, except that Compare returns bool. */
  function ReturnType(op: MathOperator, valueType: ShaderVariableType): ShaderVariableType {
    if op.Compare? then Bool else valueType
  }

  /** InputDeclarations: every input is declared for all dimensions, so every declaration becomes a port. */
  function InputDeclarations(op: MathOperator, valueType: ShaderVariableType): (r: seq<PortDeclaration>)
    ensures |r| == Arity(op)
    ensures forall i :: 0 <= i < |r| ==> r[i].targetDimension == TargetDefault
  {
    var value := PortDeclaration("Value", ReturnType(op, valueType), TargetDefault);
    if HasDefaultInputs(op) then
      [PortDeclaration("A", valueType, TargetDefault), PortDeclaration("B", valueType, TargetDefault)]
    else if op.Posterize? then [value, PortDeclaration("Steps", Float, TargetDefault)]
    else if op.Condition? then
      [PortDeclaration("Predicate", Bool, TargetDefault), PortDeclaration("True", ReturnType(op, valueType), TargetDefault),
       PortDeclaration("False", ReturnType(op, valueType), TargetDefault)]
    else [value]
  }

  /** OutputDeclarations: one "Result" port of the return type. */
  function OutputDeclarations(op: MathOperator, valueType: ShaderVariableType): seq<PortDeclaration> {
    [PortDeclaration("Result", ReturnType(op, valueType), TargetDefault)]
  }

  /** Whatever the dimension, a math node defines a port for each declaration, in order. */
  lemma MathPortsAllAdmitted(op: MathOperator, valueType: ShaderVariableType, dimension: bv32)
    ensures Admitted(InputDeclarations(op, valueType), dimension) == InputDeclarations(op, valueType)
    ensures Admitted(OutputDeclarations(op, valueType), dimension) == OutputDeclarations(op, valueType)
  {
    AdmittedAll(InputDeclarations(op, valueType), dimension);
    AdmittedAll(OutputDeclarations(op, valueType), dimension);
  }

  /** The declared types of the inputs, in port order. */
  function InputTypes(op: MathOperator, valueType: ShaderVariableType): (r: seq<ShaderVariableType>)
    ensures |r| == Arity(op)
  {
    var decls := InputDeclarations(op, valueType);
    seq(|decls|, i requires 0 <= i < |decls| => decls[i].valueType)
  }

  /** The HLSL comparison operator of each option; any other value throws ArgumentOutOfRangeException. */
  function ComparisonOperator(c: ComparisonType): (r: Result<string, Exception>)
    ensures r.Failure? <==> c == ComparisonType.Undefined
    ensures r.Failure? ==> r.error == ArgumentOutOfRangeException
  {
    match c
    case Equal => Success("==")
    case NotEqual => Success("!=")
    case Greater => Success(">")
    case GreaterEqual => Success(">=")
    case Less => Success("<")
    case LessEqual => Success("<=")
    case Undefined => Failure(ArgumentOutOfRangeException)
  }

  /** Different options compare with different operators. */
  lemma ComparisonOperatorsDistinct(a: ComparisonType, b: ComparisonType)
    requires a != b && a != ComparisonType.Undefined && b != ComparisonType.Undefined
    ensures ComparisonOperator(a).value != ComparisonOperator(b).value
  {
  }

  /** How a node combines its input variables into its expression. */
  datatype Form =
    | InfixForm(symbol: string)      // (a symbol b)
    | PrefixForm(symbol: string)     // the null constant, the symbol, then a
    | CallForm(name: string)         // name(a) or name(a, b)
    | PosterizeForm                  // floor(a * b) / b
    | ConditionalForm                // a ? b : c

  /** Whether a form uses exactly n inputs. */
  predicate FormFits(form: Form, n: nat) {
    match form
    case InfixForm(_) => n == 2
    case PrefixForm(_) => n == 1
    case CallForm(_) => n == 1 || n == 2
    case PosterizeForm => n == 2
    case ConditionalForm => n == 3
  }

  /**
   * The form of each subclass's BuildExpression; Compare's switch throws ArgumentOutOfRangeException
   * for an option out of range.
   */
  function FormOf(op: MathOperator): (r: Result<Form, Exception>)
    ensures r.Failure? <==> op == Compare(ComparisonType.Undefined)
    ensures r.Failure? ==> r.error == ArgumentOutOfRangeException
    ensures r.Success? ==> FormFits(r.value, Arity(op))
  {
    match op
    case Add => Success(InfixForm("+"))
    case Subtract => Success(InfixForm("-"))
    case Multiply => Success(InfixForm("*"))
    case Divide => Success(InfixForm("/"))
    case Power => Success(CallForm("pow"))
    case Sqrt => Success(CallForm("sqrt"))
    case Abs => Success(CallForm("abs"))
    case Exp => Success(CallForm("exp"))
    case Length => Success(CallForm("length"))
    case Log => Success(CallForm("log"))
    case Modulo => Success(CallForm("fmod"))
    case Negate => Success(PrefixForm("-"))
    case Normalize => Success(CallForm("normalize"))
    case Posterize => Success(PosterizeForm)
    case Reciprocal => Success(CallForm("rcp"))
    case ReciprocalSquareRoot => Success(CallForm("rsqrt"))
    case Condition => Success(ConditionalForm)
    case All => Success(CallForm("all"))
    case Any => Success(CallForm("any"))
    case Not => Success(PrefixForm("!"))
    case And => Success(InfixForm("&&"))
    case Or => Success(InfixForm("||"))
    case Compare(c) =>
      match ComparisonOperator(c)
      case Failure(e) => Failure(e)
      case Success(symbol) => Success(InfixForm(symbol))
  }

  /** A call with the given input variables as its arguments and no out-arguments. */
  function Call(name: string, args: seq<string>): Expression {
    FunctionCall(name, seq(|args|, i requires 0 <= i < |args| => Variable(args[i])), Option.None)
  }

  /** The expression tree of a form over the input variables. */
  function Assemble(form: Form, inputs: seq<string>): Expression
    requires FormFits(form, |inputs|)
  {
    match form
    case InfixForm(symbol) => Binary(Variable(inputs[0]), symbol, Variable(inputs[1]))
    case PrefixForm(symbol) => Binary(NullConstant, symbol, Variable(inputs[0]))
    case CallForm(name) => Call(name, inputs)
    case PosterizeForm =>
      Binary(FunctionCall("floor", [Binary(Variable(inputs[0]), "*", Variable(inputs[1]))], Option.None), "/", Variable(inputs[1]))
    case ConditionalForm =>
      Sequence([Variable(inputs[0]), Operator(" ? "), Variable(inputs[1]), Operator(" : "), Variable(inputs[2])])
  }

  /** BuildExpression: the expression a node builds from its input variables, one per input port. */
  function BuildExpression(op: MathOperator, inputs: seq<string>): (r: Result<Expression, Exception>)
    requires |inputs| == Arity(op)
    ensures r.Failure? <==> op == Compare(ComparisonType.Undefined)
    ensures r.Failure? ==> r.error == ArgumentOutOfRangeException
  {
    match FormOf(op)
    case Failure(e) => Failure(e)
    case Success(form) => Success(Assemble(form, inputs))
  }

  /** HLSL infix text: both operands and the operator, spaced and parenthesised. */
  function Infix(left: string, op: string, right: string): string {
    "(" + left + " " + op + " " + right + ")"
  }

  /** HLSL call text: the function name and the argument list in parentheses. */
  function Applied(name: string, arguments: string): string {
    name + "(" + arguments + ")"
  }

  /** The HLSL text a form stands for, over the input variables. */
  function FormText(form: Form, inputs: seq<string>): string
    requires FormFits(form, |inputs|)
  {
    match form
    case InfixForm(symbol) => Infix(inputs[0], symbol, inputs[1])
    case PrefixForm(symbol) => Infix("", symbol, inputs[0])
    case CallForm(name) => if |inputs| == 1 then Applied(name, inputs[0]) else Applied(name, inputs[0] + ", " + inputs[1])
    case PosterizeForm => Infix(Applied("floor", Infix(inputs[0], "*", inputs[1])), "/", inputs[1])
    case ConditionalForm => inputs[0] + " ? " + inputs[1] + " : " + inputs[2]
  }

  /** A call on input variables reads as the function name applied to the comma-separated variables. */
  lemma CallText(name: string, args: seq<string>)
    ensures Call(name, args).Emit(0) == Applied(name, Join(", ", args))
  {
    var ins := seq(|args|, i requires 0 <= i < |args| => Variable(args[i]));
    assert seq(|ins|, i requires 0 <= i < |ins| => ins[i].Emit(0)) == args;
  }

  /** Two arguments are joined by a comma and a space. */
  lemma JoinPair(a: string, b: string)
    ensures Join(", ", [a, b]) == a + ", " + b
  {
    assert [a, b][1..] == [b];
  }

  /** A call on input variables mentions exactly its arguments. */
  lemma CallMentions(name: string, args: seq<string>, keys: set<string>)
    ensures Call(name, args).MentionsKey(keys) <==> exists i :: 0 <= i < |args| && args[i] in keys
  {
    var ins := seq(|args|, i requires 0 <= i < |args| => Variable(args[i]));
    assert forall i :: 0 <= i < |args| ==> (ins[i].MentionsKey(keys) <==> args[i] in keys);
  }

  /** The conditional reads as "predicate ? whenTrue : whenFalse". */
  lemma ConditionText(a: string, b: string, c: string)
    ensures Sequence([Variable(a), Operator(" ? "), Variable(b), Operator(" : "), Variable(c)]).Emit(0) == a + " ? " + b + " : " + c
  {
    var es := [Variable(a), Operator(" ? "), Variable(b), Operator(" : "), Variable(c)];
    var parts := [a, " ? ", b, " : ", c];
    assert seq(|es|, i requires 0 <= i < |es| => es[i].Emit(if i == 0 then 0 else 0)) == parts;
    ConcatFive(a, " ? ", b, " : ", c);
  }

  /** Five parts concatenate to their sum. */
  lemma ConcatFive(p0: string, p1: string, p2: string, p3: string, p4: string)
    ensures Concat([p0, p1, p2, p3, p4]) == p0 + p1 + p2 + p3 + p4
  {
    var parts := [p0, p1, p2, p3, p4];
    assert Concat(parts[4..]) == p4 by { assert parts[4..][1..] == []; }
    assert Concat(parts[3..]) == p3 + p4 by { assert parts[3..][1..] == parts[4..]; }
    assert Concat(parts[2..]) == p2 + p3 + p4 by { assert parts[2..][1..] == parts[3..]; }
    assert Concat(parts[1..]) == p1 + p2 + p3 + p4 by { assert parts[1..][1..] == parts[2..]; }
  }

  /** The expression of a form emits the HLSL text the form stands for. */
  lemma AssembleText(form: Form, inputs: seq<string>)
    requires FormFits(form, |inputs|)
    ensures Assemble(form, inputs).Emit(0) == FormText(form, inputs)
  {
    match form
    case InfixForm(_) =>
    case PrefixForm(_) =>
    case CallForm(name) =>
      CallText(name, inputs);
      if |inputs| == 2 {
        JoinPair(inputs[0], inputs[1]);
        assert inputs == [inputs[0], inputs[1]];
      }
    case PosterizeForm =>
      var product := Binary(Variable(inputs[0]), "*", Variable(inputs[1]));
      assert seq(1, i requires 0 <= i < 1 => [product][i].Emit(0)) == [product.Emit(0)];
      assert FunctionCall("floor", [product], Option.None).Emit(0) == Applied("floor", product.Emit(0));
    case ConditionalForm => ConditionText(inputs[0], inputs[1], inputs[2]);
  }

  /** The expression of a form reads its input variables and nothing else. */
  lemma AssembleMentions(form: Form, inputs: seq<string>, keys: set<string>)
    requires FormFits(form, |inputs|)
    ensures Assemble(form, inputs).MentionsKey(keys) <==> exists i :: 0 <= i < |inputs| && inputs[i] in keys
  {
    match form
    case InfixForm(_) =>
    case PrefixForm(_) =>
    case CallForm(name) => CallMentions(name, inputs, keys);
    case PosterizeForm =>
      var product := Binary(Variable(inputs[0]), "*", Variable(inputs[1]));
      assert [product][0] == product;
      assert (exists i :: 0 <= i < 1 && [product][i].MentionsKey(keys)) <==> product.MentionsKey(keys);
    case ConditionalForm =>
      var es := [Variable(inputs[0]), Operator(" ? "), Variable(inputs[1]), Operator(" : "), Variable(inputs[2])];
      assert es[0] == Variable(inputs[0]) && es[2] == Variable(inputs[1]) && es[4] == Variable(inputs[2]);
      assert forall i :: 0 <= i < |es| && es[i].MentionsKey(keys) ==> i == 0 || i == 2 || i == 4;
  }

  /** The expression a node builds emits the HLSL text of its form. */
  lemma BuildExpressionText(op: MathOperator, inputs: seq<string>)
    requires |inputs| == Arity(op) && BuildExpression(op, inputs).Success?
    ensures BuildExpression(op, inputs).value.Emit(0) == FormText(FormOf(op).value, inputs)
  {
    AssembleText(FormOf(op).value, inputs);
  }

  /** Add: the two inputs joined by HLSL's "+" in parentheses. */
  lemma AddText(a: string, b: string)
    ensures BuildExpression(Add, [a, b]).value.Emit(0) == "(" + a + " + " + b + ")"
  {
    BuildExpressionText(Add, [a, b]);
  }

  /** Power: HLSL's pow applied to the two inputs. */
  lemma PowerText(a: string, b: string)
    ensures BuildExpression(Power, [a, b]).value.Emit(0) == "pow(" + a + ", " + b + ")"
  {
    BuildExpressionText(Power, [a, b]);
  }

  /** Negate: a unary minus, written as a binary expression with an empty left operand. */
  lemma NegateText(a: string)
    ensures BuildExpression(Negate, [a]).value.Emit(0) == "( - " + a + ")"
  {
    BuildExpressionText(Negate, [a]);
  }

  /** Posterize: the value scaled by the steps, floored, then scaled back. */
  lemma PosterizeText(a: string, b: string)
    ensures BuildExpression(Posterize, [a, b]).value.Emit(0) == "(floor((" + a + " * " + b + ")) / " + b + ")"
  {
    BuildExpressionText(Posterize, [a, b]);
    PosterizeShape(a, b);
  }

  /** The posterize text written out. */
  lemma PosterizeShape(a: string, b: string)
    ensures Infix(Applied("floor", Infix(a, "*", b)), "/", b) == "(floor((" + a + " * " + b + ")) / " + b + ")"
  {
    var floored := Applied("floor", Infix(a, "*", b));
    assert floored == "floor((" + a + " * " + b + "))";
    assert Infix(floored, "/", b) == "(" + floored + " / " + b + ")";
  }

  /** Condition: HLSL's conditional operator over predicate, true and false inputs. */
  lemma ConditionalText(a: string, b: string, c: string)
    ensures BuildExpression(Condition, [a, b, c]).value.Emit(0) == a + " ? " + b + " : " + c
  {
    BuildExpressionText(Condition, [a, b, c]);
  }

  /** Compare with LessEqual: the two inputs joined by HLSL's "<=". */
  lemma LessEqualText(a: string, b: string)
    ensures BuildExpression(Compare(LessEqual), [a, b]).value.Emit(0) == "(" + a + " <= " + b + ")"
  {
    BuildExpressionText(Compare(LessEqual), [a, b]);
  }

  /**
   * The expression a node builds reads its input variables and nothing else: it mentions a set of
   * names exactly when one of its inputs is among them.
   */
  lemma BuildExpressionMentions(op: MathOperator, inputs: seq<string>, keys: set<string>)
    requires |inputs| == Arity(op) && BuildExpression(op, inputs).Success?
    ensures BuildExpression(op, inputs).value.MentionsKey(keys) <==> exists i :: 0 <= i < |inputs| && inputs[i] in keys
  {
    AssembleMentions(FormOf(op).value, inputs, keys);
  }
}

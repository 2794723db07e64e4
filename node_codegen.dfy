/**
 * What the node code generators get from resolving their input ports (Editor/CodeGen/CodeGenUtility.cs):
 * the effect of one GetInputVariableName call as a value, and the effect of resolving a node's ports
 * one after the other, as the generators do before appending their own instruction.
 */
module NodeCodeGen {
  import opened Outcomes
  import opened IR
  import opened Contexts
  import opened CodeGenUtility

  /** The variable name a resolution yields and the instructions it appended to the context. */
  datatype Resolved = Resolved(name: string, appended: seq<Instruction>)

  /** The instruction a fallback appends: the port's unique variable, of the given type, set to the expression. */
  function FallbackDeclaration(at: Endpoint, variableType: ShaderVariableType, expr: Expression): Instruction {
    Instruction(VariableDeclaration(variableType, GetUniqueVariableName(at)), Some(expr))
  }

  /**
   * Where a resolved name comes from: a connected node's own output (nothing appended), or exactly
   * one appended instruction that declares it with the requested type.
   */
  predicate DeclaresName(port: Port, variableType: ShaderVariableType, res: Resolved) {
    || (ResolveInput(port).FromConnectedNode? && res.appended == [])
    || (|res.appended| == 1 && res.appended[0].result == VariableDeclaration(variableType, res.name)
        && res.appended[0].expression.Some?)
  }

  /**
   * The untyped overload GetInputVariableName(port, variableType, ctx, callback), as a value. Every
   * caller passes a callback that builds a constant of the same type it declares, so the callback is
   * given here as toConstant applied to the port's value and variableType.
   */
  function ResolveUntyped<T>(port: Port, variableType: ShaderVariableType, portValue: (Node, string) -> T,
                             toConstant: (T, ShaderVariableType) -> Result<Expression, Exception>)
    : (r: Result<Resolved, Exception>)
    ensures r.Success? ==> DeclaresName(port, variableType, r.value)
    ensures ResolveInput(port).FromConnectedNode? ==> r == Success(Resolved(ResolveInput(port).name, []))
    ensures ResolveInput(port).FromFallback? && !ResolveInput(port).at.node.isDataNode ==>
      r == Failure(InvalidOperationException)
  {
    match ResolveInput(port)
    case FromConnectedNode(name) => Success(Resolved(name, []))
    case FromFallback(at) =>
      if !at.node.isDataNode then Failure(InvalidOperationException)
      else
        match toConstant(portValue(at.node, port.self.name), variableType)
        case Failure(e) => Failure(e)
        case Success(expr) => Success(Resolved(GetUniqueVariableName(at), [FallbackDeclaration(at, variableType, expr)]))
  }

  /** The typed overload GetInputVariableName<T>(port, ctx, fallback), as a value. */
  function ResolveTyped<T>(port: Port, clrType: ClrType, portValue: (Node, string) -> T,
                           fallback: T -> Result<Expression, Exception>): (r: Result<Resolved, Exception>)
    ensures r.Success? ==> ClrToShaderType(clrType).Some? || ResolveInput(port).FromConnectedNode?
    ensures r.Success? && ClrToShaderType(clrType).Some? ==> DeclaresName(port, ClrToShaderType(clrType).value, r.value)
    ensures ResolveInput(port).FromConnectedNode? ==> r == Success(Resolved(ResolveInput(port).name, []))
    ensures ClrToShaderType(clrType).None? && ResolveInput(port).FromFallback? ==> r == Failure(InvalidOperationException)
  {
    match ResolveInput(port)
    case FromConnectedNode(name) => Success(Resolved(name, []))
    case FromFallback(at) =>
      if !at.node.isDataNode || ClrToShaderType(clrType).None? then Failure(InvalidOperationException)
      else
        match fallback(portValue(at.node, port.self.name))
        case Failure(e) => Failure(e)
        case Success(expr) =>
          Success(Resolved(GetUniqueVariableName(at), [FallbackDeclaration(at, ClrToShaderType(clrType).value, expr)]))
  }

  /** The untyped overload as the generators call it: the effect on the context and the name. */
  method ResolveUntypedInput<T>(port: Port, variableType: ShaderVariableType, ctx: CodeGenContext,
                                portValue: (Node, string) -> T,
                                toConstant: (T, ShaderVariableType) -> Result<Expression, Exception>)
    returns (r: Result<string, Exception>)
    modifies ctx
    ensures var res := ResolveUntyped(port, variableType, portValue, toConstant);
      && (res.Success? ==> r == Success(res.value.name) && ctx.instructionSet == old(ctx.instructionSet) + res.value.appended)
      && (res.Failure? ==> r == Failure(res.error) && ctx.instructionSet == old(ctx.instructionSet))
  {
    r := GetInputVariableNameUntyped(port, variableType, ctx, portValue, (v: T) => toConstant(v, variableType));
  }

  /** The typed overload as the generators call it: the effect on the context and the name. */
  method ResolveTypedInput<T>(port: Port, clrType: ClrType, ctx: CodeGenContext, portValue: (Node, string) -> T,
                              fallback: T -> Result<Expression, Exception>)
    returns (r: Result<string, Exception>)
    modifies ctx
    ensures var res := ResolveTyped(port, clrType, portValue, fallback);
      && (res.Success? ==> r == Success(res.value.name) && ctx.instructionSet == old(ctx.instructionSet) + res.value.appended)
      && (res.Failure? ==> r == Failure(res.error) && ctx.instructionSet == old(ctx.instructionSet))
  {
    r := GetInputVariableNameTyped(port, clrType, ctx, portValue, fallback);
  }

  /** What a node's GenerateCode does: the instructions it appends to the context, and whether it throws. */
  datatype Generated = Generated(appended: seq<Instruction>, outcome: Outcome<Exception>)

  /** The ports of a node resolved in order, until the first one that throws. */
  datatype Resolution = Resolution(names: seq<string>, appended: seq<Instruction>, error: Option<Exception>)

  /**
   * Resolving ports[i] with the untyped overload and declared type types[i], the fallback building a
   * constant of that type, for i = 0, 1, ...: the names so far, everything appended so far, and the
   * exception that stopped it, if any. An exception leaves the earlier ports' instructions in place.
   */
  function ResolveAll<T>(ports: seq<Port>, types: seq<ShaderVariableType>, portValue: (Node, string) -> T,
                         toConstant: (T, ShaderVariableType) -> Result<Expression, Exception>): (r: Resolution)
    requires |ports| == |types|
    ensures r.error.None? ==> |r.names| == |ports|
    ensures r.error.Some? ==> |r.names| < |ports|
    ensures |r.appended| <= |r.names|
    decreases |ports|
  {
    if |ports| == 0 then Resolution([], [], Option.None)
    else
      var n := |ports| - 1;
      var prev := ResolveAll(ports[..n], types[..n], portValue, toConstant);
      if prev.error.Some? then prev
      else
        match ResolveUntyped(ports[n], types[n], portValue, toConstant)
        case Failure(e) => Resolution(prev.names, prev.appended, Some(e))
        case Success(res) =>
          Resolution(prev.names + [res.name], prev.appended + res.appended, Option.None)
  }

  /** Resolving one more port: the effect of the prefix, then that port's, unless the prefix threw. */
  lemma ResolveAllSnoc<T>(ports: seq<Port>, types: seq<ShaderVariableType>, portValue: (Node, string) -> T,
                          toConstant: (T, ShaderVariableType) -> Result<Expression, Exception>, i: nat)
    requires i < |ports| == |types|
    ensures var prev := ResolveAll(ports[..i], types[..i], portValue, toConstant);
      var step := ResolveUntyped(ports[i], types[i], portValue, toConstant);
      ResolveAll(ports[..i + 1], types[..i + 1], portValue, toConstant) ==
        if prev.error.Some? then prev
        else if step.Failure? then Resolution(prev.names, prev.appended, Some(step.error))
        else Resolution(prev.names + [step.value.name], prev.appended + step.value.appended, Option.None)
  {
    assert ports[..i + 1][..i] == ports[..i] && types[..i + 1][..i] == types[..i];
  }

  /**
   * The input loop's step: after a prefix that threw nothing, a port that resolves extends the
   * prefix's names and instructions, and a port that throws ends the whole resolution with its error.
   */
  lemma ResolveAllStep<T>(ports: seq<Port>, types: seq<ShaderVariableType>, portValue: (Node, string) -> T,
                          toConstant: (T, ShaderVariableType) -> Result<Expression, Exception>, i: nat,
                          names: seq<string>, appended: seq<Instruction>)
    requires i < |ports| == |types|
    requires ResolveAll(ports[..i], types[..i], portValue, toConstant) == Resolution(names, appended, Option.None)
    ensures var step := ResolveUntyped(ports[i], types[i], portValue, toConstant);
      && (step.Success? ==> ResolveAll(ports[..i + 1], types[..i + 1], portValue, toConstant)
                            == Resolution(names + [step.value.name], appended + step.value.appended, Option.None))
      && (step.Failure? ==> ResolveAll(ports, types, portValue, toConstant) == Resolution(names, appended, Some(step.error)))
  {
    ResolveAllSnoc(ports, types, portValue, toConstant, i);
    if ResolveUntyped(ports[i], types[i], portValue, toConstant).Failure? {
      ResolveAllStops(ports, types, portValue, toConstant, i + 1);
    }
  }

  /**
   * Declare before use: every name the resolution yields is either a connected node's own output or
   * is declared, with the port's declared type, by an instruction the resolution appended.
   */
  lemma {:induction false} ResolvedNamesDeclared<T>(ports: seq<Port>, types: seq<ShaderVariableType>,
                                                    portValue: (Node, string) -> T,
                                                    toConstant: (T, ShaderVariableType) -> Result<Expression, Exception>)
    requires |ports| == |types|
    ensures var r := ResolveAll(ports, types, portValue, toConstant);
      forall i :: 0 <= i < |r.names| ==>
        if ResolveInput(ports[i]).FromConnectedNode? then r.names[i] == ResolveInput(ports[i]).name
        else VariableDeclaration(types[i], r.names[i]) in Results(r.appended)
    decreases |ports|
  {
    if |ports| > 0 {
      var n := |ports| - 1;
      ResolvedNamesDeclared(ports[..n], types[..n], portValue, toConstant);
      ResolveAllSnoc(ports, types, portValue, toConstant, n);
      assert ports[..n + 1] == ports && types[..n + 1] == types;
      NamesDeclaredStep(ports, types, ResolveAll(ports[..n], types[..n], portValue, toConstant),
                        ResolveUntyped(ports[n], types[n], portValue, toConstant),
                        ResolveAll(ports, types, portValue, toConstant));
    }
  }

  /** The inductive step of ResolvedNamesDeclared, on the values involved. */
  lemma NamesDeclaredStep(ports: seq<Port>, types: seq<ShaderVariableType>, prev: Resolution,
                          step: Result<Resolved, Exception>, r: Resolution)
    requires |ports| == |types| > 0 && |prev.names| <= |ports| - 1
    requires forall i :: 0 <= i < |prev.names| ==>
      if ResolveInput(ports[..|ports| - 1][i]).FromConnectedNode? then prev.names[i] == ResolveInput(ports[..|ports| - 1][i]).name
      else VariableDeclaration(types[..|ports| - 1][i], prev.names[i]) in Results(prev.appended)
    requires prev.error.None? ==> |prev.names| == |ports| - 1
    requires step.Success? ==> DeclaresName(ports[|ports| - 1], types[|ports| - 1], step.value)
    requires step.Success? && ResolveInput(ports[|ports| - 1]).FromConnectedNode? ==>
      step.value.name == ResolveInput(ports[|ports| - 1]).name
    requires r == if prev.error.Some? then prev
      else if step.Failure? then Resolution(prev.names, prev.appended, Some(step.error))
      else Resolution(prev.names + [step.value.name], prev.appended + step.value.appended, Option.None)
    ensures forall i :: 0 <= i < |r.names| ==>
      if ResolveInput(ports[i]).FromConnectedNode? then r.names[i] == ResolveInput(ports[i]).name
      else VariableDeclaration(types[i], r.names[i]) in Results(r.appended)
  {
    var n := |ports| - 1;
    assert forall i :: 0 <= i < n ==> ports[..n][i] == ports[i] && types[..n][i] == types[i];
    if prev.error.None? && step.Success? {
      assert Results(r.appended) == Results(prev.appended) + Results(step.value.appended);
      if !ResolveInput(ports[n]).FromConnectedNode? {
        assert Results(step.value.appended)[0] == VariableDeclaration(types[n], r.names[n]);
      }
    }
  }

  /** The result declarations of a list of instructions, in order. */
  function Results(instrs: seq<Instruction>): (r: seq<VariableDeclaration>)
    ensures |r| == |instrs| && forall i :: 0 <= i < |r| ==> r[i] == instrs[i].result
  {
    seq(|instrs|, i requires 0 <= i < |instrs| => instrs[i].result)
  }

  /**
   * The generators' input loop: each port resolved with its declared type, in port order; the first
   * exception ends the loop and is passed on.
   */
  method ResolveInputs<T>(ports: seq<Port>, types: seq<ShaderVariableType>, ctx: CodeGenContext,
                          portValue: (Node, string) -> T,
                          toConstant: (T, ShaderVariableType) -> Result<Expression, Exception>)
    returns (r: Result<seq<string>, Exception>)
    requires |ports| == |types|
    modifies ctx
    ensures var res := ResolveAll(ports, types, portValue, toConstant);
      && ctx.instructionSet == old(ctx.instructionSet) + res.appended
      && (res.error.None? ==> r == Success(res.names))
      && (res.error.Some? ==> r == Failure(res.error.value))
  {
    var names: seq<string> := [];
    ghost var appended: seq<Instruction> := [];
    var i := 0;
    while i < |ports|
      invariant 0 <= i <= |ports|
      invariant ResolveAll(ports[..i], types[..i], portValue, toConstant) == Resolution(names, appended, Option.None)
      invariant ctx.instructionSet == old(ctx.instructionSet) + appended
    {
      ghost var step := ResolveUntyped(ports[i], types[i], portValue, toConstant);
      ResolveAllStep(ports, types, portValue, toConstant, i, names, appended);
      var name := ResolveUntypedInput(ports[i], types[i], ctx, portValue, toConstant);
      if name.Failure? {
        return Failure(name.error);
      }
      names := names + [name.value];
      appended := appended + step.value.appended;
      i := i + 1;
    }
    assert ports[..i] == ports && types[..i] == types;
    r := Success(names);
  }

  /** A typed fallback in the shape the untyped resolution takes: the declared type is ignored. */
  function IgnoringType<T>(fallback: T -> Result<Expression, Exception>): (T, ShaderVariableType) -> Result<Expression, Exception> {
    (v, t) => fallback(v)
  }

  /** For a supported type the typed overload does what the untyped one does with that type's shader type. */
  lemma TypedIsUntyped<T>(port: Port, clrType: ClrType, portValue: (Node, string) -> T,
                          fallback: T -> Result<Expression, Exception>)
    requires ClrToShaderType(clrType).Some?
    ensures ResolveTyped(port, clrType, portValue, fallback)
         == ResolveUntyped(port, ClrToShaderType(clrType).value, portValue, IgnoringType(fallback))
  {
  }

  /** One port resolved with the typed overload, stated as the untyped resolution with the port's shader type. */
  method ResolveTypedAsUntyped<T>(port: Port, clrType: ClrType, variableType: ShaderVariableType, ctx: CodeGenContext,
                                  portValue: (Node, string) -> T, fallback: T -> Result<Expression, Exception>)
    returns (r: Result<string, Exception>)
    requires ClrToShaderType(clrType) == Some(variableType)
    modifies ctx
    ensures var res := ResolveUntyped(port, variableType, portValue, IgnoringType(fallback));
      && (res.Success? ==> r == Success(res.value.name) && ctx.instructionSet == old(ctx.instructionSet) + res.value.appended)
      && (res.Failure? ==> r == Failure(res.error) && ctx.instructionSet == old(ctx.instructionSet))
  {
    TypedIsUntyped(port, clrType, portValue, fallback);
    r := ResolveTypedInput(port, clrType, ctx, portValue, fallback);
  }

  /**
   * Ports resolved one after the other with the typed overload for one supported type: the same
   * effect as the untyped loop, every port declared with that type.
   */
  method ResolveTypedInputs<T>(ports: seq<Port>, types: seq<ShaderVariableType>, clrType: ClrType, ctx: CodeGenContext,
                               portValue: (Node, string) -> T, fallback: T -> Result<Expression, Exception>)
    returns (r: Result<seq<string>, Exception>)
    requires ClrToShaderType(clrType).Some? && |ports| == |types|
    requires forall i :: 0 <= i < |types| ==> types[i] == ClrToShaderType(clrType).value
    modifies ctx
    ensures var res := ResolveAll(ports, types, portValue, IgnoringType(fallback));
      && ctx.instructionSet == old(ctx.instructionSet) + res.appended
      && (res.error.None? ==> r == Success(res.names))
      && (res.error.Some? ==> r == Failure(res.error.value))
  {
    ghost var toConstant := IgnoringType(fallback);
    var names: seq<string> := [];
    ghost var appended: seq<Instruction> := [];
    var i := 0;
    while i < |ports|
      invariant 0 <= i <= |ports|
      invariant ResolveAll(ports[..i], types[..i], portValue, toConstant) == Resolution(names, appended, Option.None)
      invariant ctx.instructionSet == old(ctx.instructionSet) + appended
    {
      ghost var step := ResolveUntyped(ports[i], types[i], portValue, toConstant);
      ResolveAllStep(ports, types, portValue, toConstant, i, names, appended);
      assert ClrToShaderType(clrType) == Some(types[i]);
      var name := ResolveTypedAsUntyped(ports[i], clrType, types[i], ctx, portValue, fallback);
      if name.Failure? {
        return Failure(name.error);
      }
      names := names + [name.value];
      appended := appended + step.value.appended;
      i := i + 1;
    }
    assert ports[..i] == ports && types[..i] == types;
    r := Success(names);
  }

  /** The variable names the connected upstream nodes supply to the ports. */
  function ConnectedNames(ports: seq<Port>): set<string> {
    set i | 0 <= i < |ports| && ResolveInput(ports[i]).FromConnectedNode? :: ResolveInput(ports[i]).name
  }

  /** The variables a list of instructions declares. */
  function DeclaredNames(instrs: seq<Instruction>): set<string> {
    set i | 0 <= i < |instrs| :: instrs[i].result.name
  }

  /** Every name the resolution yields is supplied upstream or declared by what it appended. */
  lemma ResolvedNamesSupplied<T>(ports: seq<Port>, types: seq<ShaderVariableType>, portValue: (Node, string) -> T,
                                 toConstant: (T, ShaderVariableType) -> Result<Expression, Exception>)
    requires |ports| == |types|
    ensures forall i :: 0 <= i < |ResolveAll(ports, types, portValue, toConstant).names| ==>
      ResolveAll(ports, types, portValue, toConstant).names[i] in
        ConnectedNames(ports) + DeclaredNames(ResolveAll(ports, types, portValue, toConstant).appended)
  {
    var r := ResolveAll(ports, types, portValue, toConstant);
    ResolvedNamesDeclared(ports, types, portValue, toConstant);
    forall i | 0 <= i < |r.names|
      ensures r.names[i] in ConnectedNames(ports) + DeclaredNames(r.appended)
    {
      if !ResolveInput(ports[i]).FromConnectedNode? {
        var j :| 0 <= j < |r.appended| && Results(r.appended)[j] == VariableDeclaration(types[i], r.names[i]);
        assert r.appended[j].result.name == r.names[i];
      }
    }
  }

  /** Once a prefix of the ports has thrown, resolving more ports changes nothing. */
  lemma {:induction false} ResolveAllStops<T>(ports: seq<Port>, types: seq<ShaderVariableType>, portValue: (Node, string) -> T,
                                               toConstant: (T, ShaderVariableType) -> Result<Expression, Exception>, k: nat)
    requires |ports| == |types| && k <= |ports|
    requires ResolveAll(ports[..k], types[..k], portValue, toConstant).error.Some?
    ensures ResolveAll(ports, types, portValue, toConstant) == ResolveAll(ports[..k], types[..k], portValue, toConstant)
    decreases |ports| - k
  {
    if k < |ports| {
      var n := k + 1;
      assert ports[..n][..k] == ports[..k] && types[..n][..k] == types[..k];
      assert ResolveAll(ports[..n], types[..n], portValue, toConstant) == ResolveAll(ports[..k], types[..k], portValue, toConstant);
      ResolveAllStops(ports, types, portValue, toConstant, n);
    } else {
      assert ports[..k] == ports && types[..k] == types;
    }
  }
}

/**
 * The WriteTexture2D output node (Editor/Models/Nodes/WriteTexture2D.cs): it declares a writable
 * output texture and stores its colour input into the texel at the kernel's pixel coordinate.
 */
module WriteTexture {
  import opened Outcomes
  import opened Numerics
  import opened Text
  import opened IR
  import opened Contexts
  import opened CodeGenUtility
  import opened NodeCodeGen
  import opened LibraryContracts
  import opened ShaderLibraries
  import opened CompilerInlining
  import opened CompilerText

  /** The store target: the output texture indexed by the pixel coordinate built-in. */
  function StoreTarget(textureVar: string): string {
    textureVar + "[" + GetBuiltInVariableName(PixelCoordinate).value + "]"
  }

  /** The store: an untyped result named by the texel, set to the colour input's variable. */
  function StoreInstruction(textureVar: string, inputVar: string): Instruction {
    Instruction(VariableDeclaration(ShaderVariableType.None, StoreTarget(textureVar)), Some(Variable(inputVar)))
  }

  /** The fallback for an unconnected colour input: the float4 value written as an HLSL constant by formatColor. */
  function ColorFallback<T>(formatColor: T -> string): T -> Result<Expression, Exception> {
    v => Success(Constant(formatColor(v)))
  }

  /** The colour input port. */
  function ColorPort(self: Node, connection: Option<Endpoint>): Port {
    Port(Endpoint(self, "Color"), connection)
  }

  /** WriteTexture2D.GenerateCode as a value. */
  function WriteGeneration<T>(textureVar: string, self: Node, connection: Option<Endpoint>,
                              portValue: (Node, string) -> T, formatColor: T -> string): Generated
  {
    match ResolveTyped(ColorPort(self, connection), ClrFloat4, portValue, ColorFallback(formatColor))
    case Failure(e) => Generated([], Fail(e))
    case Success(input) => Generated(input.appended + [StoreInstruction(textureVar, input.name)], Pass)
  }

  /** The texel is the texture's variable indexed by "pixelCoordinate". */
  lemma StoreTargetText(textureVar: string)
    ensures StoreTarget(textureVar) == textureVar + "[pixelCoordinate]"
  {
    assert "[" + "pixelCoordinate" + "]" == "[pixelCoordinate]";
    assert textureVar + "[" + "pixelCoordinate" + "]" == textureVar + ("[" + "pixelCoordinate" + "]");
  }

  /**
   * The store's result has a name but no type, so it is invalid and never a constant the compiler
   * inlines; its expression is the input variable.
   */
  lemma StoreIsUntyped(textureVar: string, inputVar: string)
    ensures var store := StoreInstruction(textureVar, inputVar);
      && store.result.name == textureVar + "[pixelCoordinate]"
      && !store.result.IsValid()
      && !IsConstantDefinition(store)
      && store.expression == Some(Variable(inputVar))
  {
    StoreTargetText(textureVar);
  }

  /**
   * The node throws only when its colour input does, appending nothing; otherwise, after the
   * input's own instructions, it appends the store of the input into the texel.
   */
  lemma WriteGenerationFacts<T>(textureVar: string, self: Node, connection: Option<Endpoint>,
                                portValue: (Node, string) -> T, formatColor: T -> string)
    ensures var g := WriteGeneration(textureVar, self, connection, portValue, formatColor);
      var input := ResolveTyped(ColorPort(self, connection), ClrFloat4, portValue, ColorFallback(formatColor));
      && (g.outcome.Fail? <==> input.Failure?)
      && (g.outcome.Fail? ==> g.appended == [])
      && (g.outcome.Pass? ==>
            && g.appended[..|g.appended| - 1] == input.value.appended
            && g.appended[|g.appended| - 1] == StoreInstruction(textureVar, input.value.name))
  {
    var input := ResolveTyped(ColorPort(self, connection), ClrFloat4, portValue, ColorFallback(formatColor));
    if input.Success? {
      var last := StoreInstruction(textureVar, input.value.name);
      assert (input.value.appended + [last])[..|input.value.appended|] == input.value.appended;
    }
  }

  /**
   * The compiler as written turns the store into the bare statement "input;", dropping the texel it
   * was meant to write; with the store target kept, the statement assigns the input to the texel.
   */
  lemma StoreStatement(textureVar: string, inputVar: string)
    ensures StatementTextAsWritten(StoreInstruction(textureVar, inputVar)) == Success(Variable(inputVar).Emit(1) + ";" + "\n")
    ensures StatementText(StoreInstruction(textureVar, inputVar)).Success?
    ensures AssignsTo(StatementText(StoreInstruction(textureVar, inputVar)).value, textureVar + "[pixelCoordinate]", Variable(inputVar))
  {
    StoreIsUntyped(textureVar, inputVar);
    NamedResultsAreAssigned(StoreInstruction(textureVar, inputVar));
  }

  /** The node: its colour connection and the name Initialize gives its output texture. */
  class WriteTexture2DNode {
    const self: Node
    const colorConnection: Option<Endpoint>
    var textureVarName: string

    constructor (self: Node, colorConnection: Option<Endpoint>)
      ensures this.self == self && this.colorConnection == colorConnection && textureVarName == ""
    {
      this.self := self;
      this.colorConnection := colorConnection;
      textureVarName := "";
    }

    /** Declares the writable output texture under the next counter name with prefix "output". */
    method Initialize(library: ShaderLibrary) returns (ghost binding: BindingCallback)
      modifies this, library
      ensures fresh(binding)
      ensures textureVarName == VariableName("output", old(library.variableCounter))
      ensures library.variableCounter == WrappingIncrement(old(library.variableCounter))
      ensures library.variables == old(library.variables) + {ShaderVariableDeclaration(VariableDeclaration(RWTexture2D, textureVarName), binding)}
      ensures library.includedFiles == old(library.includedFiles) && library.definitions == old(library.definitions)
      ensures library.functions == old(library.functions)
    {
      var callback := new BindingCallback();
      binding := callback;
      textureVarName := library.AddVariable(RWTexture2D, "output", callback);
    }

    /** WriteTexture2D.GenerateCode, with the name Initialize stored. */
    method GenerateCode<T>(ctx: CodeGenContext, portValue: (Node, string) -> T, formatColor: T -> string)
      returns (r: Outcome<Exception>)
      modifies ctx
      ensures var g := WriteGeneration(textureVarName, self, colorConnection, portValue, formatColor);
        ctx.instructionSet == old(ctx.instructionSet) + g.appended && r == g.outcome
    {
      var inputVar := ResolveTypedInput(ColorPort(self, colorConnection), ClrFloat4, ctx, portValue, ColorFallback(formatColor));
      if inputVar.Failure? {
        return Fail(inputVar.error);
      }
      var pixelCoordinate := GetBuiltInVariableName(PixelCoordinate);
      ctx.AddInstruction(Instruction(VariableDeclaration(ShaderVariableType.None, textureVarName + "[" + pixelCoordinate.value + "]"),
                                     Some(Variable(inputVar.value))));
      r := Pass;
    }
  }
}

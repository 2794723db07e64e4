/**
 * The records a shader library stores: flag enums, parameter and function declarations, and
 * variable declarations with their binding callbacks (Editor/Contracts/IShaderLibrary.cs).
 */
module LibraryContracts {
  import opened Outcomes
  import opened IR

  /** FunctionFlag: None and Inlineable (bit 0). Any other int is a possible value as well. */
  const FunctionFlagNone: bv32 := 0
  const FunctionFlagInlineable: bv32 := 1

  /** ParameterModifier: None, In (bit 0), Out (bit 1) and InOut, their union. */
  const ModifierNone: bv32 := 0
  const ModifierIn: bv32 := 1
  const ModifierOut: bv32 := 2
  const ModifierInOut: bv32 := ModifierIn | ModifierOut

  /** Enum.HasFlag: every bit of flag is set in value. */
  predicate HasFlag(value: bv32, flag: bv32) {
    value & flag == flag
  }

  datatype ParameterDeclaration = ParameterDeclaration(shaderType: ShaderVariableType, modifier: bv32, name: string)

  /** A List<ParameterDeclaration> object: two lists are the same list only if they are the same object. */
  class ParamList {
    const items: seq<ParameterDeclaration>

    constructor (items: seq<ParameterDeclaration>)
      ensures this.items == items
    {
      this.items := items;
    }
  }

  /**
   * A function to emit into the shader. The struct's default equality compares the signature list
   * by reference, which datatype equality on a ParamList reference reproduces.
   */
  datatype FunctionDeclaration = FunctionDeclaration(name: string, code: string, signature: ParamList?,
                                                     returnType: ShaderVariableType, flags: bv32)

  /** Everything a reader of the declaration can observe: the signature list by content. */
  function FunctionContent(f: FunctionDeclaration): (string, string, Option<seq<ParameterDeclaration>>, ShaderVariableType, bv32) {
    (f.name, f.code, if f.signature == null then Option.None else Some(f.signature.items), f.returnType, f.flags)
  }

  /** Two declarations built from equal parts but separate lists are different set elements. */
  lemma SeparateListsAreDifferentFunctions(f: FunctionDeclaration, g: FunctionDeclaration)
    requires f.signature != null && g.signature != null && f.signature != g.signature
    ensures f != g
  {
  }

  /** An Action<ComputeShader, int, string> delegate; its effect on the compute shader is not modelled. */
  class BindingCallback {
    constructor ()
    {
    }
  }

  /** A global shader variable and the callback that binds its value before dispatch. */
  datatype ShaderVariableDeclaration = ShaderVariableDeclaration(declaration: VariableDeclaration, bindingCallback: BindingCallback?)

  /** GetHashCode is overridden to hash the declaration only. */
  function HashKey(v: ShaderVariableDeclaration): VariableDeclaration {
    v.declaration
  }

  /** Equal hashes do not make equal elements: the callback still takes part in equality. */
  lemma SameHashDifferentCallback(d: VariableDeclaration, a: BindingCallback?, b: BindingCallback?)
    requires a != b
    ensures HashKey(ShaderVariableDeclaration(d, a)) == HashKey(ShaderVariableDeclaration(d, b))
    ensures ShaderVariableDeclaration(d, a) != ShaderVariableDeclaration(d, b)
  {
  }
}

/**
 * The shader library: includes, definitions, global variables and functions shared by all kernels
 * of one compilation, plus the counter that numbers generated variable names
 * (Editor/CodeGen/ShaderLibrary.cs). The four hash sets are Dafny sets; their enumeration order is
 * left open.
 */
module ShaderLibraries {
  import opened Outcomes
  import opened Numerics
  import opened Text
  import opened IR
  import opened LibraryContracts
  import opened CodeGenUtility

  /** "{prefix}_var{n}". */
  function VariableName(prefix: string, n: nat): string {
    prefix + "_var" + NatToString(n)
  }

  /** A generated name determines both its prefix and its number. */
  lemma VariableNameInjective(p1: string, n1: nat, p2: string, n2: nat)
    requires VariableName(p1, n1) == VariableName(p2, n2)
    ensures p1 == p2 && n1 == n2
  {
    DigitSuffix(p1 + "_var", NatToString(n1), p2 + "_var", NatToString(n2));
    NatToStringInjective(n1, n2);
    assert p1 == (p1 + "_var")[..|p1|];
    assert p2 == (p2 + "_var")[..|p2|];
  }

  predicate AllDigits(s: string) {
    forall i :: 0 <= i < |s| ==> '0' <= s[i] <= '9'
  }

  /** A text ending in a non-digit followed by a run of digits splits there in only one way. */
  lemma DigitSuffix(a: string, da: string, b: string, db: string)
    requires |a| > 0 && |b| > 0 && !('0' <= a[|a| - 1] <= '9') && !('0' <= b[|b| - 1] <= '9')
    requires AllDigits(da) && AllDigits(db) && a + da == b + db
    ensures a == b && da == db
  {
    var s := a + da;
    assert s == b + db;
    assert forall i :: |a| <= i < |s| ==> s[i] == da[i - |a|];
    assert forall i :: |b| <= i < |s| ==> s[i] == db[i - |b|];
    assert s[|a| - 1] == a[|a| - 1] && s[|b| - 1] == b[|b| - 1];
    assert |a| == |b|;
    assert a == s[..|a|] == b;
    assert da == s[|a|..] == db;
  }

  /** Same-content function declarations: at most one element per content. */
  ghost predicate NoContentDuplicates(functions: set<FunctionDeclaration>) {
    forall f, g :: f in functions && g in functions && FunctionContent(f) == FunctionContent(g) ==> f == g
  }

  class ShaderLibrary {
    var includedFiles: set<string>
    var definitions: set<string>
    var variables: set<ShaderVariableDeclaration>
    var functions: set<FunctionDeclaration>
    var variableCounter: uint32

    constructor ()
      ensures includedFiles == {} && definitions == {} && variables == {} && functions == {}
      ensures variableCounter == 0
    {
      includedFiles := {};
      definitions := {};
      variables := {};
      functions := {};
      variableCounter := 0;
    }

    method AddDefinition(definition: string)
      modifies this
      ensures definitions == old(definitions) + {definition}
      ensures includedFiles == old(includedFiles) && variables == old(variables)
      ensures functions == old(functions) && variableCounter == old(variableCounter)
    {
      definitions := definitions + {definition};
    }

    method AddInclude(file: string)
      modifies this
      ensures includedFiles == old(includedFiles) + {file}
      ensures definitions == old(definitions) && variables == old(variables)
      ensures functions == old(functions) && variableCounter == old(variableCounter)
    {
      includedFiles := includedFiles + {file};
    }

    /** Declares a variable named after the prefix and the counter, which then advances (wrapping as a uint). */
    method AddVariable(shaderType: ShaderVariableType, namePrefix: string, bindingCallback: BindingCallback?) returns (name: string)
      modifies this
      ensures name == VariableName(namePrefix, old(variableCounter))
      ensures variableCounter == WrappingIncrement(old(variableCounter))
      ensures variables == old(variables) + {ShaderVariableDeclaration(VariableDeclaration(shaderType, name), bindingCallback)}
      ensures includedFiles == old(includedFiles) && definitions == old(definitions) && functions == old(functions)
    {
      name := VariableName(namePrefix, variableCounter);
      variableCounter := WrappingIncrement(variableCounter);
      variables := variables + {ShaderVariableDeclaration(VariableDeclaration(shaderType, name), bindingCallback)};
    }

    /** Declares a variable under exactly the given name; the counter is untouched. */
    method AddVariableExactName(shaderType: ShaderVariableType, name: string, bindingCallback: BindingCallback?) returns (r: string)
      modifies this
      ensures r == name
      ensures variables == old(variables) + {ShaderVariableDeclaration(VariableDeclaration(shaderType, name), bindingCallback)}
      ensures includedFiles == old(includedFiles) && definitions == old(definitions) && functions == old(functions)
      ensures variableCounter == old(variableCounter)
    {
      variables := variables + {ShaderVariableDeclaration(VariableDeclaration(shaderType, name), bindingCallback)};
      r := name;
    }

    /**
     * Declares the port's unique variable with a new binding closure. Each call makes a new closure,
     * so each call adds an element, even for a port already declared.
     */
    method AddPortVariable(shaderType: ShaderVariableType, port: Endpoint) returns (r: string, ghost binding: BindingCallback)
      modifies this
      ensures r == GetUniqueVariableName(port)
      ensures fresh(binding)
      ensures variables == old(variables) + {ShaderVariableDeclaration(VariableDeclaration(shaderType, r), binding)}
      ensures |variables| == |old(variables)| + 1
      ensures includedFiles == old(includedFiles) && definitions == old(definitions) && functions == old(functions)
      ensures variableCounter == old(variableCounter)
    {
      var name := GetUniqueVariableName(port);
      var callback := new BindingCallback();
      binding := callback;
      assert ShaderVariableDeclaration(VariableDeclaration(shaderType, name), callback) !in variables;
      r := AddVariableExactName(shaderType, name, callback);
    }

    /** A set insertion: by default struct equality, i.e. with the signature list compared by reference. */
    method AddFunction(declaration: FunctionDeclaration)
      modifies this
      ensures functions == old(functions) + {declaration}
      ensures includedFiles == old(includedFiles) && definitions == old(definitions) && variables == old(variables)
      ensures variableCounter == old(variableCounter)
    {
      functions := functions + {declaration};
    }

    /**
     * AddFunction with the declarations compared by content, so that a function registered again from
     * a new signature list is not emitted twice.
     */
    method AddFunctionByContent(declaration: FunctionDeclaration)
      modifies this
      ensures (exists g :: g in old(functions) && FunctionContent(g) == FunctionContent(declaration)) ==> functions == old(functions)
      ensures (forall g :: g in old(functions) ==> FunctionContent(g) != FunctionContent(declaration)) ==> functions == old(functions) + {declaration}
      ensures NoContentDuplicates(old(functions)) ==> NoContentDuplicates(functions)
      ensures includedFiles == old(includedFiles) && definitions == old(definitions) && variables == old(variables)
      ensures variableCounter == old(variableCounter)
    {
      var present := exists g :: g in functions && FunctionContent(g) == FunctionContent(declaration);
      if !present {
        functions := functions + {declaration};
      }
    }

    method Clear()
      modifies this
      ensures includedFiles == {} && definitions == {} && variables == {} && functions == {}
      ensures variableCounter == 0
    {
      includedFiles := {};
      definitions := {};
      variables := {};
      functions := {};
      variableCounter := 0;
    }
  }
}

# Texture Maker shader compiler and texture buffer, modelled in Dafny

This project models the core of the Texture Maker Unity editor extension. In that extension a
node graph is turned into an HLSL compute shader, or executed on the CPU over a float texture
buffer.

The model covers seven parts:

- **The code-generation context and utilities.** These cover unique variable names, built-in
  variable names, and how an input port's variable is found. A connected node's output is used
  directly; otherwise the port's own value is declared as a constant.
- **The instruction representation.** This covers shader variable types, variable declarations,
  the expression tree with its text emission, and the alias-chasing `Inline`.
- **The instruction compiler.** It inlines the constant and inlineable definitions of each kernel,
  then writes the compute shader text in a fixed order:
  1. the header and one pragma per kernel;
  2. the includes and the definitions;
  3. the `textureSize` declaration and the library's variables;
  4. the library's functions, whose templates are filled in by a model of .NET `string.Format`;
  5. one kernel per context, each with the built-in prelude and its statements.
- **The shader library.** It holds the include, definition, variable and function sets, and a
  wrapping counter for variable names.
- **The node code generators.** These are the math operator nodes (Add … Compare), Split, Combine,
  ColorSpaceConversion, SampleTexture2D, WriteTexture2D and BuiltInData, all over the
  multi-dimension port machinery.
- **The graph processor's dependency sort.** This is an iterative depth-first search with
  post-processing frames. It is proved to produce a topological order exactly when no circular
  dependency is reachable, and to throw otherwise.
- **The CPU side.** `TextureData` is a float buffer of width × height × channel-count lanes. It
  supports pixel reads and writes, copies, format conversion and disposal. `TextureProcessor`
  implements Brightness, Contrast and Shuffle as per-pixel loops, and Resize by copying or
  resampling into a new buffer.

Classes whose fields the source updates in place are Dafny classes:

- `CodeGenContext`, `ShaderLibrary`, `InstructionCompiler`;
- `MultiDimensionNode` and the node classes;
- `TextureMakerGraphProcessor`, `TextureData`, `TextureProcessor`.

The native float buffer is a Dafny `array<real>`. Pure computations are functions, and the loops
of the source are methods with invariants, each proved against a specification function.

C# exceptions are `Failure`/`Fail` values that carry the exception kind. C# enums that the source
switches on with a throwing default branch get an extra `Undefined` member, which stands for every
integer that names no member. Flag enums are `bv32` constants.

## Model

| member | source | states |
|---|---|---|
| Numerics.AsUInt32 | Editor/CodeGen/CodeGenUtility.cs:22 | the `(uint)` cast of an `int` keeps the value modulo 2^32 and leaves non-negative values unchanged |
| Numerics.AsUInt32Injective | Editor/CodeGen/CodeGenUtility.cs:22 | the cast loses nothing: distinct hash codes give distinct node ids |
| Numerics.WrappingIncrement | Editor/CodeGen/ShaderLibrary.cs:35 | the unchecked `uint` increment of the variable counter wraps 2^32 − 1 to 0 |
| Numerics.Int32Increment | Editor/CodeGen/InstructionCompiler.cs:207 | the unchecked `int` increment is the successor modulo 2^32 |
| Numerics.WrapInt32 | Editor/Models/TextureData.cs:42 | an unchecked `int` product is the mathematical value reduced into the int range, and equals it when it fits |
| Text.Indent | Editor/CodeGen/CodeGenUtility.cs:154-162 | indenting by a level prefixes exactly four spaces per level and keeps the text; level 0 is the identity |
| Text.Join | Editor/CodeGen/Expression.cs:212 | `string.Join`: empty for no parts, the part itself for one, separator between consecutive parts |
| Text.NatToString | Editor/CodeGen/CodeGenUtility.cs:34 | the decimal text of a number is non-empty, all digits, ends in its last decimal digit, and has one digit exactly below ten |
| Text.NatToStringInjective | Editor/CodeGen/CodeGenUtility.cs:34 | distinct numbers have distinct decimal texts |
| Contexts.GetBuiltInVariableName | Editor/CodeGen/CodeGenContext.cs:27-39 | each named built-in has its fixed name; an undefined value throws ArgumentOutOfRangeException |
| Contexts.BuiltInNamesDistinct | Editor/CodeGen/CodeGenContext.cs:27-39 | different built-ins are emitted under different names |
| Contexts.CodeGenContext.constructor | Editor/CodeGen/CodeGenContext.cs:22-25 | a new context has an empty instruction list |
| Contexts.CodeGenContext.AddInstruction | Editor/CodeGen/CodeGenContext.cs:41-44 | the instruction is appended at the end, the earlier ones unchanged |
| CodeGenUtility.GetNodeID | Editor/CodeGen/CodeGenUtility.cs:20-24 | the node id is the node's hash code reinterpreted as unsigned |
| CodeGenUtility.GetUniqueVariableName | Editor/CodeGen/CodeGenUtility.cs:31-35 | a port's variable name ends in an underscore followed by the port's name |
| CodeGenUtility.UniqueNamesOfOneNode | Editor/CodeGen/CodeGenUtility.cs:31-35 | two differently named ports of one node get different variable names |
| CodeGenUtility.UniqueVariableNameInjective | Editor/CodeGen/CodeGenUtility.cs:31-35 | for node type names without underscores the variable name determines the type name, the node id and the port name |
| CodeGenUtility.ResolveInput | Editor/CodeGen/CodeGenUtility.cs:44-57 | an unconnected port, or one connected to a constant or variable node, is read from its fallback at that port; otherwise the connected port's unique variable is used |
| CodeGenUtility.GetInputVariableName | Editor/CodeGen/CodeGenUtility.cs:44-57 | the name is the fallback's result for a fallback source and the connected variable otherwise |
| CodeGenUtility.ClrToShaderType | Editor/CodeGen/CodeGenUtility.cs:85-99 | exactly the float and vector CLR types map to a shader type, whose HLSL name matches the CLR type; bool and any other type map to none |
| CodeGenUtility.GetInputVariableNameTyped | Editor/CodeGen/CodeGenUtility.cs:68-108 | a connected input appends nothing; a fallback on a non-data node or of an unmapped type throws InvalidOperationException; otherwise the port's value is declared as a constant of the mapped type under the port's unique name |
| CodeGenUtility.GetInputVariableNameUntyped | Editor/CodeGen/CodeGenUtility.cs:120-145 | the same choice with the caller's variable type: a non-data fallback throws, a failing callback propagates, otherwise the callback's constant is declared |
| CodeGenUtility.GetOutputVariableName | Editor/Contracts/ICodeGenContext.cs:18 | the variable a node writes its output port to ends in an underscore and the port's name, and every input connected to that port reads exactly that variable unless the producer is a constant or variable node |
| CodeGenUtility.ConsumerReadsProducerOutput | Editor/CodeGen/CodeGenUtility.cs:44-57 | an input connected to a node that is neither a constant nor a variable resolves to the name the producer wrote its output to, whatever the fallback |
| IR.ToHLSLString | Editor/CodeGen/Instrcuction.cs:183-205 | only None and Void have no HLSL text; RWTexture2D is `RWTexture2D<float4>`; no type text contains a space |
| IR.ToHLSLStringInjective | Editor/CodeGen/Instrcuction.cs:183-205 | distinct types with text have distinct texts |
| IR.VariableDeclaration.ToShaderCode | Editor/CodeGen/Instrcuction.cs:35-49 | an invalid declaration prints nothing; a valid one prints its type, a space and its name, or just its name for a type without text |
| IR.CallArguments | Editor/CodeGen/Expression.cs:212-214 | in- and out-argument lists are joined by ", " and an empty side leaves no separator |
| IR.Expression.StripInlineable | Editor/CodeGen/Expression.cs:21-39 | the result contains no inlineable marker |
| IR.Expression.Inline | Editor/CodeGen/Expression.cs:61-81 | when alias chasing terminates, the inlined expression contains no inlineable marker and is normalized: no sequence has fewer than two elements and no call has an empty out-argument list (sequences of two or more stay nested) |
| ExpressionFacts.EmitAtLevel | Editor/CodeGen/Expression.cs:119-122 | for expressions that indent as a whole, emitting at level n is emitting at level 0 indented n times |
| ExpressionFacts.EmitIgnoresInlineable | Editor/CodeGen/Expression.cs:21-39 | the inlineable wrapper emits exactly its inner expression's text |
| ExpressionFacts.InlineTerminatesMonotone | Editor/CodeGen/Expression.cs:124-132 | if alias chasing ends with more names already on the chase path, it ends with fewer |
| ExpressionFacts.InlinePathIrrelevant | Editor/CodeGen/Expression.cs:124-132 | the chase path only bounds recursion: any two terminating paths give the same inlined result |
| ExpressionFacts.InlineChasesAlias | Editor/CodeGen/Expression.cs:124-132 | a variable in the table is replaced by its definition, inlined in turn |
| ExpressionFacts.InlineKeepsUnknownVariable | Editor/CodeGen/Expression.cs:124-132 | a variable not in the table is left as is |
| ExpressionFacts.SelfAliasDiverges | Editor/CodeGen/Expression.cs:124-132 | a name defined as itself makes the source recurse forever |
| ExpressionFacts.InlineFixesClean | Editor/CodeGen/Expression.cs:61-81 | a normalized expression (no sequence of fewer than two elements, no empty out-argument list) with no marker and no table key is unchanged by inlining |
| ExpressionFacts.InlineRemovesKeys | Editor/CodeGen/Expression.cs:124-132 | after inlining no non-empty table key is still referenced |
| ExpressionFacts.InlineIdempotent | Editor/CodeGen/Expression.cs:61-81 | with no empty name in the table, inlining twice is inlining once |
| ExpressionFacts.InlineNotIdempotentWithEmptyName | Editor/CodeGen/Expression.cs:65 | an empty sequence inlines to the null variable, which a table defining "" then replaces, so idempotence needs the empty name absent |
| ExpressionFacts.InlineDoesNotFold | Editor/CodeGen/Expression.cs:179-185 | inlining substitutes constants into a binary expression without evaluating it |
| CompilerInlining.InlineInTree | Editor/CodeGen/InstructionCompiler.cs:96-151 | the compiler's own inliner leaves no inlineable marker and no table key outside sequences, and keeps out-arguments only when there are some |
| CompilerInlining.InlineInExpression | Editor/CodeGen/InstructionCompiler.cs:96-151 | a missing expression stays missing; a present one loses its top-level marker and every table key outside sequences |
| CompilerInlining.ConstantTable | Editor/CodeGen/InstructionCompiler.cs:58-66 | the first pass's table has exactly the names of the constant definitions |
| CompilerInlining.InlineInstructions | Editor/CodeGen/InstructionCompiler.cs:56-94 | the two-pass loop computes the inlined instruction list, or reports the chase that would not end |
| CompilerInliningFacts.InlinedIsOrderedSelection | Editor/CodeGen/InstructionCompiler.cs:68-91 | the inlined list is an in-order selection of the instructions: each kept one has its result declaration unchanged, is not an inlineable definition and keeps having or lacking an expression; the list is no longer |
| CompilerInliningFacts.InlinePassRetainsInOrder | Editor/CodeGen/InstructionCompiler.cs:68-91 | the second pass from any table keeps a subsequence of the input in order |
| CompilerInliningFacts.RetainedInOrderNoLonger | Editor/CodeGen/InstructionCompiler.cs:68-91 | a list kept in order from another is no longer than it |
| CompilerInliningFacts.ConstantDefinitionsDropped | Editor/CodeGen/InstructionCompiler.cs:68-91 | no kept instruction defines a constant name, and no kept expression reads one outside sequences |
| CompilerInliningFacts.InlinePassSubstitutes | Editor/CodeGen/InstructionCompiler.cs:68-91 | the second pass drops the definitions of every table name and substitutes their uses |
| CompilerInliningFacts.StoresSurviveInlining | Editor/CodeGen/InstructionCompiler.cs:68-91 | the result-less store instructions come out unchanged and in the same order |
| CompilerInliningFacts.InlinePassKeepsStores | Editor/CodeGen/InstructionCompiler.cs:68-91 | the second pass from any table keeps the stores in order |
| CompilerInliningFacts.PassSkips | Editor/CodeGen/InstructionCompiler.cs:72-75 | a valid result whose name is in the table is skipped |
| CompilerInliningFacts.PassRecords | Editor/CodeGen/InstructionCompiler.cs:77-81 | an inlineable definition is recorded in the table and not emitted |
| CompilerInliningFacts.PassKeeps | Editor/CodeGen/InstructionCompiler.cs:83-90 | any other instruction is kept with its expression inlined against the current table |
| CompilerInliningFacts.SubstitutesWithoutFolding | Editor/CodeGen/InstructionCompiler.cs:56-94 | `a = 5; b = a + 3` compiles to `b = 5 + 3` |
| CompilerInliningFacts.SubstitutesIntoEarlierUse | Editor/CodeGen/InstructionCompiler.cs:58-66 | the constant table is built before the second pass, so a constant also replaces uses that come before its definition |
| CompilerInliningFacts.LaterConstantWins | Editor/CodeGen/InstructionCompiler.cs:58-66 | two constant definitions of one name leave the later value in the table |
| CompilerInliningFacts.InlineableAffectsOnlyLater | Editor/CodeGen/InstructionCompiler.cs:77-81 | an inlineable definition is substituted into later uses only |
| CompilerInliningFacts.InliningNotIdempotent | Editor/CodeGen/InstructionCompiler.cs:56-94 | a chain of aliases of a constant needs two runs to collapse fully |
| CompilerInliningFacts.InlinersAgreeWithoutSequences | Editor/CodeGen/InstructionCompiler.cs:96-151 | without sequences, the compiler's inliner and `Expression.Inline` give the same result |
| CompilerInliningFacts.InlinersDifferOnSequence | Editor/CodeGen/InstructionCompiler.cs:96-151 | on a sequence they differ: the compiler's inliner leaves it untouched, `Expression.Inline` substitutes inside it |
| CompilerText.ConcatMapResultFailurePersists | Editor/CodeGen/InstructionCompiler.cs:274-277 | once one element's text fails, the whole concatenation fails with that first error |
| CompilerText.ConcatMapResultSucceedsIff | Editor/CodeGen/InstructionCompiler.cs:274-277 | the concatenation succeeds exactly when every element's text does, and a failure is some element's error |
| CompilerText.ModifierKeyword | Editor/CodeGen/InstructionCompiler.cs:169-181 | the keyword is `inout`, `in`, `out` or nothing exactly as the In and Out flags are set |
| CompilerText.ModifierKeywords | Editor/CodeGen/InstructionCompiler.cs:169-181 | the four modifiers print their own keywords and other flag bits are ignored |
| CompilerText.ParameterTypeText | Editor/CodeGen/InstructionCompiler.cs:184-187 | a type without HLSL text prints as `void`, any other as its HLSL text |
| CompilerText.FunctionCode | Editor/CodeGen/InstructionCompiler.cs:153-203 | a function's code fails with FormatException exactly when it has parameters and its template does not format with their names |
| CompilerText.InlineKeywordIffFlag | Editor/CodeGen/InstructionCompiler.cs:197-202 | the function is emitted with `inline` exactly when its Inline flag is set |
| CompilerText.FunctionBodyPlacement | Editor/CodeGen/InstructionCompiler.cs:193-202 | the body is the template formatted with the parameter names, or verbatim without parameters, and closes the function's text |
| CompilerText.PreludeDeclaresDerivedBuiltIns | Editor/CodeGen/InstructionCompiler.cs:30-54 | the kernel prelude declares the `pixelCoordinate` and `uv` variables |
| CompilerText.KernelParameterNames | Editor/CodeGen/InstructionCompiler.cs:286 | the corrected kernel header has four parameters, named as the built-ins are emitted |
| CompilerText.GroupNamesNotParametersAsWritten | Editor/CodeGen/InstructionCompiler.cs:286 | as written, the GroupID and GroupThreadID built-ins are not among the kernel's parameter names |
| CompilerText.EveryBuiltInInScope | Editor/CodeGen/CodeGenContext.cs:27-39 | with the corrected header every defined built-in is a parameter or declared by the prelude |
| CompilerText.StatementTextAsWritten | Editor/CodeGen/InstructionCompiler.cs:296-306 | as written, a statement fails with NullReferenceException exactly when the instruction has no expression |
| CompilerText.StatementText | Editor/CodeGen/InstructionCompiler.cs:296-306 | corrected (finding 2): a statement fails with NullReferenceException exactly when the instruction has no expression |
| CompilerText.StatementOfFails | Editor/CodeGen/InstructionCompiler.cs:296-306 | as written and corrected alike, a statement fails, with NullReferenceException, exactly when the instruction has no expression |
| CompilerText.NamedResultsAreAssigned | Editor/CodeGen/InstructionCompiler.cs:298-305 | with the store fix, any instruction with a result name assigns its expression to that name |
| CompilerText.StatementTextAgreesOffStores | Editor/CodeGen/InstructionCompiler.cs:298-305 | the fix changes nothing for valid results or for instructions without a result name |
| CompilerText.StoreLostAsWritten | Editor/CodeGen/InstructionCompiler.cs:302-305 | as written, a texture store is emitted as the bare statement `input;` and assigns nothing |
| CompilerText.KernelsFailurePersists | Editor/CodeGen/InstructionCompiler.cs:281-310 | as written and corrected alike, the first kernel that fails decides the failure of the whole kernel section |
| CompilerText.KernelTextSucceedsIff | Editor/CodeGen/InstructionCompiler.cs:283-309 | as written and corrected alike, one kernel's text succeeds exactly when its slot holds a context, its inlining ends and every kept instruction has an expression |
| CompilerText.KernelsSucceedIff | Editor/CodeGen/InstructionCompiler.cs:281-310 | as written and corrected alike, the kernel section succeeds exactly when every kernel compiles: its context exists, its inlining ends and every statement has an expression |
| CompilerText.PragmaForEverySlot | Editor/CodeGen/InstructionCompiler.cs:232-236 | every kernel index below the context count has its `#pragma kernel` line |
| CompilerText.Section | Editor/CodeGen/InstructionCompiler.cs:239-256 | an empty set gives an empty section; a non-empty one starts with the section's lead |
| CompilerText.CompileSucceedsIff | Editor/CodeGen/InstructionCompiler.cs:225-313 | as written and corrected alike, compilation succeeds exactly when every function template formats and every kernel compiles, and a template failure is reported as FormatException |
| CompilerText.CompiledLayout | Editor/CodeGen/InstructionCompiler.cs:225-268 | as written and corrected alike, a compiled shader starts with the header and the pragmas, and `textureSize` heads the variable section exactly when there are variables |
| CompilerText.VariableSectionOpens | Editor/CodeGen/InstructionCompiler.cs:259-268 | the default `textureSize` declaration is emitted exactly when the library has variables |
| Formatting.DigitRun | Editor/CodeGen/InstructionCompiler.cs:194 | the leading run of decimal digits is maximal |
| Formatting.Format | Editor/CodeGen/InstructionCompiler.cs:194 | `string.Format` fails only with FormatException and returns brace-free text unchanged |
| Formatting.Escape | Editor/CodeGen/InstructionCompiler.cs:194 | escaping a literal for a template never shortens it |
| Formatting.FormatEscapeRoundTrip | Editor/CodeGen/InstructionCompiler.cs:194 | formatting an escaped text gives back the text, whatever the arguments |
| Formatting.FormatEscaped | Editor/CodeGen/InstructionCompiler.cs:194 | an escaped literal followed by any template formats to the literal followed by that template's result |
| Formatting.FormatLiteralChar | Editor/CodeGen/InstructionCompiler.cs:194 | a character other than a brace is copied |
| Formatting.FormatDoubledBrace | Editor/CodeGen/InstructionCompiler.cs:194 | a doubled brace prints one brace |
| Formatting.DigitsValueOfNatToString | Editor/CodeGen/InstructionCompiler.cs:194 | reading back a number's decimal text gives the number |
| Formatting.FormatPlaceholder | Editor/CodeGen/InstructionCompiler.cs:194 | `{i}` is replaced by the i-th argument, and an index past the arguments fails with FormatException |
| Formatting.FormatLiteral | Editor/CodeGen/InstructionCompiler.cs:194 | brace-free text is copied ahead of the rest of the template |
| Formatting.TemplateFormats | Editor/CodeGen/InstructionCompiler.cs:194 | a template of literal pieces and in-range placeholders formats to the pieces with the arguments filled in |
| InstructionCompilers.SectionsFollowLibrary | Editor/CodeGen/InstructionCompiler.cs:239-278 | a section's list is non-empty exactly when the library's set is |
| InstructionCompilers.GenerateFunctionCode | Editor/CodeGen/InstructionCompiler.cs:153-203 | the method's loop over the parameters builds the function's code |
| InstructionCompilers.BuiltInOrderText | Editor/CodeGen/InstructionCompiler.cs:30-54 | the built-in declarations in their fixed order, then a newline, are the prelude text |
| InstructionCompilers.GenerateBuiltInVariables | Editor/CodeGen/InstructionCompiler.cs:30-54 | the loop emits the prelude |
| InstructionCompilers.EnumerationSize | Editor/CodeGen/InstructionCompiler.cs:239-278 | a list walking a HashSet once per element is as long as the set |
| InstructionCompilers.AppendEach | Editor/CodeGen/InstructionCompiler.cs:242-245 | the loop appends the lines of all elements in order |
| InstructionCompilers.GeneratePreamble | Editor/CodeGen/InstructionCompiler.cs:227-268 | the header, pragma, include, definition and variable sections as specified |
| InstructionCompilers.GenerateSection | Editor/CodeGen/InstructionCompiler.cs:249-256 | one library section as specified |
| InstructionCompilers.GenerateFunctions | Editor/CodeGen/InstructionCompiler.cs:271-278 | the function section, failing with the first template error |
| InstructionCompilers.GenerateStatements | Editor/CodeGen/InstructionCompiler.cs:296-306 | the kernel statements as written (a typeless store comes out as its bare expression), failing at the first missing expression |
| InstructionCompilers.GenerateKernel | Editor/CodeGen/InstructionCompiler.cs:283-309 | one kernel's text as written, with the `groupId`/`groupThreadId` parameter names, failing for a missing context, for a chase that would not end, or for a missing expression |
| InstructionCompilers.KernelsSnoc | Editor/CodeGen/InstructionCompiler.cs:281-310 | appending one kernel extends a successful section by its text, or makes the whole section fail with its error |
| InstructionCompilers.InstructionCompiler.constructor | Editor/CodeGen/InstructionCompiler.cs:18-22 | a new compiler has no contexts and keeps the library |
| InstructionCompilers.InstructionCompiler.AddContext | Editor/CodeGen/InstructionCompiler.cs:205-218 | a negative index, or one whose increment overflows, throws ArgumentOutOfRangeException; otherwise the list grows to cover the index with null slots, the context goes at the index, and the other slots are kept |
| InstructionCompilers.InstructionCompiler.GetContext | Editor/CodeGen/InstructionCompiler.cs:220-223 | an index in range returns its slot; any other throws ArgumentOutOfRangeException |
| InstructionCompilers.InstructionCompiler.Compile | Editor/CodeGen/InstructionCompiler.cs:225-313 | the method returns the compiled text, as written, of its kernels over the library's contents |
| InstructionCompilers.InstructionCompiler.GenerateKernels | Editor/CodeGen/InstructionCompiler.cs:281-310 | the loop returns the kernel section, as written, of all slots |
| ShaderLibraries.VariableNameInjective | Editor/CodeGen/ShaderLibrary.cs:35 | a counter name `prefix_varN` determines its prefix and its number |
| ShaderLibraries.ShaderLibrary.constructor | Editor/CodeGen/ShaderLibrary.cs:11-16 | a new library is empty with counter 0 |
| ShaderLibraries.ShaderLibrary.AddDefinition | Editor/CodeGen/ShaderLibrary.cs:23-26 | the definition joins the definition set and nothing else changes |
| ShaderLibraries.ShaderLibrary.AddInclude | Editor/CodeGen/ShaderLibrary.cs:28-31 | the file joins the include set and nothing else changes |
| ShaderLibraries.ShaderLibrary.AddVariable | Editor/CodeGen/ShaderLibrary.cs:33-48 | returns `prefix_var` and the old counter, adds the declaration with its callback, and increments the counter with wrap-around |
| ShaderLibraries.ShaderLibrary.AddVariableExactName | Editor/CodeGen/ShaderLibrary.cs:50-63 | adds the declaration under exactly the given name and leaves the counter alone |
| ShaderLibraries.ShaderLibrary.AddPortVariable | Editor/CodeGen/ShaderLibrary.cs:65-107 | declares the port's unique variable name with a new binding and adds exactly one element |
| ShaderLibraries.ShaderLibrary.AddFunction | Editor/CodeGen/ShaderLibrary.cs:109-112 | the declaration joins the function set and nothing else changes |
| ShaderLibraries.ShaderLibrary.AddFunctionByContent | Editor/CodeGen/ShaderLibrary.cs:109-112 | the corrected registration adds a declaration only when no registered one has the same content, and so keeps contents unique |
| ShaderLibraries.ShaderLibrary.Clear | Editor/CodeGen/ShaderLibrary.cs:114-122 | all four sets are emptied and the counter is reset |
| LibraryContracts.ParamList.constructor | Editor/Contracts/IShaderLibrary.cs:40-47 | a parameter list is a reference holding the given items |
| LibraryContracts.SeparateListsAreDifferentFunctions | Editor/Contracts/IShaderLibrary.cs:40-47 | struct equality compares the parameter list by reference, so declarations over separate lists differ |
| LibraryContracts.SameHashDifferentCallback | Editor/Contracts/IShaderLibrary.cs:8-17 | variable declarations with different callbacks share a hash but are different set elements |
| MultiDimension.ComponentCount | Editor/Models/Nodes/MultiDimensionNode.cs:44-51 | the count lies between 1 and 4; an unnamed dimension counts 4 |
| MultiDimension.ToShaderVariableType | Editor/Models/Nodes/MultiDimensionNode.cs:65-75 | the value type is a float vector, float4 for an unnamed dimension |
| MultiDimension.ValueTypeMatchesComponentCount | Editor/Models/Nodes/MultiDimensionNode.cs:44-75 | the value type is the float vector with the dimension's component count |
| MultiDimension.ComponentCountInjective | Editor/Models/Nodes/MultiDimensionNode.cs:44-51 | named dimensions differ in component count |
| MultiDimension.Admitted | Editor/Models/Nodes/MultiDimensionNode.cs:91-105 | filtering never lengthens the declarations |
| MultiDimension.AdmittedFits | Editor/Models/Nodes/MultiDimensionNode.cs:77-105 | exactly the declarations whose target flags contain the node's dimension are kept |
| MultiDimension.AdmittedAll | Editor/Models/Nodes/MultiDimensionNode.cs:77-105 | when every declaration fits the dimension, all are kept in order |
| MultiDimension.PortDefinitions | Editor/Models/Nodes/MultiDimensionNode.cs:91-105 | one port per admitted declaration |
| MultiDimension.PortNamesDistinct | Editor/Models/Nodes/MultiDimensionNode.cs:91-105 | the ports' names, their positions, are distinct |
| MultiDimension.InputPortsOf | Editor/Models/Nodes/MultiDimensionNode.cs:91-97 | the i-th input port is named by its position and carries the i-th connection |
| MultiDimension.MultiDimensionNode.constructor | Editor/Models/Nodes/MultiDimensionNode.cs:110 | a new node has its dimension and no ports |
| MultiDimension.MultiDimensionNode.DefinePorts | Editor/Models/Nodes/MultiDimensionNode.cs:87-106 | the node's input and output ports are the admitted declarations' ports |
| MultiDimension.BuildPorts | Editor/Models/Nodes/MultiDimensionNode.cs:91-105 | the loop fills a new port array with the declarations' ports |
| NodeCodeGen.ResolveUntyped | Editor/CodeGen/CodeGenUtility.cs:120-145 | a resolved input either is the connected variable or is declared by the appended constant under the port's name and type |
| NodeCodeGen.ResolveTyped | Editor/CodeGen/CodeGenUtility.cs:68-108 | the typed lookup succeeds only for a mapped type or a connected input, and then declares the mapped type |
| NodeCodeGen.ResolveUntypedInput | Editor/CodeGen/CodeGenUtility.cs:120-145 | the method appends what the lookup appends and returns its name or its error |
| NodeCodeGen.ResolveTypedInput | Editor/CodeGen/CodeGenUtility.cs:68-108 | the method appends what the typed lookup appends and returns its name or its error |
| NodeCodeGen.ResolveAll | Editor/Models/Nodes/Math/MathOperatorNode.cs:23-31 | resolving the inputs in order gives one name per input, or stops at the first error |
| NodeCodeGen.ResolveAllSnoc | Editor/Models/Nodes/Math/MathOperatorNode.cs:23-31 | one more input extends a successful resolution by that input's lookup |
| NodeCodeGen.ResolveAllStops | Editor/Models/Nodes/Math/MathOperatorNode.cs:23-31 | an error in a prefix of the inputs is the error of the whole loop |
| NodeCodeGen.ResolvedNamesDeclared | Editor/Models/Nodes/Math/MathOperatorNode.cs:23-31 | every resolved name is the connected variable or declared by an appended instruction of that input's type |
| NodeCodeGen.ResolvedNamesSupplied | Editor/Models/Nodes/Math/MathOperatorNode.cs:23-31 | every resolved name is a connected variable or a name the loop itself declared |
| NodeCodeGen.ResolveInputs | Editor/Models/Nodes/Math/MathOperatorNode.cs:23-31 | the loop appends the resolution's instructions and returns its names or its error |
| NodeCodeGen.TypedIsUntyped | Editor/CodeGen/CodeGenUtility.cs:68-108 | for a mapped type the typed lookup is the untyped one with that type |
| NodeCodeGen.ResolveTypedAsUntyped | Editor/CodeGen/CodeGenUtility.cs:68-108 | the typed method behaves as the untyped lookup |
| NodeCodeGen.ResolveTypedInputs | Editor/Models/Nodes/Channel/Combine.cs:27-36 | the typed loop over several inputs appends and returns what the untyped resolution does |
| NodeCodeGen.Results | Editor/CodeGen/Instrcuction.cs:175-179 | the result declarations of the instructions, in order |
| BuiltInData.VariableTypeMatchesPort | Editor/Models/Nodes/BuiltInData.cs:10-25 | each built-in's output port type maps to the shader type it is declared with |
| BuiltInData.BuiltInGenerationFacts | Editor/Models/Nodes/BuiltInData.cs:32-56 | an undefined built-in throws and appends nothing; any other appends one instruction declaring the output port's variable as the built-in's name, which the corrected kernel header puts in scope |
| BuiltInData.GenerateCode | Editor/Models/Nodes/BuiltInData.cs:32-56 | the context grows by exactly that generation |
| MathNodes.InputDeclarations | Editor/Models/Nodes/Math/MathOperatorNode.cs:10-14 | one input per operand, each targeting the default dimensions |
| MathNodes.MathPortsAllAdmitted | Editor/Models/Nodes/Math/MathOperatorNode.cs:10-19 | every math node's ports fit every dimension |
| MathNodes.InputTypes | Editor/Models/Nodes/Math/MathOperatorNode.cs:26 | one type per operand |
| MathNodes.ComparisonOperator | Editor/Models/Nodes/Utility/Condition.cs:114-124 | an undefined comparison throws ArgumentOutOfRangeException |
| MathNodes.ComparisonOperatorsDistinct | Editor/Models/Nodes/Utility/Condition.cs:114-124 | different comparisons use different operators |
| MathNodes.FormOf | Editor/Models/Nodes/Utility/Condition.cs:93-127 | only an undefined Compare has no expression form, and every form fits its operator's arity |
| MathNodes.BuildExpression | Editor/Models/Nodes/Utility/Condition.cs:93-127 | building fails exactly for an undefined comparison |
| MathNodes.BuildExpressionText | Editor/Models/Nodes/Math/Basic.cs:6-69 | the built expression prints as its form filled with the input names |
| MathNodes.BuildExpressionMentions | Editor/Models/Nodes/Math/Advance.cs:6-170 | the expression reads exactly the input names |
| MathNodes.AssembleText | Editor/Models/Nodes/Math/Advance.cs:6-170 | an assembled form prints as its text |
| MathNodes.AssembleMentions | Editor/Models/Nodes/Math/Advance.cs:6-170 | an assembled form reads exactly its inputs |
| MathNodes.AddText | Editor/Models/Nodes/Math/Basic.cs:6-12 | Add prints `(a + b)` |
| MathNodes.PowerText | Editor/Models/Nodes/Math/Basic.cs:42-52 | Power prints `pow(a, b)` |
| MathNodes.NegateText | Editor/Models/Nodes/Math/Advance.cs:87-99 | Negate prints `( - a)` |
| MathNodes.PosterizeText | Editor/Models/Nodes/Math/Advance.cs:118-138 | Posterize prints `(floor((a * b)) / b)` |
| MathNodes.ConditionalText | Editor/Models/Nodes/Utility/Condition.cs:6-25 | Condition prints `a ? b : c` |
| MathNodes.LessEqualText | Editor/Models/Nodes/Utility/Condition.cs:93-127 | Compare with LessEqual prints `(a <= b)` |
| MathGeneration.ResultType | Editor/Models/Nodes/Math/MathOperatorNode.cs:16-19 | the corrected result type is the output port's declared type |
| MathGeneration.CompareResultTypeAsWritten | Editor/Models/Nodes/Math/MathOperatorNode.cs:38 | as written, a Compare node declares its result float4 while its port says bool |
| MathGeneration.ResultTypeAgreesOffCompare | Editor/Models/Nodes/Math/MathOperatorNode.cs:38 | the correction changes nothing except for Compare |
| MathGeneration.ResultInstruction | Editor/Models/Nodes/Math/MathOperatorNode.cs:33-41 | a built result instruction always carries an expression |
| MathGeneration.Finish | Editor/Models/Nodes/Math/MathOperatorNode.cs:33-41 | a successful node ends its output with an instruction that has an expression |
| MathGeneration.FinishFails | Editor/Models/Nodes/Math/MathOperatorNode.cs:21-42 | a node throws exactly when an input lookup throws or its comparison is undefined, keeping what the inputs appended |
| MathGeneration.FinishDeclaresOutput | Editor/Models/Nodes/Math/MathOperatorNode.cs:33-41 | corrected (finding 5): on success the last instruction declares the output port's variable with the port's type, as the operator's form over the input names |
| MathGeneration.FinishKeepsInputs | Editor/Models/Nodes/Math/MathOperatorNode.cs:21-42 | on success the inputs' instructions come first, then exactly one more |
| MathGeneration.FinishReadsInputs | Editor/Models/Nodes/Math/MathOperatorNode.cs:33-41 | the result reads only the resolved input names |
| MathGeneration.GenerationReadsDeclared | Editor/Models/Nodes/Math/MathOperatorNode.cs:21-42 | declare before use: the result reads only connected variables and the node's own earlier declarations |
| MathGeneration.GenerateCode | Editor/Models/Nodes/Math/MathOperatorNode.cs:21-42 | the context grows by exactly the node's generation and the outcome is that generation's |
| ChannelNodes.SplitOutputsAdmitted | Editor/Models/Nodes/Channel/Split.cs:13-19 | Split always has output R, and G, B and A as the dimension admits them |
| ChannelNodes.SplitOutputsPerComponent | Editor/Models/Nodes/Channel/Split.cs:13-19 | a named dimension gives exactly its first component-count outputs |
| ChannelNodes.ComponentInstructions | Editor/Models/Nodes/Channel/Split.cs:28-45 | one instruction per output component |
| ChannelNodes.ComponentInstructionsSnoc | Editor/Models/Nodes/Channel/Split.cs:28-45 | each loop turn appends the next component's instruction |
| ChannelNodes.ComponentsDeclareOutputPorts | Editor/Models/Nodes/Channel/Split.cs:28-45 | the i-th instruction declares the i-th output port's float variable as the i-th swizzle of the input |
| ChannelNodes.SplitDeclaresEveryOutput | Editor/Models/Nodes/Channel/Split.cs:21-46 | a successful Split declares every output port it has, after the input's own instructions |
| ChannelNodes.SplitOutputsDistinct | Editor/Models/Nodes/Channel/Split.cs:28-45 | the component variables have distinct names |
| ChannelNodes.ComponentsAreInlined | Editor/Models/Nodes/Channel/Split.cs:38 | every component is an inlineable constant that the compiler's table picks up |
| ChannelNodes.SplitGenerateCode | Editor/Models/Nodes/Channel/Split.cs:21-46 | the context grows by exactly Split's generation |
| ChannelNodes.AppendComponents | Editor/Models/Nodes/Channel/Split.cs:28-45 | the loop appends the component instructions |
| ChannelNodes.CombineInputPorts | Editor/Models/Nodes/Channel/Combine.cs:15-23 | Combine has four input ports |
| ChannelNodes.CombineInputsAreFloat | Editor/Models/Nodes/Channel/Combine.cs:15-23 | all four inputs are floats |
| ChannelNodes.CombineDeclaresOutput | Editor/Models/Nodes/Channel/Combine.cs:25-49 | Combine throws exactly when an input does; otherwise it declares its float4 output as `float4(r, g, b, a)` after the inputs' instructions |
| ChannelNodes.CombineReadsDeclared | Editor/Models/Nodes/Channel/Combine.cs:25-49 | the output reads only connected variables and the node's own declarations |
| ChannelNodes.CombineGenerateCode | Editor/Models/Nodes/Channel/Combine.cs:25-49 | the context grows by exactly Combine's generation |
| ColorSpace.RegisteredFunctionsCompile | Editor/Models/Nodes/Artistic/ColorSpaceConversion.cs:31-70 | both conversion functions' templates format with their two parameter names, and the two functions have different names |
| ColorSpace.TemplateCompiles | Editor/Models/Nodes/Artistic/ColorSpaceConversion.cs:31-70 | a template of literal pieces and placeholders 0 and 1 compiles over the two parameters |
| ColorSpace.InitializeAsWritten | Editor/Models/Nodes/Artistic/ColorSpaceConversion.cs:31-70 | as written, every Initialize adds both functions over a new parameter list |
| ColorSpace.TwoNodesDuplicateAsWritten | Editor/Models/Nodes/Artistic/ColorSpaceConversion.cs:68-69 | two nodes initialized as written leave four functions, two with the same content |
| ColorSpace.Initialize | Editor/Models/Nodes/Artistic/ColorSpaceConversion.cs:31-70 | corrected: both contents are present afterwards, nothing else is added, and contents stay unique |
| ColorSpace.FunctionName | Editor/Models/Nodes/Artistic/ColorSpaceConversion.cs:84-89 | an undefined conversion throws NotSupportedException |
| ColorSpace.CalledFunctionRegistered | Editor/Models/Nodes/Artistic/ColorSpaceConversion.cs:84-89 | the function a node calls is one Initialize registers, with two parameters |
| ColorSpace.ConversionGenerationFacts | Editor/Models/Nodes/Artistic/ColorSpaceConversion.cs:72-104 | the node throws exactly when its input does or the conversion is undefined; otherwise it declares its float4 output as the conversion call on the input and the alpha flag |
| ColorSpace.GenerateCode | Editor/Models/Nodes/Artistic/ColorSpaceConversion.cs:72-104 | the context grows by exactly the node's generation |
| SampleTexture.ToConstantExpr | Editor/Models/Nodes/SampleTexture2D.cs:39-52 | a constant results exactly when the boxed value's kind matches the port's type; otherwise InvalidOperationException, or NullReferenceException for a null value |
| SampleTexture.ConstantTexts | Editor/Models/Nodes/SampleTexture2D.cs:39-52 | booleans print as `true` or `false`, and vectors as their constructor over their components |
| SampleTexture.SamplerNamesDistinct | Editor/Models/Nodes/SampleTexture2D.cs:28-37 | a sampler's name never equals its texture's and determines it |
| SampleTexture.SuccessiveTexturesDistinct | Editor/Models/Nodes/SampleTexture2D.cs:28-37 | two nodes initialized in turn get different texture and sampler names |
| SampleTexture.SampleGenerationFacts | Editor/Models/Nodes/SampleTexture2D.cs:54-73 | the node throws exactly when its UV input does; otherwise it declares its float4 output as `tex.SampleLevel(sampler, uv, 0)` |
| SampleTexture.SampleTexture2DNode.constructor | Editor/Models/Nodes/SampleTexture2D.cs:28-37 | a new node has no texture or sampler name yet |
| SampleTexture.SampleTexture2DNode.Initialize | Editor/Models/Nodes/SampleTexture2D.cs:28-37 | declares the texture under the next `Input_var` name and its sampler as `sampler_` plus that name |
| SampleTexture.SampleTexture2DNode.GenerateCode | Editor/Models/Nodes/SampleTexture2D.cs:54-73 | the context grows by exactly the node's generation |
| WriteTexture.StoreIsUntyped | Editor/Models/Nodes/WriteTexture2D.cs:47-63 | the store's result is the texel `tex[pixelCoordinate]`, has no type, and is never a constant the compiler inlines |
| WriteTexture.WriteGenerationFacts | Editor/Models/Nodes/WriteTexture2D.cs:47-63 | the node throws exactly when its colour input does; otherwise it appends the store of the input into the texel |
| WriteTexture.StoreStatement | Editor/Models/Nodes/WriteTexture2D.cs:60 | as compiled, the store is the bare statement `input;`; with the fix it assigns the input to the texel |
| WriteTexture.WriteTexture2DNode.constructor | Editor/Models/Nodes/WriteTexture2D.cs:32-45 | a new node has no texture name yet |
| WriteTexture.WriteTexture2DNode.Initialize | Editor/Models/Nodes/WriteTexture2D.cs:32-45 | declares the writable output texture under the next `output_var` name |
| WriteTexture.WriteTexture2DNode.GenerateCode | Editor/Models/Nodes/WriteTexture2D.cs:47-63 | the context grows by exactly the node's generation |
| GraphProcessing.PortDependencies | Editor/TextureMakerGraphProcessor.cs:37-49 | the nodes behind the connected ports, and only those |
| GraphProcessing.Dependencies | Editor/TextureMakerGraphProcessor.cs:92-100 | a node's own dependency list when it has one, otherwise its connected peers, or none without ports |
| GraphProcessing.PathListedDescending | Editor/TextureMakerGraphProcessor.cs:52-113 | in a topological order every node on a path from the output is listed, strictly before the node it was reached from |
| GraphProcessing.ReachableListed | Editor/TextureMakerGraphProcessor.cs:52-113 | every node reachable from the output is listed |
| GraphProcessing.ReachableStep | Editor/TextureMakerGraphProcessor.cs:103-110 | following one executable dependency from a node reached from the output reaches another |
| GraphProcessing.ListsExactlyReachable | Editor/TextureMakerGraphProcessor.cs:87-110 | a topological order lists exactly the output and the executable nodes reached from it; no other node of the graph is included |
| GraphProcessing.ExpandReachable | Editor/TextureMakerGraphProcessor.cs:103-110 | after an expansion every frame on the stack holds a node reached from the output |
| GraphProcessing.NoOrderWithCycle | Editor/TextureMakerGraphProcessor.cs:52-113 | no topological order exists when a cycle is reachable |
| GraphProcessing.InitialState | Editor/TextureMakerGraphProcessor.cs:54-60 | the search starts from the output node's pre-processing frame |
| GraphProcessing.PostStep | Editor/TextureMakerGraphProcessor.cs:66-73 | a post-processing frame moves its node from visiting to visited and appends it to the order, keeping the search invariant |
| GraphProcessing.SkipStep | Editor/TextureMakerGraphProcessor.cs:82-85 | a visited node's pre-processing frame is dropped, keeping the invariant |
| GraphProcessing.CycleStep | Editor/TextureMakerGraphProcessor.cs:77-80 | meeting a node that is being visited means a cycle is reachable from the output |
| GraphProcessing.ExpandState | Editor/TextureMakerGraphProcessor.cs:87-110 | expanding a new node pushes its post frame, then its unvisited executable dependencies, keeping the invariant |
| GraphProcessing.FinalState | Editor/TextureMakerGraphProcessor.cs:62 | an empty stack leaves a topological order for the output |
| GraphProcessing.Unfinished | Editor/TextureMakerGraphProcessor.cs:106 | exactly the dependencies not visited yet that are executable |
| GraphProcessing.PushedFrames | Editor/TextureMakerGraphProcessor.cs:103-110 | pushing in reverse leaves the first dependency on top |
| GraphProcessing.PushDependencies | Editor/TextureMakerGraphProcessor.cs:103-110 | the loop pushes a pre-processing frame for every unfinished dependency, in reverse |
| GraphProcessing.PushedEdges | Editor/TextureMakerGraphProcessor.cs:103-110 | the pushed frames are edges of the graph, and every unvisited executable dependency is pushed |
| GraphProcessing.TextureMakerGraphProcessor.constructor | Editor/TextureMakerGraphProcessor.cs:21-26 | a new processor has no processed outputs |
| GraphProcessing.TextureMakerGraphProcessor.ProcessTopologicalOrder | Editor/TextureMakerGraphProcessor.cs:52-113 | succeeds exactly when no cycle is reachable, listing each node reached from the output through executable dependencies once, before its dependents, the output last and no other node; otherwise throws InvalidOperationException |
| GraphProcessing.TextureMakerGraphProcessor.BuildGraph | Editor/TextureMakerGraphProcessor.cs:115-127 | every processed output maps to a topological order of exactly the nodes it reaches; success exactly when no output reaches a cycle, and then every output is processed |
| GraphProcessing.OutputNodes | Editor/TextureMakerGraphProcessor.cs:121 | exactly the output nodes of the graph |
| TextureBuffers.ChannelCount | Editor/Models/TextureData.cs:86-96 | the supported formats have one to four channels; any other throws NotSupportedException |
| TextureBuffers.PixelIndexInBounds | Editor/Models/TextureData.cs:104-107 | an in-range pixel's lanes lie inside the buffer |
| TextureBuffers.ReadAfterWrite | Editor/Models/TextureData.cs:118-147 | reading a written pixel gives the value's first channel-count lanes, zero in the rest, and no other lane changes |
| TextureBuffers.QuarterRoundedUp | Editor/Models/TextureData.cs:177-196 | the packed length is the lane count divided by four, rounded up |
| TextureBuffers.GroupBytes | Editor/Models/TextureData.cs:177-196 | each packed float comes from four bytes |
| TextureBuffers.GroupBytesCover | Editor/Models/TextureData.cs:177-196 | every lane is quantized into its byte of its group, and the missing lanes of the last group are zero |
| TextureBuffers.Packed | Editor/Models/TextureData.cs:177-196 | the packed buffer has one float per group of four lanes |
| TextureBuffers.AllocationWrapsAsWritten | Editor/Models/TextureData.cs:42 | as written, 65536 × 65536 × 1 allocates a buffer of length 0, too small for its first pixel |
| TextureBuffers.AllocationLength | Editor/Models/TextureData.cs:42 | corrected: the length is width × height × channels when that fits an int, and an error otherwise |
| TextureBuffers.AllocationAgreesWithoutOverflow | Editor/Models/TextureData.cs:42 | the correction agrees with the code whenever the product fits |
| TextureBuffers.TextureData.Allocate | Editor/Models/TextureData.cs:38-46 | corrected (finding 6): a new texture, allocated only when the lane count fits an int, has its size and format, a zeroed buffer, and is not disposed |
| TextureBuffers.TextureData.GetIndex | Editor/Models/TextureData.cs:104-107 | an in-range pixel's index leaves room for its channels |
| TextureBuffers.TextureData.SetPixel | Editor/Models/TextureData.cs:118-128 | out of range throws and changes nothing; in range writes the pixel's lanes |
| TextureBuffers.TextureData.GetPixel | Editor/Models/TextureData.cs:131-147 | out of range throws; in range reads the pixel's lanes, padded with zeros |
| TextureBuffers.TextureData.MakeUniqueForWrite | Editor/Models/TextureData.cs:109-115 | a fresh texture with the same size, format and contents |
| TextureBuffers.TextureData.Convert | Editor/Models/TextureData.cs:167-206 | an unsupported target throws; RGBAFloat copies the lanes; the byte formats pack them four to a float |
| TextureBuffers.TextureData.PackBytes | Editor/Models/TextureData.cs:177-196 | the loop fills a fresh array with the packed buffer |
| TextureBuffers.TextureData.Dispose | Editor/Models/TextureData.cs:209-219 | the buffer is released once; disposing again releases nothing |
| TextureBuffers.NewTextureData | Editor/Models/TextureData.cs:38-46 | corrected (finding 6): an unsupported format throws NotSupportedException, a lane count beyond the int range fails, a negative one throws ArgumentOutOfRangeException; otherwise a fresh zeroed texture of the size |
| TextureProcessing.MappedPrefix | Editor/TextureProcessor.cs:18-27 | mapping the first pixels keeps the buffer's length |
| TextureProcessing.MappedLane | Editor/TextureProcessor.cs:18-27 | every lane of a mapped pixel is the function applied to the pixel as read |
| TextureProcessing.MappedBeyond | Editor/TextureProcessor.cs:18-27 | lanes past the mapped pixels are unchanged |
| TextureProcessing.KeepAlphaLane | Editor/TextureProcessor.cs:23-24 | a per-lane map that keeps alpha changes lanes 0–2 and leaves lane 3 |
| TextureProcessing.EveryLaneLane | Editor/TextureProcessor.cs:127 | a per-lane map applies to every lane |
| TextureProcessing.BrightnessLane | Editor/TextureProcessor.cs:15-28 | Brightness multiplies colour lanes by the value and keeps alpha |
| TextureProcessing.ContrastLane | Editor/TextureProcessor.cs:118-131 | Contrast maps every lane v to (v − 0.5) × value + 0.5 |
| TextureProcessing.Imm8Selects | Editor/TextureProcessor.cs:32 | the immediate byte's k-th field is the k-th requested index modulo four |
| TextureProcessing.ShuffleLane | Editor/TextureProcessor.cs:30-42 | a shuffled lane is the requested source lane of the same pixel, or zero past the channels |
| TextureProcessing.PixelNumbersDistinct | Editor/TextureProcessor.cs:70-71 | different pixels in range have different row-major numbers |
| TextureProcessing.Zeros | Editor/TextureProcessor.cs:56 | a zeroed buffer of the given length |
| TextureProcessing.FilledRow | Editor/TextureProcessor.cs:68-74 | filling a row keeps the buffer's length |
| TextureProcessing.FilledWindow | Editor/TextureProcessor.cs:66-75 | filling a window keeps the buffer's length |
| TextureProcessing.FilledRowLane | Editor/TextureProcessor.cs:68-74 | a filled row holds the source's pixels in its first columns and leaves every other lane |
| TextureProcessing.FilledWindowLane | Editor/TextureProcessor.cs:66-75 | a filled window holds the source's pixels inside and leaves every other lane |
| TextureProcessing.WindowSize | Editor/TextureProcessor.cs:64-65 | the shared size is the smaller size, or 0 for a non-positive old size |
| TextureProcessing.Cropped | Editor/TextureProcessor.cs:60-76 | the cropped buffer has the new size's length |
| TextureProcessing.CroppedLane | Editor/TextureProcessor.cs:60-76 | corrected (whole-pixel copy, finding 4): a lane of the new buffer is the old pixel's lane where both sizes share the pixel, and zero elsewhere |
| TextureProcessing.CropKeepsPixels | Editor/TextureProcessor.cs:60-76 | corrected copy: every shared pixel keeps all its lanes at its new index, and the rest is zero |
| TextureProcessing.Resampled | Editor/TextureProcessor.cs:77-112 | the resampled buffer has the new size's length |
| TextureProcessing.ResampledPixels | Editor/TextureProcessor.cs:77-112 | corrected (whole-pixel writes, as in finding 4): each lane of each pixel is the interpolated colour's lane |
| TextureProcessing.CopiedRowAsWritten | Editor/TextureProcessor.cs:68-74 | the copy as written keeps the buffer's length |
| TextureProcessing.CropLosesLanesAsWritten | Editor/TextureProcessor.cs:70-73 | as written, growing a 1×1 RGBA texture to 2×1 copies only lane 0, so the old pixel's alpha becomes 0; the corrected copy keeps it |
| TextureProcessing.VisitedPixels | Editor/TextureProcessor.cs:18-20 | the row-major loops visit width × height pixels when both sides are positive |
| TextureProcessing.TextureProcessor.constructor | Editor/TextureProcessor.cs:10-13 | the processor wraps the given texture |
| TextureProcessing.TextureProcessor.MapPixels | Editor/TextureProcessor.cs:18-27 | after the double loop every one of the width × height pixels holds the function applied to its old value, and every lane beyond is unchanged |
| TextureProcessing.TextureProcessor.Brightness | Editor/TextureProcessor.cs:15-28 | every pixel's colour lanes are scaled and its alpha kept |
| TextureProcessing.TextureProcessor.Shuffle | Editor/TextureProcessor.cs:30-42 | every pixel is shuffled by the immediate built from the four indices |
| TextureProcessing.TextureProcessor.Contrast | Editor/TextureProcessor.cs:118-131 | every pixel's lanes are contrasted around 0.5 |
| TextureProcessing.TextureProcessor.Resize | Editor/TextureProcessor.cs:44-116 | non-positive sizes throw ArgumentException, the same size is a no-op, and otherwise a new texture of the format is copied or resampled into and the old one disposed |
| TextureProcessing.TextureProcessor.Unimplemented | Editor/TextureProcessor.cs:133-136 | the declared but unimplemented operations throw NotImplementedException |
| TextureProcessing.MapRow | Editor/TextureProcessor.cs:20-26 | the inner loop maps the pixels of one row |
| TextureProcessing.MapOne | Editor/TextureProcessor.cs:22-25 | read, map and write one pixel: the next pixel of the prefix is mapped |
| TextureProcessing.CopyShared | Editor/TextureProcessor.cs:62-76 | corrected (whole-pixel copy, finding 4): the copy loops leave the cropped buffer |
| TextureProcessing.CopyRow | Editor/TextureProcessor.cs:68-74 | corrected (whole-pixel copy, finding 4): the inner loop fills one row's shared columns |
| TextureProcessing.FillResampled | Editor/TextureProcessor.cs:84-111 | corrected (whole-pixel writes, as in finding 4): the resampling loops leave the resampled buffer |
| TextureProcessing.ResampleRow | Editor/TextureProcessor.cs:86-110 | corrected (whole-pixel writes, as in finding 4): the inner loop fills one row with the interpolated colours |

## Left out

- Floating point: shader and texture floats are mathematical reals with no rounding, NaN or infinity. The HLSL text of a float, bilinear interpolation, byte quantization and four-byte packing are parameters of the model.
- Unity I/O:
  - the Texture2D constructor and ConvertToFloat;
  - `TextureData.Process` and `GetUnsafePtr`;
  - allocators and NativeArray safety checks;
  - the ComputeShader binding callbacks, modelled as opaque tokens;
  - WriteTexture2D's render-texture cleanup.
- `string.Format` alignment and format specifiers (`{0,5}`, `{0:F2}`) are not modelled; only plain indexed placeholders and doubled braces are.
- Port default values and display names; a port's current value is a parameter.
- HashSet enumeration order: the lists the compiler walks are one admissible order of the library's sets.
- ExecuteGraph and GenerateCodeOnly; TextureCodeGenerator is not part of this model.
- `CodeGenUtility.ToConstantExpr` is not part of this model; nodes receive it as a parameter.
- Node names that were never initialized are modelled as the empty string.
- The concrete CodeGenContext does not implement `GetOutputVariableName`; it is modelled as the port's unique variable name.
- The 30 unimplemented TextureProcessor operations share one member, `TextureProcessor.Unimplemented`, over an enumeration of them.
- Brightness, Shuffle and Contrast share one double loop (`MapPixels`) over a per-pixel function. The inner loops are separate methods (`MapRow`, `MapOne`, `CopyRow`, `ResampleRow`).
- The unused static `TextureData.PackBytes(byte, byte, byte, byte)` helper is the packing parameter.
- TextureProcessing.TextureProcessor.Resize: both branches are modelled with whole-pixel reads and writes, every lane of a pixel at that pixel's lane index. As written, Editor/TextureProcessor.cs indexes the float buffer by pixel number: the copy at lines 70-73 moves one float per pixel (finding 4, shown by `CropLosesLanesAsWritten`), and the resampling branch loads at pixel numbers (lines 96-99) and stores one float at line 109. The model does not reproduce the resampling defect.
- TextureProcessing.TextureProcessor.Resize: the new texture is allocated through `NewTextureData`, so a lane count beyond the int range fails where the source wraps (finding 6).
- TextureBuffers.NewTextureData: the lane count is computed in checked arithmetic (finding 6). As written, line 42 of Editor/Models/TextureData.cs wraps it: a wrapped count below zero throws ArgumentOutOfRangeException, and a wrapped count of zero or more allocates a buffer too small for the texture, which the model does not allocate. The model reports a count beyond the int range as OverflowException instead.
- TextureBuffers.TextureData.Allocate: it requires the checked lane count to fit an int, so it never builds the undersized buffer the wrapped count gives as written (finding 6).
- TextureProcessing.MappedPrefix: a pixel number past the buffer's end maps nothing. The loops never reach one.
- MathGeneration.GenerateCode: it declares the corrected result type, the output port's, rather than the node's value type (finding 5).
- Line breaks are `\n` throughout. The source's `AppendLine` writes `Environment.NewLine`, and its verbatim templates carry the source file's own line endings.
- The methods of `InstructionCompiler` follow the code as written. The corrected compiler of findings 1 and 2 exists only as the `Corrected` variant of the text functions, which the lemmas cover alongside the as-written one.
- CompilerInlining.InlineInstructions: a chase that would not end, where the source overflows its stack, is reported as a missing result.

## Findings

| source | as written | input that shows it | evidently intended | confidence | as-written member | corrected member |
|---|---|---|---|---|---|---|
| Editor/CodeGen/InstructionCompiler.cs:286 | the kernel parameters are `groupId` and `groupThreadId`, but the built-ins are emitted as `groupID` and `groupThreadID` (CodeGenContext.cs:32,34) | any BuiltInData node for GroupID or GroupThreadID reads a name the kernel never declares | the parameters carry the names the built-ins are emitted under | not executed | CompilerText.GroupNamesNotParametersAsWritten | CompilerText.EveryBuiltInInScope |
| Editor/CodeGen/InstructionCompiler.cs:302-305 | an instruction with a result name but no type is emitted as its bare expression | WriteTexture2D's store `output_var0[pixelCoordinate] = input` comes out as `input;` | the expression is assigned to the result name | not executed | CompilerText.StoreLostAsWritten | CompilerText.NamedResultsAreAssigned |
| Editor/Models/Nodes/Artistic/ColorSpaceConversion.cs:68-69 | each Initialize builds a new parameter list, and FunctionDeclaration equality compares that list by reference | two ColorSpaceConversion nodes register each conversion function twice, and the shader defines it twice | one registration per function content | not executed | ColorSpace.TwoNodesDuplicateAsWritten | ColorSpace.Initialize |
| Editor/TextureProcessor.cs:70-73 | the copy indexes floats by pixel number, moving one lane per pixel | resizing a 1×1 RGBA texture to 2×1 loses the old pixel's lanes 1–3 | copy every lane of every shared pixel | not executed | TextureProcessing.CropLosesLanesAsWritten | TextureProcessing.CropKeepsPixels |
| Editor/Models/Nodes/Math/MathOperatorNode.cs:38 | the result is declared with the node's value type | a Compare node declares its bool result as float4 | the output port's declared type | not executed | MathGeneration.CompareResultTypeAsWritten | MathGeneration.ResultTypeAgreesOffCompare |
| Editor/Models/TextureData.cs:42 | width × height × channels is computed in unchecked int | 65536 × 65536 × 1 allocates a buffer of length 0 | reject sizes whose lane count does not fit | not executed | TextureBuffers.AllocationWrapsAsWritten | TextureBuffers.AllocationLength |

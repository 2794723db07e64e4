/** The per-kernel instruction list and the built-in shader variables (Editor/CodeGen/CodeGenContext.cs). */
module Contexts {
  import opened Outcomes
  import opened IR

  /** The built-in kernel inputs; Undefined stands for any other value the enum can hold. */
  datatype BuiltInVariable = DispatchThreadID | GroupID | GroupIndex | GroupThreadID | PixelCoordinate | UV | Undefined

  /** The shader-side name of a built-in variable. */
  function GetBuiltInVariableName(v: BuiltInVariable): (r: Result<string, Exception>)
    ensures r.Failure? <==> v == Undefined
    ensures r.Failure? ==> r.error == ArgumentOutOfRangeException
    ensures v == DispatchThreadID ==> r == Success("dispatchThreadID")
    ensures v == GroupID ==> r == Success("groupID")
    ensures v == GroupIndex ==> r == Success("groupIndex")
    ensures v == GroupThreadID ==> r == Success("groupThreadID")
    ensures v == PixelCoordinate ==> r == Success("pixelCoordinate")
    ensures v == UV ==> r == Success("uv")
    ensures r.Success? ==> |r.value| > 0 && ' ' !in r.value
  {
    match v
    case DispatchThreadID => Success("dispatchThreadID")
    case GroupID => Success("groupID")
    case GroupIndex => Success("groupIndex")
    case GroupThreadID => Success("groupThreadID")
    case PixelCoordinate => Success("pixelCoordinate")
    case UV => Success("uv")
    case Undefined => Failure(ArgumentOutOfRangeException)
  }

  /** The six built-ins have six different names. */
  lemma BuiltInNamesDistinct(a: BuiltInVariable, b: BuiltInVariable)
    requires a != b && a != Undefined && b != Undefined
    ensures GetBuiltInVariableName(a).value != GetBuiltInVariableName(b).value
  {
  }

  /** The instructions one kernel accumulates while the graph generates code. */
  class CodeGenContext {
    var instructionSet: seq<Instruction>

    constructor ()
      ensures instructionSet == []
    {
      instructionSet := [];
    }

    /** Appends at the end, with no check for an instruction of the same name. */
    method AddInstruction(instruction: Instruction)
      modifies this
      ensures instructionSet == old(instructionSet) + [instruction]
    {
      instructionSet := instructionSet + [instruction];
    }
  }
}

/** Optional values, failing computations and the exceptions the C# code throws. */
module Outcomes {
  datatype Option<T> = None | Some(value: T)

  datatype Result<T, E> = Success(value: T) | Failure(error: E) {
    predicate IsFailure() { Failure? }
  }

  /** A computation that returns nothing but may fail. */
  datatype Outcome<E> = Pass | Fail(error: E)

  /** The .NET exception types the modelled code throws (a stack overflow ends the process instead). */
  datatype Exception =
    | ArgumentException
    | FormatException
    | StackOverflow
    | ArgumentOutOfRangeException
    | InvalidOperationException
    | NotSupportedException
    | NotImplementedException
    | NullReferenceException
    | ObjectDisposedException
    | OverflowException
}

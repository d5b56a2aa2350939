// Shared result types: a Java `null` becomes `None`, a thrown exception `Err`.
module Wrappers {

  datatype Option<T> = None | Some(value: T)

  /** The Java exceptions the modelled code throws. */
  datatype JavaException =
    | IllegalArgument
    | ArrayIndexOutOfBounds
    | IllegalAccess
    | UnsupportedOperation
    | Arithmetic
    | NullPointer
    | ClassCast

  datatype Result<T> = Ok(value: T) | Err(error: JavaException)

  /** Outcome of a `void` Java method: it returns normally or throws. */
  datatype Outcome = Done | Thrown(error: JavaException)
}

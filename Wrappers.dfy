/** Option and Result types shared by the model, and the Java exceptions the
    modelled code can raise, spelled out as values instead of being thrown. */
module Wrappers {

  /** A Java reference that may be null: `None` is null. */
  datatype Option<+T> = None | Some(value: T)

  /** The exceptions raised by the modelled code. */
  datatype JavaError =
    | IllegalArgument(message: string)
    | Arithmetic(message: string)
    | ClassCast
    | NullPointer
    | IndexOutOfBounds
    | NoSuchElement
    | Runtime(message: string)

  /** A call that either returns a value or throws. */
  datatype Result<+T> = Ok(value: T) | Err(error: JavaError)

  /** A call of a void method that either returns or throws. */
  datatype Outcome = Pass | Fail(error: JavaError)
}

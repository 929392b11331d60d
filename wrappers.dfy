/** Option and result types standing for Java's null returns and checked exceptions. */
module Wrappers {

  /** A value or its absence (a Java reference that may be null). */
  datatype Option<+T> = None | Some(value: T)

  /** The exception kinds raised by the vehicle and fleet operations. */
  datatype Error =
    | InvalidOperation   // bad argument or illegal transition
    | InsufficientFuel   // a move or fuel consumption needs more fuel than the tank holds
    | Overload           // a passenger or cargo capacity would be exceeded
    | IllegalArgument    // a vehicle id that is null or blank
    | NotFound           // a lookup by id that matches nothing

  /** The outcome of a `void` operation that may throw. */
  datatype Outcome = Pass | Fail(error: Error)

  /** The outcome of an operation that returns a value or throws. */
  datatype Result<+T> = Success(value: T) | Failure(error: Error)
}

/** Result types for Java calls that may return normally or throw. */
module Wrappers {

  datatype Option<+T> = None | Some(value: T)

  /** The unchecked exceptions the modelled code can raise; none of them is caught there. */
  datatype JavaException =
    | NumberFormatException
    | ArrayIndexOutOfBoundsException(index: nat)

  /** How a Java call ends: it returns a value, or an exception escapes from it. */
  datatype Run<+T> = Done(value: T) | Thrown(exception: JavaException)
}

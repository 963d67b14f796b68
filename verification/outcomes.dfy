/** Outcome types shared by the three containers.

    The containers signal an empty-container access with Python's `IndexError`;
    the list primitives they are built on raise the same exception for an index
    outside the list. Both are modelled as an `Err` value rather than an exception,
    and every operation that can fail also returns the state it leaves behind, so
    that "a failed call changes nothing" is a checkable statement.
 */
module Outcomes {

  /** The two reasons an `IndexError` is raised in the modelled code. */
  datatype Error = EmptyContainer | IndexOutOfRange

  /** The result of an operation that may raise `IndexError`. */
  datatype Result<T> = Ok(value: T) | Err(error: Error)

  /** Python's "a value or `None`", as the stack returns it. */
  datatype Option<T> = None | Some(value: T)

  /** A state transition: the container after the call and what the call returned. */
  datatype Step<S, R> = Step(after: S, out: R)
}

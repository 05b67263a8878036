/** Option values and error outcomes shared by every module. An operation
  * that would raise a Python exception returns `Raise`/`Err` carrying the
  * exception's class name, instead of requiring that it cannot happen. */
module Wrappers {

  datatype Option<T> = None | Some(value: T)
  {
    function GetOr(default: T): T
    {
      if Some? then value else default
    }
  }

  /** The outcome of a statement that returns nothing in Python. */
  datatype Outcome = Pass | Raise(error: string)
  {
    predicate IsFailure()
    {
      Raise?
    }

    function PropagateFailure(): Outcome
      requires IsFailure()
    {
      this
    }
  }

  /** The outcome of a Python call that returns a value or raises. */
  datatype Result<T> = Ok(value: T) | Err(error: string)
  {
    predicate IsFailure()
    {
      Err?
    }

    function PropagateFailure<U>(): Result<U>
      requires IsFailure()
    {
      Err(error)
    }

    function Extract(): T
      requires !IsFailure()
    {
      value
    }
  }
}

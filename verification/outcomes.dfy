/** Result shapes shared by both scanner models. */
module Outcomes {

  datatype Option<+T> = None | Some(value: T) {

    function GetOr(default: T): T {
      match this
      case Some(v) => v
      case None => default
    }
  }

  /** The outcome of a computation that may throw before touching any state. */
  datatype Result<+T, +E> = Ok(value: T) | Err(error: E) {

    predicate IsFailure() {
      Err?
    }

    function PropagateFailure<U>(): Result<U, E>
      requires Err?
    {
      Err(error)
    }

    function Extract(): T
      requires Ok?
    {
      value
    }
  }

  /** The outcome of a scanner operation. A JavaScript exception does not roll
      back what the method already did, so a thrown step still carries the
      scanner as the exception left it. */
  datatype Step<+T, +E, +S> = Done(out: T, after: S) | Threw(error: E, after: S)
}

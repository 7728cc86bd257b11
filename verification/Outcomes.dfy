/** A value or a failure. Every error the modelled code returns is a failure; its text is not modelled. */
module Outcomes {
  datatype Option<+T> = None | Some(value: T)

  datatype Outcome<+T> = Fail | Done(value: T)
  {
    predicate IsFailure() {
      Fail?
    }

    function PropagateFailure<U>(): Outcome<U>
      requires Fail?
    {
      Fail
    }

    function Extract(): T
      requires Done?
    {
      value
    }
  }
}

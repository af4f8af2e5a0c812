/** Small failure-compatible wrappers shared by the model. */
module Outcomes {

  /** A value that may be absent (a Go nil pointer or nil interface). */
  datatype Option<+T> = None | Some(value: T)

  /** The result of a parser step: a value, or a Go panic that unwinds every caller. */
  datatype Res<+T> = Ok(value: T) | Panic(msg: string) {
    predicate IsFailure() { Panic? }

    function PropagateFailure<U>(): Res<U>
      requires Panic?
    {
      Panic(msg)
    }

    function Extract(): T
      requires Ok?
    {
      value
    }
  }
}

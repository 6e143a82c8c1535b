/** Failure-compatible result and option types shared by the whole model.
    A JavaScript `throw new Error(msg)` becomes `Err(msg)`; a value that may be
    `undefined` becomes an `Option`. */
module Outcomes {

  datatype Option<+T> = None | Some(value: T)

  datatype Result<+T> = Ok(value: T) | Err(msg: string) {
    predicate IsFailure() { Err? }

    function PropagateFailure<U>(): Result<U>
      requires Err?
    {
      Err(msg)
    }

    function Extract(): T
      requires Ok?
    {
      value
    }
  }
}

/** Optional and fallible results shared by every module. */
module Outcomes {

  datatype Option<+T> = None | Some(value: T)

  /** The value a source function returns, or the CycloError it raises. */
  datatype Result<+T> = Ok(value: T) | Err(reason: string) {
    predicate IsFailure() { Err? }

    function PropagateFailure<U>(): Result<U>
      requires Err?
    {
      Err(reason)
    }

    function Extract(): T
      requires Ok?
    {
      value
    }
  }
}

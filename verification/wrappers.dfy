/** Option and Result, shared by every module; Result stands for the source's exceptions. */
module Wrappers {
  datatype Option<+T> = None | Some(value: T)

  /** The exceptions that the modelled code raises or passes on. */
  datatype Error =
    | ValueError
    | KeyError
    | ConnectionError
    | OverflowError
    | IncompleteReadError
    | BootstrapError

  datatype Result<+T> = Ok(value: T) | Err(error: Error) {
    predicate IsFailure() {
      Err?
    }

    function PropagateFailure<U>(): Result<U>
      requires Err?
    {
      Err(error)
    }

    function Extract(): T
      requires Ok?
    {
      value
    }
  }
}

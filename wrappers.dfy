/** Failure-carrying values shared by every module: the exceptions the
    framework raises become `Err` values instead of control flow. */
module Wrappers {

  datatype Option<+T> = None | Some(value: T)

  /** The exception kinds the modelled code raises or lets escape. */
  datatype Error =
    | FileNotFoundError
    | ValueError
    | TypeError
    | IndexError
    | IOError
    | ZeroDivisionError
    | AttributeError
    | StatisticsError
    | ImageReadError
    | NotFindElementError
    | SeldomException
    | IntegrityError
    | AssertionError(reason: string)

  datatype Result<+T> = Ok(value: T) | Err(error: Error) {
    predicate IsFailure() { Err? }
    function PropagateFailure<U>(): Result<U>
      requires Err?
    {
      Err(error)
    }
    function Extract(): T
      requires Ok?
    {
      value
    }
  }
}

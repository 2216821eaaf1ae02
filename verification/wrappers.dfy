/** Failure-carrying values: the exceptions and rejected promises of the driver
    become `Err` results, absent optional fields become `None`. */
module Wrappers {

  datatype Option<+T> = None | Some(value: T)

  /** The value of an operation that may throw; `error` is the thrown message. */
  datatype Result<+T> = Ok(value: T) | Err(error: string)

  /** The completion of an operation that returns nothing or throws. */
  datatype Outcome = Pass | Fail(error: string)
}

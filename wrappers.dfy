/** Failure-carrying results shared by the whole model. */
module Wrappers {

  datatype Option<T> = None | Some(value: T)

  /** The two kinds of exception the engine can meet: a date text that does
      not match its fixed format (Python's ValueError from strptime) and date
      arithmetic that leaves the years 1..9999 (Python's OverflowError). */
  datatype Error = Unparseable | Overflow

  datatype Result<T> = Success(value: T) | Failure(error: Error)
}

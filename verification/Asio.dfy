/** The vocabulary every model shares: optional values and Boost error codes. */
module Asio {

  datatype Option<+T> = None | Some(value: T)

  /** A `boost::system::error_code`. `Success` is the only one whose `value()` is zero. */
  datatype ErrorCode =
    | Success
    | OperationAborted
    | Eof
    | NotFound
    | InvalidResponse
    | SystemError(code: int)
}

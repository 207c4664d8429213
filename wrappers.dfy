/** Optional values, results, and the Python exceptions the modelled code raises. */
module Wrappers {

  datatype Option<+T> = None | Some(value: T)

  datatype Result<+R, +E> = Success(value: R) | Failure(error: E)

  /** The exception classes the modelled code raises or lets escape. */
  datatype ExceptionKind =
    | ValueError        // raised explicitly for bad configuration or input
    | GenericError      // `raise Exception(...)`
    | AttributeError    // `.get` / `.strip` applied to a JSON value of the wrong shape
    | OSError           // opening or reading a file
    | JSONDecodeError   // `response.json()` on a body that is not JSON
    | TransportError    // the HTTP client could not complete the request
    | ServiceError      // an exception from a remote SDK call

  /** A raised exception: its class and its `str(e)` text. */
  datatype Exception = Exception(kind: ExceptionKind, message: string)

  type Outcome<R> = Result<R, Exception>

  /** Python's truth test on an optional string: present and not empty. */
  predicate Present(v: Option<string>)
  {
    v.Some? && v.value != ""
  }
}

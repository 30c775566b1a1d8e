/**
 * Errors as the repository, the service and the HTTP layer exchange them.
 * Go's open `error` interface becomes a closed datatype: the three package
 * sentinels, an error built on the spot with errors.New, and an error that
 * wraps another one.
 */
module GoErrors {

  datatype Option<+T> = None | Some(value: T)

  datatype Error =
    | ErrUnexpected                       // repository sentinel
    | ErrNotFound                         // repository sentinel
    | ErrBadRequest                       // controller sentinel
    | Plain(text: string)                 // errors.New(text) at the point of failure
    | Wrapped(text: string, cause: Error) // an error whose Unwrap gives `cause`

  /** A Go result pair (value, err): the zero value goes with every error. */
  datatype Result<+T> = Ok(value: T) | Err(error: Error)

  /** What err.Error() returns. */
  function Message(e: Error): string
  {
    match e
    case ErrUnexpected => "unknown database error"
    case ErrNotFound => "record not found"
    case ErrBadRequest => "invalid body"
    case Plain(t) => t
    case Wrapped(t, _) => t
  }

  /** errors.Is for a sentinel target: `e` is the sentinel or wraps it somewhere down its chain. */
  predicate Is(e: Error, target: Error)
  {
    e == target || (e.Wrapped? && Is(e.cause, target))
  }
}

/** Go's `(value, error)` convention, as the repository uses it.

    Errors are built the way `github.com/pkg/errors` builds them: a root
    cause (`errors.New`, `fmt.Errorf`) and any number of wrapping contexts
    (`errors.Wrap(err, "context")`), whose text is `"context: " + inner`.
 */
module Errors {

  /** An optional value; `None` also stands for a nil `error`. */
  datatype Option<+T> = None | Some(value: T)

  /** A value or the error that replaced it. */
  datatype Result<+T> = Ok(value: T) | Fail(error: Error)

  datatype Error = Cause(msg: string) | Wrapped(context: string, inner: Error)

  /** The text `err.Error()` returns. */
  function Message(e: Error): (text: string)
  {
    match e
    case Cause(m) => m
    case Wrapped(c, inner) => c + ": " + Message(inner)
  }

  /** `errors.Wrap(err, context)`, applied only to a non-nil error, as every
      call site does. */
  function Wrap(err: Option<Error>, context: string): (r: Option<Error>)
  {
    match err
    case None => None
    case Some(e) => Some(Wrapped(context, e))
  }
}

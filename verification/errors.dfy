/**
 * The error values of the parser: the package's sentinels, the errors the
 * standard library returns, and `errors.Wrap` from github.com/pkg/errors,
 * kept structurally (the message text is not rendered).
 */
module Errors {
  import opened Values

  /** What a wrap adds in front of its cause. */
  datatype Context =
    | Text(text: string)   // `errors.Wrap(err, text)`
    | Shown(shown: Value)  // `errors.Wrapf(err, "%v", value)` / `"%d"`

  datatype Err =
    | BadFormat                         // ErrBadFormat
    | NotInScope                        // ErrNotInScope
    | EmptyValue                        // ErrEmptyValue (declared, never produced by the core)
    | UnknownMethod                     // ErrUnknownMethod
    | NumError(func: string, num: string)  // *strconv.NumError
    | InvalidSortField                  // errors.New("invalid sort field")
    | InvalidSortOrder                  // errors.New("sort order should be asc or desc")
    | Message(text: string)             // any other error a caller's validation function builds
    | Wrapped(context: Context, cause: Err)

  /** The innermost cause, as `errors.Cause` computes it. */
  function Root(e: Err): (r: Err)
    ensures !r.Wrapped?
  {
    if e.Wrapped? then Root(e.cause) else e
  }
}

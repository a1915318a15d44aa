/** What the other modules share: optional values, results, and how a service call commits its step. */
module Wrappers {

  /** An optional value: a Go pointer that may be nil, or a lookup that may miss. */
  datatype Option<+T> = None | Some(value: T)

  /** What a service call returns: a value, or the error it stops with. */
  datatype Result<+T, +E> = Success(value: T) | Failure(error: E)

  /** The value of an optional field of a patch, or what was there before. */
  function Or<T>(o: Option<T>, default: T): T {
    if o.Some? then o.value else default
  }

  /** The call returned `r` and left `after`, as the step from `before` says. */
  predicate Commits<S(==), E(==)>(step: Result<S, E>, before: S, after: S, r: Option<E>) {
    match step
    case Success(s) => after == s && r == None
    case Failure(e) => after == before && r == Some(e)
  }
}

/** Optional values and error-or-value results, standing in for Go's nil and
    its `(value, error)` return pairs. */
module Wrappers {

  datatype Option<+T> = None | Some(value: T)

  /** A daemon answer or a sweep result: a value, or the error that replaced it. */
  datatype Result<+T> = Ok(value: T) | Err(error: string)

  /** The error part of a `(value, error)` pair. */
  function ErrorOf<T>(r: Result<T>): (e: Option<string>)
    ensures e.None? <==> r.Ok?
    ensures r.Err? ==> e == Some(r.error)
  {
    match r
    case Ok(_) => None
    case Err(msg) => Some(msg)
  }
}

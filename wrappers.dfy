/** Optional values and results with an error, as used throughout the model. */
module Wrappers {

  /** A value that may be absent (JavaScript's null or undefined). */
  datatype Option<+T> = None | Some(value: T)

  /** The outcome of an operation that can fail (a thrown error) with an error value. */
  datatype Result<+R, +E> = Ok(value: R) | Err(error: E)

  /** The elements of an optional value, as a sequence of length zero or one. */
  function OptionToSeq<T>(o: Option<T>): (r: seq<T>)
    ensures |r| <= 1
    ensures o.Some? ==> r == [o.value]
    ensures o.None? ==> r == []
  {
    if o.Some? then [o.value] else []
  }
}

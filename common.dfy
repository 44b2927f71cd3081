/** Small failure-carrying datatypes shared by the ledger modules. */
module Common {

  /** An optional value; stands for a Java reference that may be null. */
  datatype Option<+T> = None | Some(value: T)

  /** The value of an option as a sequence of zero or one elements. */
  function Elements<T>(o: Option<T>): (s: seq<T>)
    ensures o.None? ==> s == []
    ensures o.Some? ==> s == [o.value]
  {
    if o.Some? then [o.value] else []
  }

  /** The result of an operation that either yields a value or fails with an error. */
  datatype Result<+T, +E> = Ok(value: T) | Err(error: E)

  /** The result of an operation that yields nothing on success. */
  datatype Outcome<+E> = Pass | Fail(error: E)
}

/** Values shared by every handler: the optional-value and result wrappers,
    the two error codes the handlers fail with, and JavaScript truthiness on
    the string inputs they test. */
module Common {

  /** Document ids and user ids are opaque strings. */
  type Id = string

  datatype Option<+T> = None | Some(value: T)

  /** `MissingParams` is the code thrown by a check that runs before a
      handler's `try` block; every failure raised inside the block is caught
      and re-thrown as `Unknown`. */
  datatype ErrorCode = MissingParams | Unknown

  /** A handler either succeeds with a value (the new store, possibly paired
      with what it returns to the caller) or fails with a code. A failure
      carries no store: a failed call leaves the store as it was. */
  datatype Result<+T> = Ok(value: T) | Err(error: ErrorCode)

  /** `!s` is false exactly for a non-empty string. An input field the caller
      left out is modelled as "", which JavaScript treats the same way. */
  predicate Truthy(s: string) {
    s != ""
  }

  /** Truthiness of a nullable string field (`firmID`, `auth.uid`, ...). */
  predicate Present(o: Option<string>) {
    o.Some? && Truthy(o.value)
  }

  /** The value of `x || ""` for an optional string input. */
  function OrEmpty(o: Option<string>): (r: string)
    ensures Present(o) ==> r == o.value
    ensures !Present(o) ==> r == ""
  {
    if o.Some? then o.value else ""
  }
}

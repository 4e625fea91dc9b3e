/** Wrappers shared by every module: an optional value, the exceptions the modelled code raises,
    a result that carries either a value or one of those exceptions, and the clock conversion. */
module Base {

  datatype Option<+T> = None | Some(value: T)

  /** The exceptions raised by the modelled code, named after what raises them. */
  datatype Error =
    | UnsupportedSchedulerVersion  // Exception("Unsupported scheduler version")
    | AbortSchemaMod               // AnkiError("abortSchemaMod"): the user declined a schema change
    | IndexError                   // a Python sequence index out of range
    | KeyError                     // a missing dictionary or configuration key
    | AttributeError               // an attribute read before anything assigned it
    | TypeError                    // subscripting None: a note type that does not exist
    | NotFound                     // a note that cannot be loaded
    | AssertionError               // a failed `assert`

  datatype Result<+T> = Ok(value: T) | Err(error: Error)

  /** Python's `int(x)` on a float: truncation toward zero. */
  function Trunc(x: real): (r: int)
    ensures 0.0 <= x ==> r as real <= x < r as real + 1.0
    ensures x < 0.0 ==> r as real - 1.0 < x <= r as real
  {
    if x >= 0.0 then x.Floor else -((-x).Floor)
  }

  /** `intTime(scale)`: the clock reading `now` (seconds) scaled and truncated to an integer. */
  function IntTime(now: real, scale: nat): int
  {
    Trunc(now * scale as real)
  }
}

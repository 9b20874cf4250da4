/** Vocabulary shared by every module: optional values, error codes, bytes and text. */
module Basics {

  datatype Option<+T> = None | Some(value: T)

  /** The public error codes of src/emosa/errors.py. */
  datatype Reason =
    | InvalidInput
    | UnsupportedOperation
    | SchemaMismatch
    | NotReady
    | OwnershipLost
    | PreconditionFailed
    | ApplyTimeout
    | OutcomeUnknown
    | MissingPrerequisite
    | Busy
    | NotFound

  /** A value, or the code of the EmosaError raised instead of returning one. */
  datatype Result<+T> = Ok(value: T) | Err(code: Reason) {
    predicate IsFailure() {
      Err?
    }

    function PropagateFailure<U>(): Result<U>
      requires Err?
    {
      Err(code)
    }

    function Extract(): T
      requires Ok?
    {
      value
    }
  }

  /** How an awaited call ends: a value, an EmosaError, or a ConnectionError/TimeoutError. */
  datatype Awaited<+T> = Returned(value: T) | Raised(code: Reason) | Broken

  type byte = b: int | 0 <= b < 256

  /** Text that the program encodes as UTF-8 is represented by its encoding. */
  type Bytes = seq<byte>

  function Ascii(s: string): Bytes
    requires forall i :: 0 <= i < |s| ==> s[i] as int < 128
  {
    seq(|s|, i requires 0 <= i < |s| => s[i] as int)
  }
}

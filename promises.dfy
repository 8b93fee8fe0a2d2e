/** JavaScript values the extension passes around: nullable values, errors,
    how a promise settles, and the `safe` convention that turns a settled
    promise into an `[error, value]` pair (scripts/util.ts). */
module Promises {

  /** A nullable JavaScript value: `None` stands for `null`/`undefined`. */
  datatype Option<+T> = None | Some(value: T)

  /** An `Error` object; only its message matters to the extension. */
  datatype Error = Error(message: string)

  /** What an `await` may throw: an `Error` object, or any other value,
      given here by its `String(...)` form. */
  datatype Thrown = ThrownError(error: Error) | ThrownValue(text: string)

  /** How a promise settles. */
  datatype Settled<+T> = Fulfilled(value: T) | Rejected(reason: Thrown)

  /** The message of the error that `safe` reports for a thrown value. */
  function MessageOf(t: Thrown): string
  {
    match t
    case ThrownError(e) => e.message
    case ThrownValue(text) => text
  }

  /** `safe(promise)`: `[null, data]` when the promise fulfils, otherwise
      `[error, null]`, where a thrown non-`Error` value becomes
      `new Error(String(value))`. */
  function Safe<T>(s: Settled<T>): (r: (Option<Error>, Option<T>))
    // exactly one side of the pair is present
    ensures r.0.Some? <==> r.1.None?
    ensures r.1.Some? <==> s.Fulfilled?
    ensures s.Fulfilled? ==> r.1.value == s.value
    // the thrown value is normalised to an Error that keeps its text
    ensures s.Rejected? ==> r.0.value.message == MessageOf(s.reason)
    ensures s.Rejected? && s.reason.ThrownError? ==> r.0.value == s.reason.error
  {
    match s
    case Fulfilled(v) => (None, Some(v))
    case Rejected(ThrownError(e)) => (Some(e), None)
    case Rejected(ThrownValue(text)) => (Some(Error(text)), None)
  }

  /** Rebuilds a settlement from a `safe` pair, as a caller that rethrows
      the reported error would. */
  function Unsafe<T>(pair: (Option<Error>, Option<T>)): Settled<T>
    requires pair.0.Some? <==> pair.1.None?
  {
    if pair.0.Some? then Rejected(ThrownError(pair.0.value)) else Fulfilled(pair.1.value)
  }

  /** `safe` loses nothing but the distinction between a thrown `Error`
      and a thrown value with the same text. */
  lemma SafeRoundTrip<T>(s: Settled<T>)
    ensures Unsafe(Safe(s)) == (if s.Fulfilled? then s else Rejected(ThrownError(Error(MessageOf(s.reason)))))
  {
  }
}

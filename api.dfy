/** The request layer (frontend/src/services/api.js): the response
    interceptor that turns every failed request into one user-facing
    message, and the upload progress percentage. */
module Api {
  import opened Js
  import Constants

  /** What the response interceptor can tell about a failed request. */
  datatype RequestError =
    | ServerResponded(errorField: Option<string>)  // `error.response` is set; `data?.error`
    | NoResponse                                   // `error.request` is set, no response
    | Other(message: Option<string>)               // neither: `error.message`

  /** The message of the `Error` the interceptor throws. */
  function InterceptError(e: RequestError): (message: string)
    ensures message != ""
  {
    match e
    case ServerResponded(field) => OrDefault(field, Constants.ServerError)
    case NoResponse => Constants.NetworkError
    case Other(m) => OrDefault(m, "An error occurred")
  }

  /** How a request settled at the transport, and what the caller sees
      after the interceptor. */
  datatype Settled<T> = Fulfilled(data: T) | Rejected(error: RequestError)
  datatype Outcome<T> = Ok(data: T) | Failed(message: string)

  function Intercept<T>(s: Settled<T>): Outcome<T> {
    match s
    case Fulfilled(d) => Ok(d)
    case Rejected(e) => Failed(InterceptError(e))
  }

  /** Successful responses pass through unchanged; every failure reaches
      the caller as a non-empty message, chosen by the error's shape: the
      server's `error` field, else the server-error text; the network-error
      text when nothing answered; otherwise the error's own message, else
      a generic one. */
  lemma InterceptSpec<T>(s: Settled<T>)
    ensures s.Fulfilled? ==> Intercept(s) == Ok(s.data)
    ensures s.Rejected? ==> Intercept(s).Failed? && Intercept(s).message != ""
    ensures s.Rejected? && s.error.ServerResponded? ==>
      Intercept(s).message == (if s.error.errorField.Some? && s.error.errorField.value != ""
                               then s.error.errorField.value else Constants.ServerError)
    ensures s.Rejected? && s.error.NoResponse? ==> Intercept(s).message == Constants.NetworkError
    ensures s.Rejected? && s.error.Other? ==>
      Intercept(s).message == (if s.error.message.Some? && s.error.message.value != ""
                               then s.error.message.value else "An error occurred")
  {
  }

  // ---------------------------------------------------------------------
  // onUploadProgress

  /** `Math.round(num / den)` for integers and a positive `den`: the
      nearest integer, halves rounded up. */
  function RoundHalfUp(num: int, den: int): int
    requires den > 0
  {
    (2 * num + den) / (2 * den)
  }

  /** The rounding is to the nearest integer: `r - 1/2 <= num/den < r + 1/2`. */
  lemma RoundHalfUpNearest(num: int, den: int)
    requires den > 0
    ensures 2 * den * RoundHalfUp(num, den) <= 2 * num + den < 2 * den * RoundHalfUp(num, den) + 2 * den
  {
    var d := 2 * den;
    var q := (2 * num + den) / d;
    assert 2 * num + den == d * q + (2 * num + den) % d;
  }

  /** The percentage `onUploadProgress` computes; None when `total` is
      0 or missing, where the handler returns early. */
  function UploadProgress(loaded: nat, total: nat): Option<int> {
    if total == 0 then None else Some(RoundHalfUp(loaded * 100, total))
  }

  /** A quotient between two multiples of the divisor rounds to a value
      between their factors. */
  lemma RoundHalfUpBetween(num: int, den: int, lo: int, hi: int)
    requires den > 0 && lo * den <= num <= hi * den
    ensures lo <= RoundHalfUp(num, den) <= hi
  {
    var p := RoundHalfUp(num, den);
    RoundHalfUpNearest(num, den);
    MulCancel(2 * den, p, hi + 1);
    MulCancel(2 * den, lo, p + 1);
  }

  /** Cancelling a positive factor from a strict inequality. */
  lemma MulCancel(c: int, a: int, b: int)
    requires c > 0 && c * a < c * b
    ensures a < b
  {
  }

  /** While no more than `total` bytes have been sent, the percentage lies
      in 0..100, and it is 100 once everything has been sent. */
  lemma UploadProgressBounds(loaded: nat, total: nat)
    requires 0 < total && loaded <= total
    ensures 0 <= UploadProgress(loaded, total).value <= 100
    ensures loaded == total ==> UploadProgress(loaded, total).value == 100
  {
    RoundHalfUpBetween(loaded * 100, total, 0, 100);
    if loaded == total {
      RoundHalfUpBetween(loaded * 100, total, 100, 100);
    }
  }

  /** More bytes sent never shows a smaller percentage. */
  lemma UploadProgressMonotone(loaded1: nat, loaded2: nat, total: nat)
    requires 0 < total && loaded1 <= loaded2
    ensures UploadProgress(loaded1, total).value <= UploadProgress(loaded2, total).value
  {
    var p1 := RoundHalfUp(loaded1 * 100, total);
    var p2 := RoundHalfUp(loaded2 * 100, total);
    RoundHalfUpNearest(loaded1 * 100, total);
    RoundHalfUpNearest(loaded2 * 100, total);
    MulCancel(2 * total, p1, p2 + 1);
  }
}

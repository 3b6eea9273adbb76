/** Values shared by every part of the signing-strategy model: optional values,
    the error kinds the strategies throw, and the per-call options object. */
module Common {

  /** A value that may be absent (`undefined` in the source). */
  datatype Option<+T> = None | Some(value: T)

  /** The kinds of exception that generate, verify and the constructors throw. */
  datatype Error =
    | AbstractClass      // `new BaseStrategy(...)` itself
    | AbstractMethod     // the base sign / validateSignature were reached
    | InvalidHeader      // the header segment is not the strategy's own
    | JwtExpired         // the clock is past the payload's exp
    | InvalidSignature   // the signature segment is not the recomputed one
    | MalformedPayload   // the payload segment is missing or does not decode to JSON
    | NullPayload        // the payload decodes to JSON null and reading its exp fails

  /** Either a value or the error that was thrown; usable with `:-`. */
  datatype Result<+T> = Success(value: T) | Failure(error: Error) {
    predicate IsFailure() {
      Failure?
    }

    function PropagateFailure<U>(): Result<U>
      requires Failure?
    {
      Failure(error)
    }

    function Extract(): T
      requires Success?
    {
      value
    }
  }

  /** The optional second argument of generate, verify and sign: a time-to-live
      in milliseconds and an HMAC secret, each of which may be absent. */
  datatype CallOptions = CallOptions(ttl: Option<int>, secret: Option<string>)

  /** The default `options = {}`. */
  const NoOptions := CallOptions(None, None)
}

/** The algorithm-agnostic strategy: the generate / verify protocol of a
    compact JWS (section 7.1 of RFC 7515) over a header fixed at construction,
    with signing delegated to the concrete binding. */
module BaseStrategy {
  import opened Common
  import opened Codec
  import opened Segments
  import Base64Url
  import Hs256

  /** How the concrete class fills in the two abstract methods. */
  datatype Binding =
    | Inherited                 // a subclass that overrides neither sign nor validateSignature
    | HmacSecret(secret: string) // HS256Strategy, holding its #secret

  /** The class that `new` is applied to. */
  datatype Target = BaseItself | Subclass(binding: Binding)

  /** The payload claim that generate stamps and verify checks. */
  const ExpKey := "exp"

  /** A caller's payload object; generate adds `exp` to it in place. */
  class Payload {
    var claims: map<string, Json>

    constructor (claims: map<string, Json>)
      ensures this.claims == claims
    {
      this.claims := claims;
    }
  }

  /** `payload.exp` where `now >` reads it: None when it is absent or NaN. */
  function ExpOf(payload: Json): Option<int> {
    if payload.JObj? && ExpKey in payload.fields then ToNumber(payload.fields[ExpKey]) else None
  }

  /** `now > payload.exp`. */
  predicate Expired(payload: Json, now: int) {
    ExpOf(payload).Some? && now > ExpOf(payload).value
  }

  /** The first segment of a token, which destructuring always yields. */
  function HeaderSegment(token: string): string {
    Split(token)[0]
  }

  /** The second and third segments, undefined when the token is too short. */
  function PayloadSegment(token: string): Option<string> {
    At(Split(token), 1)
  }

  function SignatureSegment(token: string): Option<string> {
    At(Split(token), 2)
  }

  /** `${b64uHeader}.${b64uPayload}`, rebuilt from the raw segments. */
  function UnsignedOf(token: string): string
    requires PayloadSegment(token).Some?
  {
    HeaderSegment(token) + "." + PayloadSegment(token).value
  }

  class Strategy {
    /** The runtime services the strategy calls into. */
    const platform: Platform
    /** `#ttl`, in milliseconds. */
    const ttl: int
    /** The header object the constructor was given; only its encoding is kept. */
    ghost const header: Json
    /** `#b64uHeader`. */
    const encodedHeader: string
    const binding: Binding

    /** The stored header is the encoding of the constructor's header. */
    ghost predicate Valid() {
      encodedHeader == ToString(platform, header)
    }

    /** `super(options)` from a subclass: stores ttl and the encoded header. */
    constructor Derived(platform: Platform, header: Json, ttl: int, binding: Binding)
      ensures Valid()
      ensures this.platform == platform && this.header == header && this.ttl == ttl
      ensures this.binding == binding
    {
      this.platform := platform;
      this.header := header;
      this.encodedHeader := ToString(platform, header);
      this.ttl := ttl;
      this.binding := binding;
    }

    /** `new HS256Strategy({ttl, secret})`: the HS256 header and the secret. */
    constructor Hs256Strategy(platform: Platform, ttl: int, secret: string)
      ensures Valid()
      ensures this.platform == platform && header == Hs256.Header && this.ttl == ttl
      ensures binding == HmacSecret(secret)
    {
      this.platform := platform;
      this.header := Hs256.Header;
      this.encodedHeader := ToString(platform, Hs256.Header);
      this.ttl := ttl;
      this.binding := HmacSecret(secret);
    }

    /** The BaseStrategy constructor: refuses to build the abstract class
        itself, and otherwise stores ttl and the encoded header. */
    static method New(platform: Platform, target: Target, header: Json, ttl: int) returns (r: Result<Strategy>)
      ensures r.Failure? <==> target.BaseItself?
      ensures r.Failure? ==> r.error == AbstractClass
      ensures r.Success? ==> fresh(r.value) && r.value.Valid()
      ensures r.Success? ==> r.value.platform == platform && r.value.header == header
      ensures r.Success? ==> r.value.ttl == ttl && r.value.binding == target.binding
    {
      if target.BaseItself? {
        return Failure(AbstractClass);
      }
      var s := new Strategy.Derived(platform, header, ttl, target.binding);
      return Success(s);
    }

    /** `sign`, dispatched to the binding: the base method throws; HS256 gives
        a single segment that carries the HMAC digest of the unsigned string. */
    function Sign(unsigned: string, options: CallOptions): (r: Result<string>)
      ensures r.Failure? <==> binding.Inherited?
      ensures r.Failure? ==> r.error == AbstractMethod
      ensures r.Success? ==> DotFree(r.value)
      ensures r.Success? ==> Base64Url.Decode(r.value)
                             == Some(platform.hmacSha256(Hs256.SecretFor(options, binding.secret), unsigned))
    {
      match binding
      case Inherited => Failure(AbstractMethod)
      case HmacSecret(secret) => Success(Hs256.Sign(platform, secret, unsigned, options))
    }

    /** `validateSignature`, dispatched to the binding: the base method throws;
        HS256 accepts exactly the signature `sign` computes with the same options. */
    function ValidateSignature(unsigned: string, candidate: Option<string>, options: CallOptions): (r: Result<bool>)
      ensures binding.Inherited? ==> r == Failure(AbstractMethod)
      ensures binding.HmacSecret? ==> (r.Success? <==> candidate == Some(Sign(unsigned, options).value))
      ensures binding.HmacSecret? && r.Failure? ==> r.error == InvalidSignature
      ensures r.Success? ==> r.value
    {
      match binding
      case Inherited => Failure(AbstractMethod)
      case HmacSecret(secret) => Hs256.ValidateSignature(platform, secret, unsigned, candidate, options)
    }

    /** `Date.now() + (options.ttl || this.#ttl)`: a per-call ttl overrides the
        stored one unless it is absent or 0. */
    function ExpFor(options: CallOptions, now: int): (exp: int)
      ensures options.ttl.None? || options.ttl == Some(0) ==> exp == now + ttl
      ensures options.ttl.Some? && options.ttl.value != 0 ==> exp == now + options.ttl.value
    {
      now + if options.ttl.Some? && options.ttl.value != 0 then options.ttl.value else ttl
    }

    /** The token generate returns for the already stamped claims: the stored
        header, the encoded payload and the binding's signature of the two,
        as three segments. */
    function TokenFor(claims: map<string, Json>, options: CallOptions): (r: Result<string>)
      requires Valid()
      ensures r.Failure? <==> binding.Inherited?
      ensures r.Failure? ==> r.error == AbstractMethod
      ensures r.Success? ==>
        var encodedPayload := ToString(platform, JObj(claims));
        Split(r.value) == [encodedHeader, encodedPayload, Sign(encodedHeader + "." + encodedPayload, options).value]
    {
      var unsigned := encodedHeader + "." + ToString(platform, JObj(claims));
      var signature :- Sign(unsigned, options);
      SplitThree(encodedHeader, ToString(platform, JObj(claims)), signature);
      Success(unsigned + "." + signature)
    }

    /** `generate`: stamps `exp` on the caller's payload object (every other
        claim is left as it was), then returns the signed token of the stamped
        payload. The payload is stamped even when signing then throws. */
    method Generate(payload: Payload, options: CallOptions, now: int) returns (r: Result<string>)
      requires Valid()
      modifies payload
      ensures payload.claims == old(payload.claims)[ExpKey := JNum(ExpFor(options, now))]
      ensures r == TokenFor(payload.claims, options)
    {
      var exp := ExpFor(options, now);
      payload.claims := payload.claims[ExpKey := JNum(exp)];
      var encodedPayload := ToString(platform, JObj(payload.claims));
      var unsigned := encodedHeader + "." + encodedPayload;
      var signature :- Sign(unsigned, options);
      r := Success(unsigned + "." + signature);
    }

    /** `validateHeader`: the header pin, by exact string equality. */
    function ValidateHeader(candidate: string): (r: Result<bool>)
      ensures r.Success? <==> candidate == encodedHeader
      ensures r.Failure? ==> r.error == InvalidHeader
      ensures r.Success? ==> r.value
    {
      if candidate == encodedHeader then Success(true) else Failure(InvalidHeader)
    }

    /** `validatePayload`: rejects only when the clock is strictly past `exp`;
        a payload of null throws on reading `exp`. */
    function ValidatePayload(payload: Json, now: int): (r: Result<bool>)
      ensures payload == JNull ==> r == Failure(NullPayload)
      ensures payload != JNull ==> (r.Success? <==> !Expired(payload, now))
      ensures payload != JNull && r.Failure? ==> r.error == JwtExpired
      ensures payload.JObj? && ExpKey in payload.fields && payload.fields[ExpKey].JNum? ==>
                (r.Success? <==> now <= payload.fields[ExpKey].n)
      ensures r.Success? ==> r.value
    {
      if payload == JNull then Failure(NullPayload)
      else if Expired(payload, now) then Failure(JwtExpired)
      else Success(true)
    }

    /** The payload segment of a token, decoded. */
    function DecodedPayload(token: string): Option<Json> {
      ToJson(platform, PayloadSegment(token))
    }

    /** `verify`: decodes the payload segment, then checks the header pin, then
        the expiry, then the signature over the raw segments, and returns the
        decoded payload when all three pass. */
    function Verify(token: string, options: CallOptions, now: int): (r: Result<Json>)
      ensures DecodedPayload(token).None? ==> r == Failure(MalformedPayload)
      ensures DecodedPayload(token).Some? ==>
                (r == Failure(InvalidHeader) <==> HeaderSegment(token) != encodedHeader)
      ensures DecodedPayload(token).Some? && HeaderSegment(token) == encodedHeader ==>
                && (DecodedPayload(token) == Some(JNull) ==> r == Failure(NullPayload))
                && (Expired(DecodedPayload(token).value, now) ==> r == Failure(JwtExpired))
      ensures r.Success? <==>
                && DecodedPayload(token).Some?
                && HeaderSegment(token) == encodedHeader
                && DecodedPayload(token) != Some(JNull)
                && !Expired(DecodedPayload(token).value, now)
                && ValidateSignature(UnsignedOf(token), SignatureSegment(token), options).Success?
      ensures && DecodedPayload(token).Some?
              && HeaderSegment(token) == encodedHeader
              && DecodedPayload(token) != Some(JNull)
              && !Expired(DecodedPayload(token).value, now)
              && r.Failure?
              ==> r.error == ValidateSignature(UnsignedOf(token), SignatureSegment(token), options).error
      ensures r.Success? ==> DecodedPayload(token) == Some(r.value)
      ensures r.Failure? && binding.HmacSecret? ==> r.error != AbstractMethod
    {
      var b64uHeader, b64uPayload, signature := HeaderSegment(token), PayloadSegment(token), SignatureSegment(token);
      match ToJson(platform, b64uPayload)
      case None => Failure(MalformedPayload)
      case Some(payload) =>
        var unsigned := b64uHeader + "." + b64uPayload.value;
        var headerOk :- ValidateHeader(b64uHeader);
        var payloadOk :- ValidatePayload(payload, now);
        var signatureOk :- ValidateSignature(unsigned, signature, options);
        Success(payload)
    }
  }

  /** A token from generate splits back into the segments it was built from,
      so verify rebuilds exactly the unsigned string that was signed. */
  lemma GeneratedTokenSegments(s: Strategy, claims: map<string, Json>, options: CallOptions)
    requires s.Valid() && s.binding.HmacSecret?
    ensures var encodedPayload := ToString(s.platform, JObj(claims));
            var token := s.TokenFor(claims, options);
            && token.Success?
            && HeaderSegment(token.value) == s.encodedHeader
            && PayloadSegment(token.value) == Some(encodedPayload)
            && UnsignedOf(token.value) == s.encodedHeader + "." + encodedPayload
            && SignatureSegment(token.value) == Some(s.Sign(UnsignedOf(token.value), options).value)
  {
  }

  /** Verifying a generated token: it fails with JwtExpired once the clock is
      past the stamped exp; before that it returns the stamped payload exactly
      when the verifying secret gives the same HMAC digest, and fails with
      InvalidSignature otherwise. */
  lemma {:induction false} GenerateThenVerify(s: Strategy, claims: map<string, Json>, signing: CallOptions,
                                              verifying: CallOptions, now: int, later: int)
    requires s.Valid() && ParseInvertsStringify(s.platform) && s.binding.HmacSecret?
    ensures var exp := s.ExpFor(signing, now);
            var stamped := claims[ExpKey := JNum(exp)];
            var unsigned := s.encodedHeader + "." + ToString(s.platform, JObj(stamped));
            var token := s.TokenFor(stamped, signing);
            && token.Success?
            && s.Verify(token.value, verifying, later) ==
                 if later > exp then Failure(JwtExpired)
                 else if s.platform.hmacSha256(Hs256.SecretFor(verifying, s.binding.secret), unsigned)
                         == s.platform.hmacSha256(Hs256.SecretFor(signing, s.binding.secret), unsigned)
                 then Success(JObj(stamped))
                 else Failure(InvalidSignature)
  {
    var exp := s.ExpFor(signing, now);
    var stamped := claims[ExpKey := JNum(exp)];
    var unsigned := s.encodedHeader + "." + ToString(s.platform, JObj(stamped));
    var token := s.TokenFor(stamped, signing).value;
    GeneratedTokenSegments(s, stamped, signing);
    assert s.DecodedPayload(token) == Some(JObj(stamped));
    assert ExpOf(JObj(stamped)) == Some(exp);
    Hs256.SignaturesAgreeIffDigestsAgree(s.platform, s.binding.secret, unsigned, verifying,
                                         s.binding.secret, unsigned, signing);
  }

  /** The round trip: with the same effective secret (a per-call override
      included), a generated token verifies to the stamped payload at any time
      up to and including its exp. */
  lemma RoundTrip(s: Strategy, claims: map<string, Json>, signing: CallOptions,
                  verifying: CallOptions, now: int, later: int)
    requires s.Valid() && ParseInvertsStringify(s.platform) && s.binding.HmacSecret?
    requires Hs256.SecretFor(verifying, s.binding.secret) == Hs256.SecretFor(signing, s.binding.secret)
    requires later <= s.ExpFor(signing, now)
    ensures var stamped := claims[ExpKey := JNum(s.ExpFor(signing, now))];
            s.Verify(s.TokenFor(stamped, signing).value, verifying, later) == Success(JObj(stamped))
  {
    GenerateThenVerify(s, claims, signing, verifying, now, later);
  }

  /** verify reads only the first three segments: whatever follows a third
      dot changes nothing, so a token with extra segments is not rejected for
      them. */
  lemma ExtraSegmentsIgnored(s: Strategy, h: string, p: string, c: string, rest: string,
                             options: CallOptions, now: int)
    requires DotFree(h) && DotFree(p) && DotFree(c)
    ensures s.Verify(h + "." + p + "." + c + "." + rest, options, now) == s.Verify(h + "." + p + "." + c, options, now)
  {
    var long, short := h + "." + p + "." + c + "." + rest, h + "." + p + "." + c;
    SplitThreeThen(h, p, c, rest);
    SplitThree(h, p, c);
    assert HeaderSegment(long) == HeaderSegment(short);
    assert PayloadSegment(long) == PayloadSegment(short);
    assert SignatureSegment(long) == SignatureSegment(short);
  }

  /** A token whose header segment encodes any other header fails the header
      pin, whatever its expiry and signature, once its payload decodes. */
  lemma ForeignHeaderRejected(verifier: Strategy, token: string, other: Json, options: CallOptions, now: int)
    requires verifier.Valid() && ParseInvertsStringify(verifier.platform)
    requires other != verifier.header
    requires HeaderSegment(token) == ToString(verifier.platform, other)
    requires verifier.DecodedPayload(token).Some?
    ensures verifier.Verify(token, options, now) == Failure(InvalidHeader)
  {
    ToStringInjective(verifier.platform, other, verifier.header);
  }

  /** An HS256 token fails the header pin of a strategy configured with the
      RS256 header, and a token carrying the RS256 header fails the header pin
      of an HS256 strategy. */
  lemma CrossAlgorithmRejected(hs: Strategy, rs: Strategy, claims: map<string, Json>,
                               signing: CallOptions, rsToken: string, options: CallOptions, now: int)
    requires hs.Valid() && rs.Valid() && hs.platform == rs.platform
    requires ParseInvertsStringify(hs.platform)
    requires hs.header == Hs256.Header && hs.binding.HmacSecret? && rs.header == Hs256.Rs256Header
    requires HeaderSegment(rsToken) == rs.encodedHeader && hs.DecodedPayload(rsToken).Some?
    ensures rs.Verify(hs.TokenFor(claims, signing).value, options, now) == Failure(InvalidHeader)
    ensures hs.Verify(rsToken, options, now) == Failure(InvalidHeader)
  {
    Hs256.HeadersDiffer(hs.platform);
    var token := hs.TokenFor(claims, signing).value;
    GeneratedTokenSegments(hs, claims, signing);
    assert rs.DecodedPayload(token) == Some(JObj(claims));
    ForeignHeaderRejected(rs, token, Hs256.Header, options, now);
    ForeignHeaderRejected(hs, rsToken, Hs256.Rs256Header, options, now);
  }

  /** Splicing another payload under a generated token's header and signature
      verifies only if the HMAC digests of the two unsigned strings collide. */
  lemma SplicedPayloadNeedsCollision(s: Strategy, claims: map<string, Json>, forged: map<string, Json>,
                                     signing: CallOptions, verifying: CallOptions, now: int)
    requires s.Valid() && s.binding.HmacSecret?
    requires var sig := SignatureSegment(s.TokenFor(claims, signing).value).value;
             s.Verify(s.encodedHeader + "." + ToString(s.platform, JObj(forged)) + "." + sig, verifying, now).Success?
    ensures s.platform.hmacSha256(Hs256.SecretFor(verifying, s.binding.secret),
                                  s.encodedHeader + "." + ToString(s.platform, JObj(forged)))
         == s.platform.hmacSha256(Hs256.SecretFor(signing, s.binding.secret),
                                  s.encodedHeader + "." + ToString(s.platform, JObj(claims)))
  {
    GeneratedTokenSegments(s, claims, signing);
    var original := s.encodedHeader + "." + ToString(s.platform, JObj(claims));
    var spliced := s.encodedHeader + "." + ToString(s.platform, JObj(forged));
    var sig := SignatureSegment(s.TokenFor(claims, signing).value).value;
    SplitThree(s.encodedHeader, ToString(s.platform, JObj(forged)), sig);
    Hs256.SignaturesAgreeIffDigestsAgree(s.platform, s.binding.secret, spliced, verifying,
                                         s.binding.secret, original, signing);
  }
}

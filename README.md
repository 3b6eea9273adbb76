# Signing strategies for compact JSON Web Tokens

This project models the core of a small JWT library. `BaseStrategy` is an
abstract class. It issues tokens in the compact serialization of section 7.1
of RFC 7515 (`header.payload.signature`, each part base64url-encoded) and
verifies them. `HS256Strategy` plugs HMAC-SHA256 (section 3.2 of RFC 7518)
into it.

- `generate` stamps `exp = now + ttl` on the caller's payload object in place.
  It encodes the payload and joins it after the header, which was encoded once
  at construction. It then appends the binding's signature of `header.payload`.
- `verify` splits the token on `.` and decodes the payload segment. It then
  checks, in this order:
  1. the header segment against the stored one, by exact string equality;
  2. the expiry (`now > exp` fails);
  3. the binding's signature over the raw `header.payload`.

  It returns the decoded payload when all three pass.

The model has six modules:

- `Common`: `Option`, the error kinds, `Result` (usable with `:-`) and the
  per-call options.
- `Base64Url`: a concrete unpadded base64url encoder and strict decoder
  (section 5 of RFC 4648). It proves that the two are mutually inverse and
  that every encoding avoids `.`.
- `Segments`: `Split` models `split('.')`. The helper `Join` models the
  template strings that put `.` between segments (lines 40 and 42 of
  `lib/strategies/base-strategy.js`). The module proves the split/join round
  trips.
- `Codec`: JSON values. It also defines the runtime services as an opaque
  `Platform` value: JSON text, JSON parsing and the HMAC-SHA256 digest. It
  holds the converter between JSON values and segments.
- `Hs256`: the HS256 header, the choice of secret, `sign` and
  `validateSignature`.
- `BaseStrategy`:
  - the `Strategy` class. Its fields are written once by the constructors:
    `#ttl`, `#b64uHeader` and the binding with its secret.
  - the `Payload` class, whose `claims` map `Generate` updates in place.
  - `Verify` and the lemmas that relate generate and verify.

The source calls its subclasses' overrides through the abstract class. The
model does this with the `Binding` datatype:

- `Inherited` is a subclass that overrides neither abstract method.
- `HmacSecret(secret)` is `HS256Strategy`.

`Strategy.Sign` and `Strategy.ValidateSignature` dispatch on the binding.
`Strategy.New` reports `AbstractClass` when the base class itself is
instantiated.

Behaviour of the code that a reader of RFC 7515 and RFC 7519 might not expect:

- There is no malformed-token error. `verify` uses only the first three
  segments and ignores the rest. A missing payload segment surfaces as a
  decoding failure (`MalformedPayload`).
- A per-call `ttl` of 0 does not give an immediately expiring token. JavaScript
  `||` treats 0 as absent, so the stored ttl is used.
- The payload is decoded before the header is checked (line 48 precedes
  line 50). A token whose payload does not decode therefore fails with
  `MalformedPayload` even when its header is foreign. A payload that decodes to
  `null` fails on reading `exp` (`NullPayload`) after the header check.

## Model

| member | source | states |
|---|---|---|
| Base64Url.Encode | lib/strategies/hs256.js:24-27 | every encoding is text over the 64-character URL-safe alphabet, so it never contains '.' |
| Base64Url.Decode | lib/strategies/base-strategy.js:48 | text that decodes uses only the URL-safe alphabet and does not leave a single character over in its last group |
| Base64Url.DecodeEncode | lib/strategies/hs256.js:24-27 | decoding an encoding gives back exactly the bytes |
| Base64Url.EncodeDecode | lib/strategies/base-strategy.js:48 | whatever text decodes is the encoding of what it decodes to, so decoding accepts only canonical segments |
| Base64Url.EncodeInjective | lib/strategies/hs256.js:24-27 | two byte strings have the same encoding exactly when they are equal |
| Segments.Split | lib/strategies/base-strategy.js:47 | `split('.')` gives at least one piece and no piece contains '.' |
| Segments.SplitJoin | lib/strategies/base-strategy.js:40-42 | joining dot-free pieces with '.' and splitting again gives back the pieces |
| Segments.JoinSplit | lib/strategies/base-strategy.js:47 | joining the pieces of a split gives back the original string |
| Segments.SplitThree | lib/strategies/base-strategy.js:42 | a string made of three dot-free segments splits into exactly those three |
| Segments.SplitThreeThen | lib/strategies/base-strategy.js:47 | after three dot-free segments and a dot, the split starts with those three and continues with the split of the rest |
| Codec.ToString | lib/strategies/base-strategy.js:25 | the encoded JSON is one dot-free segment that decodes back to the JSON text |
| Codec.ToJson | lib/strategies/base-strategy.js:48 | decoding a segment that encodes a value gives that value back, when JSON parsing inverts JSON text |
| Codec.ToStringInjective | lib/strategies/base-strategy.js:57 | two JSON values have the same segment exactly when they are equal |
| Codec.ToNumber | lib/strategies/base-strategy.js:65 | a numeric `exp` compares as itself; strings, arrays and objects compare as NaN |
| Hs256.SecretFor | lib/strategies/hs256.js:22 | a present, non-empty per-call secret is used; an absent or empty one falls back to the stored secret |
| Hs256.Sign | lib/strategies/hs256.js:21-29 | the signature is one dot-free segment that decodes to the HMAC-SHA256 digest of the unsigned string under the chosen secret |
| Hs256.ValidateSignature | lib/strategies/hs256.js:31-38 | the result is true exactly when the candidate equals the recomputed signature; otherwise it is InvalidSignature, including for a missing candidate |
| Hs256.SignaturesAgreeIffDigestsAgree | lib/strategies/hs256.js:24-27 | two signatures are equal exactly when their HMAC digests are equal |
| Hs256.HeadersDiffer | lib/strategies/hs256.js:16 | the HS256 and RS256 headers differ, and so do their encodings |
| BaseStrategy.Payload.constructor | lib/strategies/base-strategy.js:36 | the caller's payload object holds exactly the given claims |
| BaseStrategy.Strategy.New | lib/strategies/base-strategy.js:17-26 | instantiating the base class itself fails with AbstractClass; otherwise the new object stores ttl and the encoding of the header |
| BaseStrategy.Strategy.Derived | lib/strategies/base-strategy.js:22-25 | the constructor run for a subclass stores ttl and the encoded header |
| BaseStrategy.Strategy.Hs256Strategy | lib/strategies/hs256.js:15-19 | an HS256 strategy has the fixed HS256 header, the given ttl and the given secret |
| BaseStrategy.Strategy.Sign | lib/strategies/base-strategy.js:28-30 | the inherited sign fails with AbstractMethod; the HS256 one gives a dot-free segment that carries the HMAC digest |
| BaseStrategy.Strategy.ValidateSignature | lib/strategies/base-strategy.js:32-34 | the inherited check fails with AbstractMethod; the HS256 one accepts exactly the signature sign computes and otherwise fails with InvalidSignature |
| BaseStrategy.Strategy.ExpFor | lib/strategies/base-strategy.js:37 | exp is now plus the per-call ttl when that is present and non-zero, and now plus the stored ttl otherwise |
| BaseStrategy.Strategy.TokenFor | lib/strategies/base-strategy.js:39-43 | the token splits into exactly the stored header, the encoded payload and the signature of their join; an inherited sign fails with AbstractMethod |
| BaseStrategy.Strategy.Generate | lib/strategies/base-strategy.js:36-44 | the caller's payload gains or overwrites `exp` and nothing else changes; the result is the token of the stamped payload |
| BaseStrategy.Strategy.ValidateHeader | lib/strategies/base-strategy.js:56-62 | the check passes exactly when the candidate equals the stored encoded header, and otherwise fails with InvalidHeader |
| BaseStrategy.Strategy.ValidatePayload | lib/strategies/base-strategy.js:64-70 | the check fails with JwtExpired exactly when now is strictly past a numeric exp (now == exp passes); a missing or NaN exp never expires; null fails on the read |
| BaseStrategy.Strategy.Verify | lib/strategies/base-strategy.js:46-54 | the checks run in order: an undecodable payload, then a foreign header, then a null or expired payload, then the signature, whose own error (InvalidSignature, or AbstractMethod for an inherited check) is the result when it fails; success happens exactly when all pass, and it returns the decoded payload segment |
| BaseStrategy.GeneratedTokenSegments | lib/strategies/base-strategy.js:40-49 | splitting a generated token gives back its header, payload and signature, so verify rebuilds the string that was signed |
| BaseStrategy.GenerateThenVerify | lib/strategies/base-strategy.js:36-54 | a generated token verifies to the stamped payload up to its exp when the verifying secret gives the same digest; past exp it fails with JwtExpired, and otherwise with InvalidSignature |
| BaseStrategy.RoundTrip | lib/strategies/hs256.js:21-38 | with the same effective secret, a per-call override included, verify(generate(P)) returns P with exp at any time up to exp |
| BaseStrategy.ExtraSegmentsIgnored | lib/strategies/base-strategy.js:47 | whatever follows a third dot does not change the result of verify |
| BaseStrategy.ForeignHeaderRejected | lib/strategies/base-strategy.js:50 | a token whose header encodes any other header fails with InvalidHeader, whatever its expiry and signature, once its payload decodes |
| BaseStrategy.CrossAlgorithmRejected | lib/strategies/hs256.js:16-17 | an HS256 token fails the header pin of an RS256-configured strategy, and an RS256 token fails that of an HS256 strategy |
| BaseStrategy.SplicedPayloadNeedsCollision | lib/strategies/base-strategy.js:49-52 | another payload spliced under a generated token's header and signature verifies only if the HMAC digests of the two unsigned strings collide |

## Left out

- The RS256 binding (`lib/strategies/rs256.js`) is only its header constant. Its RSA signing and verification are foreign calls with no logic of their own beyond a key fallback.
- HMAC-SHA256, JSON text and JSON parsing are opaque functions of a `Platform` value. The model does not compute them. Where a property needs JSON to read back, it assumes `ParseInvertsStringify` as a precondition.
- The base64url converter's own source is not part of this model. The model uses a strict canonical decoder. A lenient decoder that accepts non-canonical trailing bits would also accept some tokens this model rejects.
- The options validator (`TypeValidator.validateBaseStrategyOptions`) is not part of this model. Its checks are taken as given by the parameter types: ttl is an integer and the header is a JSON value.
- `Date.now()` is the `now` parameter. Times and ttl are integers in milliseconds, not the seconds of section 4.1.4 of RFC 7519.
- Codec.ToNumber: numbers are integers. It does not model floating point, or JavaScript's conversion of numeric strings and one-element arrays to numbers. Such an `exp` is treated as NaN, so it never expires. That includes an empty array or an empty string, which JavaScript converts to 0 and which therefore expire at any positive time in the source.
- BaseStrategy.Strategy.Generate: payloads are objects (`Payload`). `Object.assign` on a primitive, null or array payload is not modelled. For an array, JSON text drops the added `exp`, so the source's token never expires. Key order in the JSON text is not modelled either.
- The stored secret is a string. `createHmac` with other key types, and a missing stored secret, are not modelled.
- Signature comparison is plain string equality. Timing behaviour cannot be expressed here.
- Error messages and the error class hierarchy are left out. Only the error kind is kept.
- JavaScript exceptions are `Failure` results. Errors other than the ones listed in `Common.Error` are not modelled, for example a token that is not a string.

/** The HS256 binding (HMAC with SHA-256, section 3.2 of RFC 7518): its fixed
    header, the choice of secret, and the signature it computes and checks. */
module Hs256 {
  import opened Common
  import opened Codec
  import Base64Url
  import Segments

  /** `{alg: 'HS256', typ: 'JWT'}`, fixed by the HS256 constructor. */
  const Header: Json := JObj(map["alg" := JStr("HS256"), "typ" := JStr("JWT")])

  /** `{alg: 'RS256', typ: 'JWT'}`, the header of the RSA binding, which is
      otherwise not part of this model. */
  const Rs256Header: Json := JObj(map["alg" := JStr("RS256"), "typ" := JStr("JWT")])

  /** `options.secret || this.#secret`: a per-call secret wins unless it is
      absent or empty; the stored secret is only read. */
  function SecretFor(options: CallOptions, stored: string): (k: string)
    ensures options.secret.None? || options.secret == Some("") ==> k == stored
    ensures options.secret.Some? && options.secret.value != "" ==> k == options.secret.value
  {
    if options.secret.Some? && options.secret.value != "" then options.secret.value else stored
  }

  /** `sign`: the HMAC-SHA256 digest of the unsigned string under the chosen
      secret, base64url-encoded. It is one segment, and it decodes back to the
      digest, so it carries exactly the digest. */
  function Sign(p: Platform, stored: string, unsigned: string, options: CallOptions): (sig: string)
    ensures Segments.DotFree(sig)
    ensures Base64Url.Decode(sig) == Some(p.hmacSha256(SecretFor(options, stored), unsigned))
  {
    var digest := p.hmacSha256(SecretFor(options, stored), unsigned);
    Base64Url.DecodeEncode(digest);
    Base64Url.Encode(digest)
  }

  /** `validateSignature`: recompute and compare. It returns true exactly when
      the candidate is the signature `sign` gives with the same options, and
      throws InvalidSignature otherwise (a missing candidate included). */
  function ValidateSignature(p: Platform, stored: string, unsigned: string, candidate: Option<string>,
                             options: CallOptions): (r: Result<bool>)
    ensures r == Success(true) <==> candidate == Some(Sign(p, stored, unsigned, options))
    ensures r.Failure? <==> r == Failure(InvalidSignature)
    ensures r.Success? ==> r.value
  {
    var signature := Sign(p, stored, unsigned, options);
    if candidate == Some(signature) then Success(true) else Failure(InvalidSignature)
  }

  /** Two signatures agree exactly when the two digests do: a candidate that is
      not the recomputed signature is accepted only through an HMAC collision. */
  lemma SignaturesAgreeIffDigestsAgree(p: Platform, stored: string, u: string, o: CallOptions,
                                       stored': string, u': string, o': CallOptions)
    ensures Sign(p, stored, u, o) == Sign(p, stored', u', o')
        <==> p.hmacSha256(SecretFor(o, stored), u) == p.hmacSha256(SecretFor(o', stored'), u')
  {
    Base64Url.EncodeInjective(p.hmacSha256(SecretFor(o, stored), u), p.hmacSha256(SecretFor(o', stored'), u'));
  }

  /** The two bindings' headers differ, so their encodings differ whenever JSON
      text can be read back. */
  lemma HeadersDiffer(p: Platform)
    requires ParseInvertsStringify(p)
    ensures Header != Rs256Header
    ensures ToString(p, Header) != ToString(p, Rs256Header)
  {
    assert Header.fields["alg"] != Rs256Header.fields["alg"];
    ToStringInjective(p, Header, Rs256Header);
  }
}

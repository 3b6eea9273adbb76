/** JSON values, the platform services the strategies call into (JSON text,
    HMAC-SHA256), and the converter between JSON values and base64url segments. */
module Codec {
  import opened Common
  import opened Base64Url
  import Segments

  /** A JSON value as JSON.parse produces it; numbers are integers here. */
  datatype Json =
    | JNull
    | JBool(b: bool)
    | JNum(n: int)
    | JStr(s: string)
    | JArr(items: seq<Json>)
    | JObj(fields: map<string, Json>)

  /** The services of the runtime that the core uses without looking inside:
      `stringify` is JSON.stringify followed by UTF-8 encoding, `parse` is UTF-8
      decoding followed by JSON.parse (None where it throws), and `hmacSha256`
      is the 32-byte digest of createHmac('sha256', secret).update(message). */
  datatype Platform = Platform(
    stringify: Json -> seq<Byte>,
    parse: seq<Byte> -> Option<Json>,
    hmacSha256: (string, string) -> seq<Byte>)

  /** JSON.parse reads back every value JSON.stringify writes. */
  ghost predicate ParseInvertsStringify(p: Platform) {
    forall v :: p.parse(p.stringify(v)) == Some(v)
  }

  /** `Base64UrlConverter.toString`: JSON text, base64url-encoded. The result is
      a single segment: it has no '.' and decodes back to the JSON bytes. */
  function ToString(p: Platform, v: Json): (s: string)
    ensures IsUrlText(s) && Segments.DotFree(s)
    ensures Decode(s) == Some(p.stringify(v))
  {
    DecodeEncode(p.stringify(v));
    Encode(p.stringify(v))
  }

  /** `Base64UrlConverter.toJSON`: base64url-decoded, then parsed; None where
      the segment is missing, is not base64url, or is not JSON. */
  function ToJson(p: Platform, s: Option<string>): (r: Option<Json>)
    ensures ParseInvertsStringify(p) ==> forall v :: s == Some(ToString(p, v)) ==> r == Some(v)
  {
    if s.None? then None
    else
      match Decode(s.value)
      case Some(bytes) => p.parse(bytes)
      case None => None
  }

  /** Two values with the same segment are the same value. */
  lemma ToStringInjective(p: Platform, v: Json, w: Json)
    requires ParseInvertsStringify(p)
    ensures ToString(p, v) == ToString(p, w) <==> v == w
  {
    if ToString(p, v) == ToString(p, w) {
      assert ToJson(p, Some(ToString(p, v))) == Some(v);
      assert ToJson(p, Some(ToString(p, w))) == Some(w);
    }
  }

  /** JavaScript's conversion of a value to a number where it meets `>`:
      null is 0, booleans are 0 or 1, numbers are themselves, and everything
      else is treated as NaN (None), which no comparison holds for. */
  function ToNumber(v: Json): (r: Option<int>)
    ensures v.JNum? ==> r == Some(v.n)
    ensures v.JStr? || v.JArr? || v.JObj? ==> r.None?
  {
    match v
    case JNull => Some(0)
    case JBool(b) => Some(if b then 1 else 0)
    case JNum(n) => Some(n)
    case _ => None
  }
}

/** The URL- and filename-safe base64 alphabet of section 5 of RFC 4648, without
    padding: the text form of every token segment. Encoding is total; decoding
    accepts exactly the canonical encodings, so the two are inverse to each other. */
module Base64Url {
  import opened Common

  /** A byte, as the HMAC digest and the UTF-8 form of JSON text are made of. */
  type Byte = x: int | 0 <= x < 256

  /** A 6-bit digit, the value of one character of the alphabet. */
  type Digit = x: int | 0 <= x < 64

  /** The 64 characters of the alphabet: A-Z, a-z, 0-9, '-' and '_'. */
  predicate IsUrlChar(c: char) {
    ('A' <= c <= 'Z') || ('a' <= c <= 'z') || ('0' <= c <= '9') || c == '-' || c == '_'
  }

  predicate IsUrlText(s: string) {
    forall i :: 0 <= i < |s| ==> IsUrlChar(s[i])
  }

  /** The character of a 6-bit digit. */
  function CharOf(d: Digit): (c: char)
    ensures IsUrlChar(c)
    ensures DigitOf(c) == Some(d)
  {
    if d < 26 then ('A' as int + d) as char
    else if d < 52 then ('a' as int + d - 26) as char
    else if d < 62 then ('0' as int + d - 52) as char
    else if d == 62 then '-'
    else '_'
  }

  /** The 6-bit digit of a character, or None outside the alphabet. */
  function DigitOf(c: char): (r: Option<Digit>)
    ensures r.Some? <==> IsUrlChar(c)
  {
    if 'A' <= c <= 'Z' then Some(c as int - 'A' as int)
    else if 'a' <= c <= 'z' then Some(c as int - 'a' as int + 26)
    else if '0' <= c <= '9' then Some(c as int - '0' as int + 52)
    else if c == '-' then Some(62)
    else if c == '_' then Some(63)
    else None
  }

  lemma CharOfDigitOf(c: char)
    requires IsUrlChar(c)
    ensures DigitOf(c).Some? && CharOf(DigitOf(c).value) == c
  {
  }

  /** Three bytes become four digits, two bytes three, one byte two. */
  function Encode(b: seq<Byte>): (s: string)
    ensures IsUrlText(s)

    decreases |b|
  {
    if |b| == 0 then ""
    else if |b| == 1 then
      [CharOf(b[0] / 4), CharOf(b[0] % 4 * 16)]
    else if |b| == 2 then
      [CharOf(b[0] / 4), CharOf(b[0] % 4 * 16 + b[1] / 16), CharOf(b[1] % 16 * 4)]
    else
      [CharOf(b[0] / 4), CharOf(b[0] % 4 * 16 + b[1] / 16),
       CharOf(b[1] % 16 * 4 + b[2] / 64), CharOf(b[2] % 64)]
      + Encode(b[3..])
  }

  /** Decodes canonical unpadded base64url; any other text is None. */
  function Decode(s: string): (r: Option<seq<Byte>>)
    ensures r.Some? ==> IsUrlText(s) && |s| % 4 != 1
    decreases |s|
  {
    if |s| == 0 then Some([])
    else if |s| == 1 || !IsUrlText(s[..if |s| < 4 then |s| else 4]) then None
    else
      var d0: int, d1: int := DigitOf(s[0]).value, DigitOf(s[1]).value;
      if |s| == 2 then
        if d1 % 16 == 0 then Some([d0 * 4 + d1 / 16]) else None
      else
        var d2: int := DigitOf(s[2]).value;
        if |s| == 3 then
          if d2 % 4 == 0 then Some([d0 * 4 + d1 / 16, d1 % 16 * 16 + d2 / 4]) else None
        else
          var d3 := DigitOf(s[3]).value;
          match Decode(s[4..])
          case Some(rest) =>
            Some([d0 * 4 + d1 / 16, d1 % 16 * 16 + d2 / 4, d2 % 4 * 64 + d3] + rest)
          case None => None
  }

  lemma DecodePair(d0: Digit, d1: Digit)
    requires d1 % 16 == 0
    ensures Decode([CharOf(d0), CharOf(d1)]) == Some([d0 * 4 + d1 / 16])
  {
    var s := [CharOf(d0), CharOf(d1)];
    assert s[..2] == s;
  }

  lemma DecodeTriple(d0: Digit, d1: Digit, d2: Digit)
    requires d2 % 4 == 0
    ensures Decode([CharOf(d0), CharOf(d1), CharOf(d2)])
         == Some([d0 * 4 + d1 / 16, d1 % 16 * 16 + d2 / 4])
  {
    var s := [CharOf(d0), CharOf(d1), CharOf(d2)];
    assert s[..3] == s;
  }

  lemma DecodeQuad(d0: Digit, d1: Digit, d2: Digit, d3: Digit, rest: string, tail: seq<Byte>)
    requires Decode(rest) == Some(tail)
    ensures Decode([CharOf(d0), CharOf(d1), CharOf(d2), CharOf(d3)] + rest)
         == Some([d0 * 4 + d1 / 16, d1 % 16 * 16 + d2 / 4, d2 % 4 * 64 + d3] + tail)
  {
    var s := [CharOf(d0), CharOf(d1), CharOf(d2), CharOf(d3)] + rest;
    assert s[..4] == [CharOf(d0), CharOf(d1), CharOf(d2), CharOf(d3)];
    assert s[4..] == rest;
  }

  lemma DecodeEncodeOne(b: seq<Byte>)
    requires |b| == 1
    ensures Decode(Encode(b)) == Some(b)
  {
    var d0, d1 := b[0] / 4, b[0] % 4 * 16;
    assert Encode(b) == [CharOf(d0), CharOf(d1)];
    DecodePair(d0, d1);
    assert d0 * 4 + d1 / 16 == b[0];
    assert [b[0]] == b;
  }

  lemma DecodeEncodeTwo(b: seq<Byte>)
    requires |b| == 2
    ensures Decode(Encode(b)) == Some(b)
  {
    var d0, d1, d2 := b[0] / 4, b[0] % 4 * 16 + b[1] / 16, b[1] % 16 * 4;
    assert Encode(b) == [CharOf(d0), CharOf(d1), CharOf(d2)];
    DecodeTriple(d0, d1, d2);
    assert d0 * 4 + d1 / 16 == b[0];
    assert d1 % 16 * 16 + d2 / 4 == b[1];
    assert [b[0], b[1]] == b;
  }

  lemma DecodeEncodeGroup(b: seq<Byte>)
    requires |b| >= 3
    requires Decode(Encode(b[3..])) == Some(b[3..])
    ensures Decode(Encode(b)) == Some(b)
  {
    var d0: Digit, d1: Digit, d2: Digit, d3: Digit := GroupDigits(b[0], b[1], b[2]);
    var rest := Encode(b[3..]);
    assert Encode(b) == [CharOf(d0), CharOf(d1), CharOf(d2), CharOf(d3)] + rest;
    DecodeQuad(d0, d1, d2, d3, rest, b[3..]);
    Regroup(b, d0 * 4 + d1 / 16, d1 % 16 * 16 + d2 / 4, d2 % 4 * 64 + d3);
  }

  lemma Regroup(b: seq<Byte>, b0: Byte, b1: Byte, b2: Byte)
    requires |b| >= 3 && b0 == b[0] && b1 == b[1] && b2 == b[2]
    ensures [b0, b1, b2] + b[3..] == b
  {
  }

  /** The digits of a group of three bytes, and how the bytes come back from them. */
  lemma GroupDigits(b0: Byte, b1: Byte, b2: Byte) returns (d0: Digit, d1: Digit, d2: Digit, d3: Digit)
    ensures d0 == b0 / 4 && d1 == b0 % 4 * 16 + b1 / 16
    ensures d2 == b1 % 16 * 4 + b2 / 64 && d3 == b2 % 64
    ensures d0 * 4 + d1 / 16 == b0 && d1 % 16 * 16 + d2 / 4 == b1 && d2 % 4 * 64 + d3 == b2
  {
    d0, d1, d2, d3 := b0 / 4, b0 % 4 * 16 + b1 / 16, b1 % 16 * 4 + b2 / 64, b2 % 64;
  }

  /** Decoding undoes encoding. */
  lemma {:induction false} DecodeEncode(b: seq<Byte>)
    ensures Decode(Encode(b)) == Some(b)
    decreases |b|
  {
    if |b| == 1 {
      DecodeEncodeOne(b);
    } else if |b| == 2 {
      DecodeEncodeTwo(b);
    } else if |b| >= 3 {
      DecodeEncode(b[3..]);
      DecodeEncodeGroup(b);
    }
  }

  /** Encoding undoes decoding: only canonical text decodes. */
  lemma {:induction false} EncodeDecode(s: string)
    requires Decode(s).Some?
    ensures Encode(Decode(s).value) == s
    decreases |s|
  {
    var b := Decode(s).value;
    if |s| >= 2 {
      CharOfDigitOf(s[0]);
      CharOfDigitOf(s[1]);
      var d0: int, d1: int := DigitOf(s[0]).value, DigitOf(s[1]).value;
      assert b[0] == d0 * 4 + d1 / 16;
      assert b[0] / 4 == d0;
      if |s| == 2 {
        assert b[0] % 4 * 16 == d1;
      } else {
        CharOfDigitOf(s[2]);
        var d2: int := DigitOf(s[2]).value;
        assert b[1] == d1 % 16 * 16 + d2 / 4;
        assert b[0] % 4 * 16 + b[1] / 16 == d1;
        if |s| == 3 {
          assert b[1] % 16 * 4 == d2;
        } else {
          CharOfDigitOf(s[3]);
          var d3: int := DigitOf(s[3]).value;
          assert b[2] == d2 % 4 * 64 + d3;
          assert b[1] % 16 * 4 + b[2] / 64 == d2;
          assert b[2] % 64 == d3;
          EncodeDecode(s[4..]);
          assert b[3..] == Decode(s[4..]).value;
          assert s == s[..4] + s[4..];
        }
      }
    }
  }

  /** Distinct byte strings have distinct encodings. */
  lemma EncodeInjective(a: seq<Byte>, b: seq<Byte>)
    ensures Encode(a) == Encode(b) <==> a == b
  {
    DecodeEncode(a);
    DecodeEncode(b);
  }
}

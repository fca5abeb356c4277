/**
 * Base64 as the client sees it: the standard alphabet with '=' padding that
 * `Convert.FromBase64String` decodes, and the URL-safe alphabet without
 * padding that JSON Web Tokens use for their segments (section 2 of RFC 7515,
 * "base64url"). Bytes are integers 0..255, six-bit groups integers 0..63.
 */
module Base64 {
  import opened Wrappers

  type Byte = x: int | 0 <= x < 256
  type Sextet = x: int | 0 <= x < 64

  /** The standard alphabet: A-Z, a-z, 0-9, '+', '/'. */
  function StdChar(v: Sextet): char {
    if v < 26 then ('A' as int + v) as char
    else if v < 52 then ('a' as int + (v - 26)) as char
    else if v < 62 then ('0' as int + (v - 52)) as char
    else if v == 62 then '+'
    else '/'
  }

  /** The URL-safe alphabet: '-' and '_' in place of '+' and '/'. */
  function UrlChar(v: Sextet): char {
    if v == 62 then '-' else if v == 63 then '_' else StdChar(v)
  }

  /** The value of a character of the standard alphabet. */
  function StdValue(c: char): (r: Option<Sextet>)
    ensures r.Some? ==> StdChar(r.value) == c
    ensures r.None? ==> forall v: Sextet :: StdChar(v) != c
  {
    if 'A' <= c <= 'Z' then Some(c as int - 'A' as int)
    else if 'a' <= c <= 'z' then Some(c as int - 'a' as int + 26)
    else if '0' <= c <= '9' then Some(c as int - '0' as int + 52)
    else if c == '+' then Some(62)
    else if c == '/' then Some(63)
    else None
  }

  lemma StdValueOfChar(v: Sextet)
    ensures StdValue(StdChar(v)) == Some(v)
  {
  }

  /** The six-bit groups of a byte string, most significant bits first; a last group of one
      or two bytes is filled up with zero bits, giving two or three groups. */
  function Sextets(b: seq<Byte>): (r: seq<Sextet>)
    ensures |r| == 4 * (|b| / 3) + (if |b| % 3 == 0 then 0 else |b| % 3 + 1)
    decreases |b|
  {
    if |b| == 0 then []
    else if |b| == 1 then [b[0] / 4, (b[0] % 4) * 16]
    else if |b| == 2 then [b[0] / 4, (b[0] % 4) * 16 + b[1] / 16, (b[1] % 16) * 4]
    else [b[0] / 4, (b[0] % 4) * 16 + b[1] / 16, (b[1] % 16) * 4 + b[2] / 64, b[2] % 64] + Sextets(b[3..])
  }

  function StdChars(vs: seq<Sextet>): (s: string)
    ensures |s| == |vs| && forall i :: 0 <= i < |vs| ==> s[i] == StdChar(vs[i])
  {
    seq(|vs|, i requires 0 <= i < |vs| => StdChar(vs[i]))
  }

  function UrlChars(vs: seq<Sextet>): (s: string)
    ensures |s| == |vs| && forall i :: 0 <= i < |vs| ==> s[i] == UrlChar(vs[i])
  {
    seq(|vs|, i requires 0 <= i < |vs| => UrlChar(vs[i]))
  }

  /** The standard encoding, padded with '=' to a multiple of four characters. */
  function Encode(b: seq<Byte>): (s: string)
    ensures |s| % 4 == 0
  {
    StdChars(Sextets(b)) + (if |b| % 3 == 1 then "==" else if |b| % 3 == 2 then "=" else "")
  }

  /** The base64url encoding of a token segment: URL-safe alphabet, no padding. */
  function EncodeUrl(b: seq<Byte>): (s: string)
    ensures '=' !in s && '+' !in s && '/' !in s
    ensures |s| % 4 != 1
  {
    UrlChars(Sextets(b))
  }

  /** Three bytes from four six-bit groups. */
  function Bytes3(v0: Sextet, v1: Sextet, v2: Sextet, v3: Sextet): seq<Byte> {
    [v0 * 4 + v1 / 16, (v1 % 16) * 16 + v2 / 4, (v2 % 4) * 64 + v3]
  }

  /** A group of four characters of the alphabet. */
  function DecodeQuad(a: char, b: char, c: char, d: char): (r: Option<seq<Byte>>)
    ensures r.Some? ==> |r.value| == 3
  {
    var v0, v1, v2, v3 := StdValue(a), StdValue(b), StdValue(c), StdValue(d);
    if v0.Some? && v1.Some? && v2.Some? && v3.Some? then Some(Bytes3(v0.value, v1.value, v2.value, v3.value))
    else None
  }

  /** The last group may end in "==" (one byte) or "=" (two bytes). */
  function DecodeFinal(a: char, b: char, c: char, d: char): (r: Option<seq<Byte>>)
  {
    if c == '=' && d == '=' then
      if StdValue(a).Some? && StdValue(b).Some? then Some(Bytes3(StdValue(a).value, StdValue(b).value, 0, 0)[..1]) else None
    else if d == '=' then
      if StdValue(a).Some? && StdValue(b).Some? && StdValue(c).Some?
      then Some(Bytes3(StdValue(a).value, StdValue(b).value, StdValue(c).value, 0)[..2]) else None
    else DecodeQuad(a, b, c, d)
  }

  /** `Convert.FromBase64String`: a multiple of four characters of the standard alphabet,
      with '=' padding only in the last group; anything else is a format error (None). */
  function Decode(s: string): (r: Option<seq<Byte>>)
    decreases |s|
  {
    if |s| % 4 != 0 then None
    else if s == [] then Some([])
    else if |s| == 4 then DecodeFinal(s[0], s[1], s[2], s[3])
    else match DecodeQuad(s[0], s[1], s[2], s[3])
         case None => None
         case Some(g) =>
           match Decode(s[4..])
           case None => None
           case Some(rest) => Some(g + rest)
  }

  /** Characters outside the standard alphabet and '=' make decoding fail. */
  lemma {:induction false} DecodeAlphabet(s: string)
    requires Decode(s).Some?
    ensures forall i :: 0 <= i < |s| ==> StdValue(s[i]).Some? || s[i] == '='
    decreases |s|
  {
    if |s| > 4 {
      DecodeAlphabet(s[4..]);
      assert forall i :: 4 <= i < |s| ==> s[i] == s[4..][i - 4];
    }
  }

  /** The bytes survive their six-bit groups. */
  lemma GroupRoundTrip(b0: Byte, b1: Byte, b2: Byte)
    ensures Bytes3(b0 / 4, (b0 % 4) * 16 + b1 / 16, (b1 % 16) * 4 + b2 / 64, b2 % 64) == [b0, b1, b2]
  {
  }

  /** The encoding of the bytes after the first three. */
  lemma EncodeSplits(b: seq<Byte>)
    requires |b| > 3
    ensures Encode(b) == StdChars(Sextets(b[..3])) + Encode(b[3..])
  {
    assert Sextets(b) == Sextets(b[..3]) + Sextets(b[3..]);
    assert b[..3][3..] == [];
  }

  lemma DecodeOne(b: seq<Byte>)
    requires |b| == 1
    ensures Decode(Encode(b)) == Some(b)
  {
    var s := Encode(b);
    GroupRoundTrip(b[0], 0, 0);
    StdValueOfChar(b[0] / 4);
    StdValueOfChar((b[0] % 4) * 16);
    assert s == [StdChar(b[0] / 4), StdChar((b[0] % 4) * 16), '=', '='];
    assert Bytes3(b[0] / 4, (b[0] % 4) * 16, 0, 0)[..1] == [b[0]] == b;
  }

  lemma DecodeTwo(b: seq<Byte>)
    requires |b| == 2
    ensures Decode(Encode(b)) == Some(b)
  {
    var s := Encode(b);
    GroupRoundTrip(b[0], b[1], 0);
    StdValueOfChar(b[0] / 4);
    StdValueOfChar((b[0] % 4) * 16 + b[1] / 16);
    StdValueOfChar((b[1] % 16) * 4);
    assert s == [StdChar(b[0] / 4), StdChar((b[0] % 4) * 16 + b[1] / 16), StdChar((b[1] % 16) * 4), '='];
    assert Bytes3(b[0] / 4, (b[0] % 4) * 16 + b[1] / 16, (b[1] % 16) * 4, 0)[..2] == [b[0], b[1]] == b;
  }

  /** A full group of three bytes decodes from its four characters. */
  lemma DecodeGroup(b: seq<Byte>)
    requires |b| >= 3
    ensures DecodeQuad(StdChar(Sextets(b[..3])[0]), StdChar(Sextets(b[..3])[1]),
                       StdChar(Sextets(b[..3])[2]), StdChar(Sextets(b[..3])[3])) == Some(b[..3])
  {
    var v := Sextets(b[..3]);
    GroupRoundTrip(b[0], b[1], b[2]);
    StdValueOfChar(v[0]);
    StdValueOfChar(v[1]);
    StdValueOfChar(v[2]);
    StdValueOfChar(v[3]);
    assert b[..3] == [b[0], b[1], b[2]];
  }

  /** Decoding undoes encoding. */
  lemma {:induction false} DecodeEncode(b: seq<Byte>)
    ensures Decode(Encode(b)) == Some(b)
    decreases |b|
  {
    var s := Encode(b);
    if |b| == 1 {
      DecodeOne(b);
    } else if |b| == 2 {
      DecodeTwo(b);
    } else if |b| >= 3 {
      var v := Sextets(b[..3]);
      DecodeGroup(b);
      if |b| == 3 {
        assert b == b[..3];
        assert s == StdChars(v);
      } else {
        EncodeSplits(b);
        DecodeEncode(b[3..]);
        assert s[4..] == Encode(b[3..]);
        assert s[..4] == StdChars(v);
        assert b == b[..3] + b[3..];
      }
    }
  }
}

/**
 * The base64 encoding of section 4 of RFC 4648: every three bytes become four
 * characters of a 64-letter alphabet, and a final group of one or two bytes is
 * padded with '='.  Encoding stands for `base64.b64encode(...).decode()`;
 * decoding for `base64.b64decode`, read strictly (see README, "Left out").
 */
module Base64 {
  import opened Wrappers

  type byte = x: int | 0 <= x < 256
  type sextet = x: int | 0 <= x < 64

  /** The characters of the alphabet of Table 1 of RFC 4648. */
  predicate IsAlphabetChar(c: char) {
    ('A' <= c <= 'Z') || ('a' <= c <= 'z') || ('0' <= c <= '9') || c == '+' || c == '/'
  }

  /** Table 1 of RFC 4648: value to character. */
  function SextetChar(v: sextet): (c: char)
    ensures IsAlphabetChar(c)
  {
    if v < 26 then ('A' as int + v) as char
    else if v < 52 then ('a' as int + (v - 26)) as char
    else if v < 62 then ('0' as int + (v - 52)) as char
    else if v == 62 then '+'
    else '/'
  }

  /** Table 1 of RFC 4648: character to value. */
  function SextetOf(c: char): (v: sextet)
    requires IsAlphabetChar(c)
    ensures SextetChar(v) == c
  {
    if 'A' <= c <= 'Z' then c as int - 'A' as int
    else if 'a' <= c <= 'z' then c as int - 'a' as int + 26
    else if '0' <= c <= '9' then c as int - '0' as int + 52
    else if c == '+' then 62
    else 63
  }

  lemma SextetRoundTrip(v: sextet)
    ensures SextetOf(SextetChar(v)) == v
  {
  }

  /** The four characters of one full 24-bit group. */
  function EncodeGroup(a: byte, b: byte, c: byte): string {
    [SextetChar(a / 4), SextetChar((a % 4) * 16 + b / 16), SextetChar((b % 16) * 4 + c / 64), SextetChar(c % 64)]
  }

  /** `base64.b64encode(data).decode()` */
  function Encode(data: seq<byte>): (s: string)
    ensures |s| == (|data| + 2) / 3 * 4
    ensures forall i :: 0 <= i < |s| ==> IsAlphabetChar(s[i]) || s[i] == '='
    decreases |data|
  {
    if |data| == 0 then ""
    else if |data| == 1 then
      [SextetChar(data[0] / 4), SextetChar((data[0] % 4) * 16), '=', '=']
    else if |data| == 2 then
      [SextetChar(data[0] / 4), SextetChar((data[0] % 4) * 16 + data[1] / 16), SextetChar((data[1] % 16) * 4), '=']
    else
      EncodeGroup(data[0], data[1], data[2]) + Encode(data[3..])
  }

  /** The three bytes of a quantum of four alphabet characters. */
  function DecodeGroup(q: string): (r: Option<seq<byte>>)
    requires |q| == 4
    ensures r.Some? <==> forall i :: 0 <= i < 4 ==> IsAlphabetChar(q[i])
    ensures r.Some? ==> |r.value| == 3
  {
    if IsAlphabetChar(q[0]) && IsAlphabetChar(q[1]) && IsAlphabetChar(q[2]) && IsAlphabetChar(q[3]) then
      var s0, s1, s2, s3 := SextetOf(q[0]), SextetOf(q[1]), SextetOf(q[2]), SextetOf(q[3]);
      Some([s0 * 4 + s1 / 16, (s1 % 16) * 16 + s2 / 4, (s2 % 4) * 64 + s3])
    else
      None
  }

  /** The last quantum: a full group, or one or two bytes followed by padding. */
  function DecodeFinal(q: string): (r: Option<seq<byte>>)
    requires |q| == 4
    ensures r.Some? ==> 1 <= |r.value| <= 3
  {
    if IsAlphabetChar(q[0]) && IsAlphabetChar(q[1]) && IsAlphabetChar(q[2]) && IsAlphabetChar(q[3]) then
      DecodeGroup(q)
    else if IsAlphabetChar(q[0]) && IsAlphabetChar(q[1]) && IsAlphabetChar(q[2]) && q[3] == '=' then
      var s0, s1, s2 := SextetOf(q[0]), SextetOf(q[1]), SextetOf(q[2]);
      Some([s0 * 4 + s1 / 16, (s1 % 16) * 16 + s2 / 4])
    else if IsAlphabetChar(q[0]) && IsAlphabetChar(q[1]) && q[2] == '=' && q[3] == '=' then
      var s0, s1 := SextetOf(q[0]), SextetOf(q[1]);
      Some([s0 * 4 + s1 / 16])
    else
      None
  }

  /** The number of '=' that end `s`, at most two. */
  function Pads(s: string): nat {
    if |s| >= 1 && s[|s| - 1] == '=' then
      if |s| >= 2 && s[|s| - 2] == '=' then 2 else 1
    else 0
  }

  /**
   * `base64.b64decode(s)`, strict: the length is a multiple of four, every
   * character is in the alphabet, and '=' appears only as final padding.
   */
  function Decode(s: string): (r: Option<seq<byte>>)
    ensures r.Some? ==> |s| % 4 == 0
    ensures r.Some? ==> forall i :: 0 <= i < |s| ==> IsAlphabetChar(s[i]) || s[i] == '='
    ensures r.Some? ==> forall i :: 0 <= i < |s| - 2 ==> s[i] != '='
    ensures r.Some? && |s| >= 2 && s[|s| - 2] == '=' ==> s[|s| - 1] == '='
    ensures r.Some? ==> |r.value| == |s| / 4 * 3 - Pads(s)
    decreases |s|
  {
    if |s| == 0 then Some([])
    else if |s| < 4 then None
    else if |s| == 4 then DecodeFinal(s)
    else
      match DecodeGroup(s[..4])
      case None => None
      case Some(group) =>
        match Decode(s[4..])
        case None => None
        case Some(rest) => Some(group + rest)
  }

  /** The sextets of a group put back together give its bytes. */
  lemma Recombine(a: byte, b: byte, c: byte)
    ensures (a / 4) * 4 + ((a % 4) * 16 + b / 16) / 16 == a
    ensures (((a % 4) * 16 + b / 16) % 16) * 16 + ((b % 16) * 4 + c / 64) / 4 == b
    ensures (((b % 16) * 4 + c / 64) % 4) * 64 + c % 64 == c
  {
    var hiA, loA := a / 4, a % 4;
    var hiB, loB := b / 16, b % 16;
    var hiC, loC := c / 64, c % 64;
    assert 0 <= hiB < 16 && 0 <= loA < 4 && 0 <= hiC < 4 && 0 <= loB < 16;
    assert (loA * 16 + hiB) / 16 == loA && (loA * 16 + hiB) % 16 == hiB;
    assert (loB * 4 + hiC) / 4 == loB && (loB * 4 + hiC) % 4 == hiC;
  }

  lemma GroupRoundTrip(a: byte, b: byte, c: byte)
    ensures DecodeGroup(EncodeGroup(a, b, c)) == Some([a, b, c])
  {
    var v0, v1, v2, v3 := a / 4, (a % 4) * 16 + b / 16, (b % 16) * 4 + c / 64, c % 64;
    var q := EncodeGroup(a, b, c);
    assert q == [SextetChar(v0), SextetChar(v1), SextetChar(v2), SextetChar(v3)];
    SextetRoundTrip(v0);
    SextetRoundTrip(v1);
    SextetRoundTrip(v2);
    SextetRoundTrip(v3);
    Recombine(a, b, c);
  }

  lemma OneByteRoundTrip(a: byte)
    ensures Decode(Encode([a])) == Some([a])
  {
    var v0, v1 := a / 4, (a % 4) * 16;
    var q := Encode([a]);
    assert q == [SextetChar(v0), SextetChar(v1), '=', '='];
    SextetRoundTrip(v0);
    SextetRoundTrip(v1);
    Recombine(a, 0, 0);
    assert !IsAlphabetChar(q[2]);
    assert DecodeFinal(q) == Some([v0 * 4 + v1 / 16]);
  }

  lemma TwoBytesRoundTrip(a: byte, b: byte)
    ensures Decode(Encode([a, b])) == Some([a, b])
  {
    var v0, v1, v2 := a / 4, (a % 4) * 16 + b / 16, (b % 16) * 4;
    var q := Encode([a, b]);
    assert q == [SextetChar(v0), SextetChar(v1), SextetChar(v2), '='];
    SextetRoundTrip(v0);
    SextetRoundTrip(v1);
    SextetRoundTrip(v2);
    Recombine(a, b, 0);
    assert !IsAlphabetChar(q[3]);
    assert DecodeFinal(q) == Some([v0 * 4 + v1 / 16, (v1 % 16) * 16 + v2 / 4]);
  }

  lemma ThreeBytesRoundTrip(a: byte, b: byte, c: byte)
    ensures Decode(Encode([a, b, c])) == Some([a, b, c])
  {
    var g := EncodeGroup(a, b, c);
    assert [a, b, c][3..] == [];
    assert Encode([a, b, c]) == g;
    GroupRoundTrip(a, b, c);
  }

  /** A full leading quantum decodes on its own. */
  lemma DecodeAppend(g: string, rest: string, group: seq<byte>, tail: seq<byte>)
    requires |g| == 4 && |rest| > 0
    requires DecodeGroup(g) == Some(group) && Decode(rest) == Some(tail)
    ensures Decode(g + rest) == Some(group + tail)
  {
    var s := g + rest;
    assert s[..4] == g && s[4..] == rest;
  }

  /** One step of the induction: a full group in front of a non-empty tail that round-trips. */
  lemma GroupStep(a: byte, b: byte, c: byte, tail: seq<byte>)
    requires |tail| > 0
    requires Decode(Encode(tail)) == Some(tail)
    ensures Decode(EncodeGroup(a, b, c) + Encode(tail)) == Some([a, b, c] + tail)
  {
    var rest := Encode(tail);
    assert |rest| > 0;
    GroupRoundTrip(a, b, c);
    DecodeAppend(EncodeGroup(a, b, c), rest, [a, b, c], tail);
  }

  /** Decoding undoes encoding, for every byte sequence. */
  lemma {:induction false} DecodeEncode(data: seq<byte>)
    ensures Decode(Encode(data)) == Some(data)
    decreases |data|
  {
    if |data| == 0 {
    } else if |data| == 1 {
      assert data == [data[0]];
      OneByteRoundTrip(data[0]);
    } else if |data| == 2 {
      assert data == [data[0], data[1]];
      TwoBytesRoundTrip(data[0], data[1]);
    } else if |data| == 3 {
      ThreeBytesRoundTrip(data[0], data[1], data[2]);
      assert data == [data[0], data[1], data[2]];
    } else {
      var tail := data[3..];
      assert Encode(data) == EncodeGroup(data[0], data[1], data[2]) + Encode(tail);
      assert data == [data[0], data[1], data[2]] + tail;
      DecodeEncode(tail);
      GroupStep(data[0], data[1], data[2], tail);
    }
  }
}

/**
 * The URL- and filename-safe base64 alphabet of section 5 of RFC 4648, with the trailing
 * '=' padding dropped, as Django's urlsafe_base64_encode produces it and
 * urlsafe_base64_decode reads it back.
 */
module Base64Url {
  import opened Wrappers
  import opened Bytes
  type Sextet = v: int | 0 <= v < 64

  /** The 64 characters of the URL-safe alphabet: no '+', '/' or '='. */
  predicate IsUrlSafeChar(c: char) {
    ('A' <= c <= 'Z') || ('a' <= c <= 'z') || ('0' <= c <= '9') || c == '-' || c == '_'
  }

  predicate IsUrlSafe(s: string) {
    forall i :: 0 <= i < |s| ==> IsUrlSafeChar(s[i])
  }

  /** The character that stands for a 6-bit value (table 2 of RFC 4648). */
  function CharOf(v: Sextet): (c: char)
    ensures IsUrlSafeChar(c)
  {
    if v < 26 then ('A' as int + v) as char
    else if v < 52 then ('a' as int + (v - 26)) as char
    else if v < 62 then ('0' as int + (v - 52)) as char
    else if v == 62 then '-'
    else '_'
  }

  /** The 6-bit value a character stands for, or None when it is outside the alphabet. */
  function ValueOf(c: char): (r: Option<Sextet>)
    ensures r.Some? <==> IsUrlSafeChar(c)
    ensures r.Some? ==> CharOf(r.value) == c
  {
    if 'A' <= c <= 'Z' then Some(c as int - 'A' as int)
    else if 'a' <= c <= 'z' then Some(c as int - 'a' as int + 26)
    else if '0' <= c <= '9' then Some(c as int - '0' as int + 52)
    else if c == '-' then Some(62)
    else if c == '_' then Some(63)
    else None
  }

  lemma ValueOfCharOf(v: Sextet)
    ensures ValueOf(CharOf(v)) == Some(v)
  {
  }

  // Three bytes become four sextets; a final group of one or two bytes becomes two or three.

  function EncodeSextets(b: seq<Byte>): (v: seq<Sextet>)
    ensures |v| == (4 * |b| + 2) / 3
    decreases |b|
  {
    if |b| == 0 then []
    else if |b| == 1 then [b[0] / 4, (b[0] % 4) * 16]
    else if |b| == 2 then [b[0] / 4, (b[0] % 4) * 16 + b[1] / 16, (b[1] % 16) * 4]
    else [b[0] / 4, (b[0] % 4) * 16 + b[1] / 16, (b[1] % 16) * 4 + b[2] / 64, b[2] % 64] + EncodeSextets(b[3..])
  }

  function CharsOf(v: seq<Sextet>): (s: string)
    ensures |s| == |v| && IsUrlSafe(s)
    ensures forall i :: 0 <= i < |v| ==> s[i] == CharOf(v[i])
  {
    seq(|v|, i requires 0 <= i < |v| => CharOf(v[i]))
  }

  /** urlsafe_base64_encode: base64 over the URL-safe alphabet with the padding stripped. */
  function Encode(b: seq<Byte>): (s: string)
    ensures |s| == (4 * |b| + 2) / 3
    ensures IsUrlSafe(s)
  {
    CharsOf(EncodeSextets(b))
  }

  /** The 6-bit values of the characters, or None when one is outside the alphabet. */
  function ValuesOf(s: string): (r: Option<seq<Sextet>>)
    ensures r.Some? <==> IsUrlSafe(s)
    ensures r.Some? ==> |r.value| == |s| && CharsOf(r.value) == s
    decreases |s|
  {
    if |s| == 0 then Some([])
    else
      var head := ValueOf(s[0]);
      var tail := ValuesOf(s[1..]);
      assert IsUrlSafe(s) <==> IsUrlSafeChar(s[0]) && IsUrlSafe(s[1..]) by {
        assert forall i :: 1 <= i < |s| ==> s[i] == s[1..][i - 1];
      }
      if head.None? || tail.None? then None
      else
        var v := [head.value] + tail.value;
        assert forall i :: 1 <= i < |s| ==> CharsOf(v)[i] == CharsOf(tail.value)[i - 1];
        Some(v)
  }

  // Decoding follows Python's base64 decoder in that the unused low bits of the last
  // sextet of a short group are ignored. A lone sextet left over is refused by Decode
  // before it gets here.

  function DecodeSextets(v: seq<Sextet>): (b: seq<Byte>)
    decreases |v|
  {
    if |v| <= 1 then []
    else
      var b0: Byte := (v[0] as int) * 4 + v[1] as int / 16;
      if |v| == 2 then [b0]
      else
        var b1: Byte := (v[1] as int % 16) * 16 + v[2] as int / 4;
        if |v| == 3 then [b0, b1]
        else
          var b2: Byte := (v[2] as int % 4) * 64 + v[3] as int;
          [b0, b1, b2] + DecodeSextets(v[4..])
  }

  /**
   * urlsafe_base64_decode: None (Django's ValueError) when a character is outside the
   * alphabet, or when the length leaves a single character over in the last group.
   */
  function Decode(s: string): (r: Option<seq<Byte>>)
    ensures r.Some? <==> IsUrlSafe(s) && |s| % 4 != 1
  {
    if |s| % 4 == 1 then None
    else match ValuesOf(s)
      case None => None
      case Some(v) => Some(DecodeSextets(v))
  }

  lemma {:induction false} ValuesOfCharsOf(v: seq<Sextet>)
    ensures ValuesOf(CharsOf(v)) == Some(v)
    decreases |v|
  {
    if |v| > 0 {
      var s := CharsOf(v);
      assert s[1..] == CharsOf(v[1..]);
      ValuesOfCharsOf(v[1..]);
      ValueOfCharOf(v[0]);
      assert v == [v[0]] + v[1..];
    }
  }

  /** One group of three bytes survives the split into four sextets and back. */
  lemma GroupRoundTrip(x: Byte, y: Byte, z: Byte)
    ensures (x / 4) * 4 + ((x % 4) * 16 + y / 16) / 16 == x
    ensures (((x % 4) * 16 + y / 16) % 16) * 16 + ((y % 16) * 4 + z / 64) / 4 == y
    ensures (((y % 16) * 4 + z / 64) % 4) * 64 + z % 64 == z
  {
  }

  /** Decoding a full group of four sextets in front of the rest. */
  lemma DecodeFullGroup(v0: Sextet, v1: Sextet, v2: Sextet, v3: Sextet, w: seq<Sextet>)
    ensures DecodeSextets([v0, v1, v2, v3] + w) ==
      [v0 * 4 + v1 / 16, (v1 % 16) * 16 + v2 / 4, (v2 % 4) * 64 + v3] + DecodeSextets(w)
  {
    var v := [v0, v1, v2, v3] + w;
    assert v[4..] == w;
  }

  /** A final group of one or two bytes survives the round trip. */
  lemma DecodeEncodeShort(b: seq<Byte>)
    requires 1 <= |b| <= 2
    ensures |EncodeSextets(b)| % 4 != 1
    ensures DecodeSextets(EncodeSextets(b)) == b
  {
    if |b| == 1 {
      GroupRoundTrip(b[0], 0, 0);
    } else {
      GroupRoundTrip(b[0], b[1], 0);
    }
  }

  lemma {:induction false} DecodeEncodeSextets(b: seq<Byte>)
    ensures |EncodeSextets(b)| % 4 != 1
    ensures DecodeSextets(EncodeSextets(b)) == b
    decreases |b|
  {
    if 1 <= |b| <= 2 {
      DecodeEncodeShort(b);
    } else if |b| >= 3 {
      var w := EncodeSextets(b[3..]);
      DecodeEncodeSextets(b[3..]);
      var v0: Sextet, v1: Sextet, v2: Sextet, v3: Sextet :=
        b[0] / 4, (b[0] % 4) * 16 + b[1] / 16, (b[1] % 16) * 4 + b[2] / 64, b[2] % 64;
      assert EncodeSextets(b) == [v0, v1, v2, v3] + w;
      DecodeFullGroup(v0, v1, v2, v3, w);
      GroupRoundTrip(b[0], b[1], b[2]);
      assert b == [b[0], b[1], b[2]] + b[3..];
    }
  }

  /** Decoding what was encoded gives back the bytes. */
  lemma DecodeEncode(b: seq<Byte>)
    ensures Decode(Encode(b)) == Some(b)
  {
    DecodeEncodeSextets(b);
    ValuesOfCharsOf(EncodeSextets(b));
  }
}

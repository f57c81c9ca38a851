/**
 * Bytes, and the two conversions between text and bytes the core uses: Python's
 * `str.encode()` (UTF-8) and `bytes.decode()` restricted to ASCII input.
 */
module Bytes {
  import opened Wrappers

  type Byte = b: int | 0 <= b < 256

  predicate IsAscii(s: string) {
    forall i :: 0 <= i < |s| ==> s[i] as int < 128
  }

  /** The UTF-8 encoding of one Unicode scalar value: one to four bytes. */
  function EncodeChar(c: char): (b: seq<Byte>)
    ensures 1 <= |b| <= 4
    ensures |b| == 1 <==> c as int < 128
    ensures |b| == 1 ==> b[0] == c as int
    ensures forall i :: 0 <= i < |b| && |b| > 1 ==> b[i] >= 128
  {
    var n := c as int;
    if n < 0x80 then [n]
    else if n < 0x800 then [0xC0 + n / 0x40, 0x80 + n % 0x40]
    else if n < 0x1_0000 then [0xE0 + n / 0x1000, 0x80 + (n / 0x40) % 0x40, 0x80 + n % 0x40]
    else [0xF0 + n / 0x4_0000, 0x80 + (n / 0x1000) % 0x40, 0x80 + (n / 0x40) % 0x40, 0x80 + n % 0x40]
  }

  /** `str.encode()`: the concatenated UTF-8 encodings of the characters. */
  function Encode(s: string): (b: seq<Byte>)
    ensures |b| >= |s|
    ensures IsAscii(s) ==> |b| == |s| && forall i :: 0 <= i < |s| ==> b[i] == s[i] as int
    decreases |s|
  {
    if |s| == 0 then [] else EncodeChar(s[0]) + Encode(s[1..])
  }

  /**
   * `bytes.decode()` on ASCII input, one character per byte; None for any byte of 128 or
   * more (such bytes are either malformed UTF-8 or decode to non-ASCII characters).
   */
  function DecodeAscii(b: seq<Byte>): (r: Option<string>)
    ensures r.Some? <==> forall i :: 0 <= i < |b| ==> b[i] < 128
    ensures r.Some? ==> IsAscii(r.value) && Encode(r.value) == b
  {
    if forall i :: 0 <= i < |b| ==> b[i] < 128 then
      var s := seq(|b|, i requires 0 <= i < |b| => b[i] as char);
      assert IsAscii(s);
      Some(s)
    else None
  }

  lemma DecodeAsciiEncode(s: string)
    requires IsAscii(s)
    ensures DecodeAscii(Encode(s)) == Some(s)
  {
    var r := DecodeAscii(Encode(s));
    assert r.Some?;
    assert r.value == s;
  }
}

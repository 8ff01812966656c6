/**
  UTF-8 as defined in section 3 of RFC 3629: the encoder Python's
  `str.encode('utf-8')` applies to a text, and the strict decoder behind
  `bytes.decode('utf-8')`. A text is a sequence of Unicode scalar values
  (Dafny `char`); bytes are integers in [0, 256).
*/
module Utf8 {
  import opened Util

  type Byte = b: int | 0 <= b < 256

  /** The test `(b & 0xC0) == 0x80`: the two top bits of `b` are 10, so `b`
      is a continuation byte 10xxxxxx. */
  predicate IsContinuation(b: Byte) {
    b / 64 == 2
  }

  /** The bit test above, read as a range of byte values. */
  lemma ContinuationRange(b: Byte)
    ensures IsContinuation(b) <==> 0x80 <= b < 0xC0
  {
  }

  /** The one- to four-byte encoding of one scalar value (RFC 3629 section 3). */
  function EncodeChar(c: char): (bs: seq<Byte>)
    ensures 1 <= |bs| <= 4
    ensures 0 <= bs[0] < 0x80 || 0xC0 <= bs[0] < 0x100
    ensures forall k :: 1 <= k < |bs| ==> 0x80 <= bs[k] < 0xC0
    ensures c as int < 0x80 <==> |bs| == 1
  {
    var cp := c as int;
    if cp < 0x80 then [cp]
    else if cp < 0x800 then [0xC0 + cp / 64, 0x80 + cp % 64]
    else if cp < 0x10000 then [0xE0 + cp / 4096, 0x80 + (cp / 64) % 64, 0x80 + cp % 64]
    else [0xF0 + cp / 262144, 0x80 + (cp / 4096) % 64, 0x80 + (cp / 64) % 64, 0x80 + cp % 64]
  }

  /** `text.encode('utf-8')`. */
  function EncodeText(s: string): seq<Byte> {
    if s == [] then [] else EncodeChar(s[0]) + EncodeText(s[1..])
  }

  /** Decodes the scalar value that starts `bs`, with the number of bytes it
      takes; `None` for a malformed, overlong, surrogate or out-of-range
      sequence, as the strict decoder rejects them. */
  function DecodeFirst(bs: seq<Byte>): (r: Option<(char, nat)>)
    requires |bs| > 0
    ensures r.Some? ==> 1 <= r.value.1 <= |bs|
  {
    var b0 := bs[0] as int;
    var b1 := if |bs| >= 2 then bs[1] as int else 0;
    var b2 := if |bs| >= 3 then bs[2] as int else 0;
    var b3 := if |bs| >= 4 then bs[3] as int else 0;
    if b0 < 0x80 then Some((b0 as char, 1))
    else if 0xC2 <= b0 < 0xE0 && |bs| >= 2 && 0x80 <= bs[1] < 0xC0 then
      var cp := (b0 - 0xC0) * 64 + (b1 - 0x80);
      Some((cp as char, 2))
    else if 0xE0 <= b0 < 0xF0 && |bs| >= 3 && 0x80 <= bs[1] < 0xC0 && 0x80 <= bs[2] < 0xC0 then
      var cp := (b0 - 0xE0) * 4096 + (b1 - 0x80) * 64 + (b2 - 0x80);
      if 0x800 <= cp && !(0xD800 <= cp < 0xE000) then Some((cp as char, 3)) else None
    else if 0xF0 <= b0 < 0xF5 && |bs| >= 4 && 0x80 <= bs[1] < 0xC0 && 0x80 <= bs[2] < 0xC0
            && 0x80 <= bs[3] < 0xC0 then
      var cp := (b0 - 0xF0) * 262144 + (b1 - 0x80) * 4096 + (b2 - 0x80) * 64 + (b3 - 0x80);
      if 0x10000 <= cp <= 0x10FFFF then Some((cp as char, 4)) else None
    else None
  }

  /** `bytes.decode('utf-8')` with strict error handling. */
  function DecodeText(bs: seq<Byte>): Option<string>
    decreases |bs|
  {
    if bs == [] then Some([])
    else
      match DecodeFirst(bs)
      case None => None
      case Some((c, n)) =>
        match DecodeText(bs[n..])
        case None => None
        case Some(rest) => Some([c] + rest)
  }

  /** The decoder reads back exactly the character the encoder wrote. */
  lemma DecodeFirstOfEncodeChar(c: char, rest: seq<Byte>)
    ensures DecodeFirst(EncodeChar(c) + rest) == Some((c, |EncodeChar(c)|))
  {
    var cp := c as int;
    if cp < 0x80 {
      assert (EncodeChar(c) + rest)[0] == cp;
    } else if cp < 0x800 {
      DecodeTwo(c, rest);
    } else if cp < 0x10000 {
      DecodeThree(c, rest);
    } else {
      DecodeFour(c, rest);
    }
  }

  lemma DecodeTwo(c: char, rest: seq<Byte>)
    requires 0x80 <= c as int < 0x800
    ensures DecodeFirst(EncodeChar(c) + rest) == Some((c, 2))
  {
    var cp := c as int;
    var bs := EncodeChar(c) + rest;
    assert bs[0] == 0xC0 + cp / 64 && bs[1] == 0x80 + cp % 64;
    assert (cp / 64) * 64 + cp % 64 == cp;
  }

  lemma DecodeThree(c: char, rest: seq<Byte>)
    requires 0x800 <= c as int < 0x10000
    ensures DecodeFirst(EncodeChar(c) + rest) == Some((c, 3))
  {
    var cp := c as int;
    var bs := EncodeChar(c) + rest;
    assert bs[0] == 0xE0 + cp / 4096 && bs[1] == 0x80 + (cp / 64) % 64 && bs[2] == 0x80 + cp % 64;
    assert (cp / 4096) * 4096 + ((cp / 64) % 64) * 64 + cp % 64 == cp;
  }

  lemma DecodeFour(c: char, rest: seq<Byte>)
    requires 0x10000 <= c as int
    ensures DecodeFirst(EncodeChar(c) + rest) == Some((c, 4))
  {
    var cp := c as int;
    var bs := EncodeChar(c) + rest;
    var q0, q1, q2, q3 := cp / 262144, (cp / 4096) % 64, (cp / 64) % 64, cp % 64;
    assert bs[0] == 0xF0 + q0 && bs[1] == 0x80 + q1 && bs[2] == 0x80 + q2 && bs[3] == 0x80 + q3;
    SixBitGroups(cp);
    assert q0 * 262144 + q1 * 4096 + q2 * 64 + q3 == cp;
  }

  /** A code point is its six-bit groups put back together. */
  lemma SixBitGroups(cp: nat)
    ensures (cp / 262144) * 262144 + ((cp / 4096) % 64) * 4096 + ((cp / 64) % 64) * 64 + cp % 64 == cp
  {
    var a := cp / 64;
    var b := a / 64;
    assert cp == a * 64 + cp % 64;
    assert a == b * 64 + a % 64;
    assert b == (b / 64) * 64 + b % 64;
    assert b == cp / 4096;
    assert b / 64 == cp / 262144;
  }

  /** Encoding a concatenation concatenates the encodings. */
  lemma {:induction false} EncodeTextAppend(a: string, b: string)
    ensures EncodeText(a + b) == EncodeText(a) + EncodeText(b)
  {
    if a != [] {
      assert a + b == [a[0]] + (a[1..] + b);
      assert (a + b)[1..] == a[1..] + b;
      EncodeTextAppend(a[1..], b);
    } else {
      assert a + b == b;
    }
  }

  /** Round trip: decoding an encoded text gives the text back. */
  lemma {:induction false} DecodeEncode(s: string)
    ensures DecodeText(EncodeText(s)) == Some(s)
  {
    if s != [] {
      var head := EncodeChar(s[0]);
      var tail := EncodeText(s[1..]);
      DecodeFirstOfEncodeChar(s[0], tail);
      assert (head + tail)[|head|..] == tail;
      DecodeEncode(s[1..]);
      assert [s[0]] + s[1..] == s;
    }
  }

  /** Offset of the first byte of character `i` in the encoding of `s`. */
  function ByteStart(s: string, i: nat): nat
    requires i <= |s|
  {
    |EncodeText(s[..i])|
  }

  /** The encoding of `s` around character `i`: what precedes it, its own
      bytes, what follows. */
  lemma EncodeAround(s: string, i: nat)
    requires i < |s|
    ensures EncodeText(s) == EncodeText(s[..i]) + EncodeChar(s[i]) + EncodeText(s[i + 1..])
    ensures ByteStart(s, i + 1) == ByteStart(s, i) + |EncodeChar(s[i])|
  {
    assert s == s[..i] + ([s[i]] + s[i + 1..]);
    EncodeTextAppend(s[..i], [s[i]] + s[i + 1..]);
    assert EncodeText([s[i]] + s[i + 1..]) == EncodeChar(s[i]) + EncodeText(s[i + 1..]);
    assert s[..i + 1] == s[..i] + [s[i]];
    EncodeTextAppend(s[..i], [s[i]]);
    assert EncodeText([s[i]]) == EncodeChar(s[i]) + EncodeText([]);
  }

  /** The index of the character whose encoding holds byte `offset`. */
  function CharAtByte(s: string, offset: nat): (i: nat)
    requires offset < |EncodeText(s)|
    ensures i < |s|
    ensures ByteStart(s, i) <= offset < ByteStart(s, i + 1)
    decreases |s|
  {
    var n := |EncodeChar(s[0])|;
    assert s[..1] == [s[0]];
    assert EncodeText([s[0]]) == EncodeChar(s[0]) + EncodeText([]);
    if offset < n then 0
    else
      var j := CharAtByte(s[1..], offset - n);
      assert s[..j + 1] == [s[0]] + s[1..][..j];
      assert s[..j + 2] == [s[0]] + s[1..][..j + 1];
      EncodeTextAppend([s[0]], s[1..][..j]);
      EncodeTextAppend([s[0]], s[1..][..j + 1]);
      j + 1
  }
}

/** Go's conversion of a byte slice into the runes of a string, as
    strings.TrimSpace reads them: well-formed UTF-8 sequences become their
    code points, and every byte that does not start one becomes U+FFFD. */
module Utf8 {
  import opened Wire

  const RuneError: char := '\U{FFFD}'

  /** A continuation byte 10xxxxxx. */
  predicate Cont(b: byte) {
    0x80 <= b < 0xC0
  }

  /** The allowed second byte of a three-byte sequence: E0 excludes
      overlong forms, ED excludes the surrogates. */
  predicate Second3(b0: int, b1: byte) {
    if b0 == 0xE0 then 0xA0 <= b1 < 0xC0
    else if b0 == 0xED then 0x80 <= b1 < 0xA0
    else Cont(b1)
  }

  /** The allowed second byte of a four-byte sequence: F0 excludes overlong
      forms, F4 code points above U+10FFFF. */
  predicate Second4(b0: int, b1: byte) {
    if b0 == 0xF0 then 0x90 <= b1 < 0xC0
    else if b0 == 0xF4 then 0x80 <= b1 < 0x90
    else Cont(b1)
  }

  /** utf8.DecodeRune: the first rune of b and the number of bytes it
      takes; a byte that starts no well-formed sequence is U+FFFD, one byte
      wide. */
  function DecodeRune(b: seq<byte>): (r: (char, nat))
    requires |b| > 0
    ensures 1 <= r.1 <= |b| && r.1 <= 4
    ensures b[0] < 0x80 <==> r.1 == 1 && r.0 as int == b[0] as int
    ensures r.1 > 1 ==> r.0 as int >= 0x80
  {
    var b0 := b[0] as int;
    if b0 < 0x80 then (b0 as char, 1)
    else if 0xC2 <= b0 < 0xE0 && |b| >= 2 && Cont(b[1]) then
      (((b0 - 0xC0) * 64 + (b[1] as int - 0x80)) as char, 2)
    else if 0xE0 <= b0 < 0xF0 && |b| >= 3 && Second3(b0, b[1]) && Cont(b[2]) then
      (((b0 - 0xE0) * 4096 + (b[1] as int - 0x80) * 64 + (b[2] as int - 0x80)) as char, 3)
    else if 0xF0 <= b0 < 0xF5 && |b| >= 4 && Second4(b0, b[1]) && Cont(b[2]) && Cont(b[3]) then
      (((b0 - 0xF0) * 262144 + (b[1] as int - 0x80) * 4096 + (b[2] as int - 0x80) * 64 + (b[3] as int - 0x80)) as char, 4)
    else (RuneError, 1)
  }

  /** The runes of `string(b)`, in order. */
  function DecodeRunes(b: seq<byte>): (s: string)
    ensures |s| <= |b|
    decreases |b|
  {
    if b == [] then []
    else
      var r := DecodeRune(b);
      [r.0] + DecodeRunes(b[r.1..])
  }

  /** The UTF-8 encoding of one code point, as Go writes it. */
  function EncodeRune(c: char): (b: seq<byte>)
    ensures 1 <= |b| <= 4
  {
    var n := c as int;
    if n < 0x80 then [n as byte]
    else if n < 0x800 then [(0xC0 + n / 64) as byte, (0x80 + n % 64) as byte]
    else if n < 0x10000 then
      [(0xE0 + n / 4096) as byte, (0x80 + (n / 64) % 64) as byte, (0x80 + n % 64) as byte]
    else
      [(0xF0 + n / 262144) as byte, (0x80 + (n / 4096) % 64) as byte,
       (0x80 + (n / 64) % 64) as byte, (0x80 + n % 64) as byte]
  }

  function EncodeRunes(s: string): (b: seq<byte>)
    ensures |b| >= |s|
  {
    if s == [] then [] else EncodeRune(s[0]) + EncodeRunes(s[1..])
  }

  /** The six-bit groups of a code point put back together. */
  lemma Groups(n: nat)
    ensures n % 64 < 64 && (n / 64) % 64 < 64 && (n / 4096) % 64 < 64
    ensures n == (n / 64) * 64 + n % 64
    ensures n == (n / 4096) * 4096 + ((n / 64) % 64) * 64 + n % 64
    ensures n == (n / 262144) * 262144 + ((n / 4096) % 64) * 4096 + ((n / 64) % 64) * 64 + n % 64
  {
    assert n / 4096 == (n / 64) / 64;
    assert n / 262144 == (n / 4096) / 64;
  }

  lemma DecodeEncode2(c: char, rest: seq<byte>)
    requires 0x80 <= c as int < 0x800
    ensures DecodeRune(EncodeRune(c) + rest) == (c, 2)
  {
    Groups(c as int);
  }

  lemma DecodeEncode3(c: char, rest: seq<byte>)
    requires 0x800 <= c as int < 0x10000
    ensures DecodeRune(EncodeRune(c) + rest) == (c, 3)
  {
    var n := c as int;
    Groups(n);
    var b := EncodeRune(c) + rest;
    assert b[0] as int - 0xE0 == n / 4096;
    assert b[1] as int - 0x80 == (n / 64) % 64;
    assert b[2] as int - 0x80 == n % 64;
    assert Second3(b[0] as int, b[1]);
  }

  lemma DecodeEncode4(c: char, rest: seq<byte>)
    requires 0x10000 <= c as int
    ensures DecodeRune(EncodeRune(c) + rest) == (c, 4)
  {
    var n := c as int;
    Groups(n);
    var b := EncodeRune(c) + rest;
    assert b[0] as int - 0xF0 == n / 262144;
    assert b[1] as int - 0x80 == (n / 4096) % 64;
    assert b[2] as int - 0x80 == (n / 64) % 64;
    assert b[3] as int - 0x80 == n % 64;
    assert Second4(b[0] as int, b[1]);
  }

  /** Decoding reads back the one rune that was encoded, whatever follows. */
  lemma DecodeEncodeRune(c: char, rest: seq<byte>)
    ensures DecodeRune(EncodeRune(c) + rest) == (c, |EncodeRune(c)|)
  {
    var n := c as int;
    if 0x80 <= n < 0x800 {
      DecodeEncode2(c, rest);
    } else if 0x800 <= n < 0x10000 {
      DecodeEncode3(c, rest);
    } else if 0x10000 <= n {
      DecodeEncode4(c, rest);
    }
  }

  /** Converting the UTF-8 encoding of a text back gives that text. */
  lemma {:induction false} DecodeEncodeRunes(s: string)
    ensures DecodeRunes(EncodeRunes(s)) == s
  {
    if s != [] {
      var e := EncodeRune(s[0]);
      var rest := EncodeRunes(s[1..]);
      DecodeEncodeRune(s[0], rest);
      assert (e + rest)[|e|..] == rest;
      DecodeEncodeRunes(s[1..]);
    }
  }

  /** ASCII bytes are their own runes. */
  lemma {:induction false} DecodeAscii(b: seq<byte>)
    requires forall k :: 0 <= k < |b| ==> b[k] < 0x80
    ensures |DecodeRunes(b)| == |b|
    ensures forall k :: 0 <= k < |b| ==> DecodeRunes(b)[k] as int == b[k] as int
  {
    if b != [] {
      DecodeAscii(b[1..]);
    }
  }
}

/**
 * UTF-8, as `Buffer.from(string)` applies it to the serialised URL before the
 * cache key is derived. A Dafny `char` is a Unicode scalar value, so every
 * string here is well formed and encodes to one to four bytes per character.
 * `DecodeString` is the inverse used to show that the encoding loses nothing.
 */
module Utf8 {
  import opened Wrappers
  import opened Bytes

  /** A continuation byte `10xxxxxx`. */
  predicate IsContinuation(x: byte) {
    0x80 <= x < 0xC0
  }

  /** The number of bytes UTF-8 spends on `c`. */
  function CharLength(c: char): (n: nat)
    ensures 1 <= n <= 4
  {
    var cp := c as int;
    if cp < 0x80 then 1 else if cp < 0x800 then 2 else if cp < 0x1_0000 then 3 else 4
  }

  /** The UTF-8 bytes of one character. */
  function EncodeChar(c: char): (r: seq<byte>)
    ensures |r| == CharLength(c)
    ensures forall i :: 1 <= i < |r| ==> IsContinuation(r[i])
  {
    var cp := c as int;
    if cp < 0x80 then
      [cp as byte]
    else if cp < 0x800 then
      [(0xC0 + cp / 64) as byte, (0x80 + cp % 64) as byte]
    else if cp < 0x1_0000 then
      [(0xE0 + cp / 4096) as byte, (0x80 + cp / 64 % 64) as byte, (0x80 + cp % 64) as byte]
    else
      [(0xF0 + cp / 262144) as byte, (0x80 + cp / 4096 % 64) as byte,
       (0x80 + cp / 64 % 64) as byte, (0x80 + cp % 64) as byte]
  }

  /** The UTF-8 bytes of a string: its characters' encodings, in order. */
  function EncodeString(s: string): (r: seq<byte>)
    ensures |s| <= |r| <= 4 * |s|
  {
    if s == [] then [] else EncodeChar(s[0]) + EncodeString(s[1..])
  }

  /** A code point that a `char` can hold. */
  predicate IsScalarValue(cp: int) {
    0 <= cp < 0xD800 || 0xE000 <= cp < 0x11_0000
  }

  /** The payload bits of a continuation byte. */
  function Payload(x: byte): int {
    x as int - 0x80
  }

  /** The first character of `b` and the number of bytes it occupies, if `b` starts with a well-formed sequence. */
  function DecodeChar(b: seq<byte>): (r: Option<(char, nat)>)
    ensures r.Some? ==> 1 <= r.value.1 <= |b|
  {
    if |b| == 0 then None
    else
      var x := b[0] as int;
      if x < 0x80 then Some((x as char, 1))
      else if 0xC0 <= x < 0xE0 && |b| >= 2 && IsContinuation(b[1]) then
        var cp := (x - 0xC0) * 64 + Payload(b[1]);
        if IsScalarValue(cp) then Some((cp as char, 2)) else None
      else if 0xE0 <= x < 0xF0 && |b| >= 3 && IsContinuation(b[1]) && IsContinuation(b[2]) then
        var cp := (x - 0xE0) * 4096 + Payload(b[1]) * 64 + Payload(b[2]);
        if IsScalarValue(cp) then Some((cp as char, 3)) else None
      else if 0xF0 <= x < 0xF8 && |b| >= 4 && IsContinuation(b[1]) && IsContinuation(b[2]) && IsContinuation(b[3]) then
        var cp := (x - 0xF0) * 262144 + Payload(b[1]) * 4096 + Payload(b[2]) * 64 + Payload(b[3]);
        if IsScalarValue(cp) then Some((cp as char, 4)) else None
      else None
  }

  /** The string whose UTF-8 encoding is `b`, if there is one. */
  function DecodeString(b: seq<byte>): Option<string>
    decreases |b|
  {
    if b == [] then Some("")
    else
      match DecodeChar(b)
      case None => None
      case Some((c, n)) =>
        match DecodeString(b[n..])
        case None => None
        case Some(rest) => Some([c] + rest)
  }

  /** Decoding the encoding of `c`, whatever follows it, gives back `c` and its length. */
  lemma DecodeEncodeChar(c: char, rest: seq<byte>)
    ensures DecodeChar(EncodeChar(c) + rest) == Some((c, CharLength(c)))
  {
    var cp := c as int;
    if cp < 0x80 {
    } else if cp < 0x800 {
      DecodeTwo(c, rest);
    } else if cp < 0x1_0000 {
      DecodeThree(c, rest);
    } else {
      DecodeFour(c, rest);
    }
  }

  lemma DecodeTwo(c: char, rest: seq<byte>)
    requires 0x80 <= c as int < 0x800
    ensures DecodeChar(EncodeChar(c) + rest) == Some((c, 2))
  {
    var cp := c as int;
    var b := EncodeChar(c) + rest;
    assert b[0] as int - 0xC0 == cp / 64;
    assert Payload(b[1]) == cp % 64;
    assert (cp / 64) * 64 + cp % 64 == cp;
  }

  lemma DecodeThree(c: char, rest: seq<byte>)
    requires 0x800 <= c as int < 0x1_0000
    ensures DecodeChar(EncodeChar(c) + rest) == Some((c, 3))
  {
    var cp := c as int;
    var b := EncodeChar(c) + rest;
    var hi, mid, lo := cp / 4096, cp / 64 % 64, cp % 64;
    assert b[0] as int - 0xE0 == hi;
    assert Payload(b[1]) == mid;
    assert Payload(b[2]) == lo;
    assert cp / 64 == hi * 64 + mid;
    assert hi * 4096 + mid * 64 + lo == cp;
  }

  lemma DecodeFour(c: char, rest: seq<byte>)
    requires 0x1_0000 <= c as int
    ensures DecodeChar(EncodeChar(c) + rest) == Some((c, 4))
  {
    var cp := c as int;
    var b := EncodeChar(c) + rest;
    var top, hi, mid, lo := cp / 262144, cp / 4096 % 64, cp / 64 % 64, cp % 64;
    assert b[0] as int - 0xF0 == top;
    assert Payload(b[1]) == hi;
    assert Payload(b[2]) == mid;
    assert Payload(b[3]) == lo;
    assert cp / 4096 == top * 64 + hi;
    assert cp / 64 == (cp / 4096) * 64 + mid;
    assert top * 262144 + hi * 4096 + mid * 64 + lo == cp;
  }

  /** UTF-8 decoding undoes UTF-8 encoding. */
  lemma {:induction false} DecodeEncode(s: string)
    ensures DecodeString(EncodeString(s)) == Some(s)
  {
    if s != [] {
      var e, rest := EncodeChar(s[0]), EncodeString(s[1..]);
      DecodeEncodeChar(s[0], rest);
      assert EncodeString(s) == e + rest;
      assert (e + rest)[|e|..] == rest;
      DecodeEncode(s[1..]);
      assert [s[0]] + s[1..] == s;
    }
  }

  /** Distinct strings have distinct UTF-8 encodings. */
  lemma EncodeInjective(s: string, t: string)
    requires EncodeString(s) == EncodeString(t)
    ensures s == t
  {
    DecodeEncode(s);
    DecodeEncode(t);
  }
}

/**
 * The "URL and Filename safe" base 64 encoding of section 5 of RFC 4648, in the
 * form Node.js produces for `buf.toString("base64url")`: the alphabet
 * `A-Z a-z 0-9 - _` and no `=` padding, so a final group of one or two bytes
 * becomes two or three characters.
 */
module Base64Url {
  import opened Wrappers
  import opened Bytes

  /** A character of the alphabet of section 5 of RFC 4648. */
  predicate IsUrlSafeChar(c: char) {
    'A' <= c <= 'Z' || 'a' <= c <= 'z' || '0' <= c <= '9' || c == '-' || c == '_'
  }

  /** The character of a 6-bit value (Table 2 of RFC 4648). */
  function Symbol(v: int): (c: char)
    requires 0 <= v < 64
    ensures IsUrlSafeChar(c)
  {
    if v < 26 then ('A' as int + v) as char
    else if v < 52 then ('a' as int + (v - 26)) as char
    else if v < 62 then ('0' as int + (v - 52)) as char
    else if v == 62 then '-'
    else '_'
  }

  /** The 6-bit value of an alphabet character. */
  function SymbolValue(c: char): (v: int)
    requires IsUrlSafeChar(c)
    ensures 0 <= v < 64
  {
    if 'A' <= c <= 'Z' then c as int - 'A' as int
    else if 'a' <= c <= 'z' then c as int - 'a' as int + 26
    else if '0' <= c <= '9' then c as int - '0' as int + 52
    else if c == '-' then 62
    else 63
  }

  lemma SymbolValueOfSymbol(v: int)
    requires 0 <= v < 64
    ensures SymbolValue(Symbol(v)) == v
  {
  }

  /**
   * One group of one to three bytes: the 24 bits of the group, with missing
   * bytes taken as zero, cut into four 6-bit values, of which the first
   * `|g| + 1` are written.
   */
  function EncodeGroup(g: seq<byte>): (r: string)
    requires 1 <= |g| <= 3
    ensures |r| == |g| + 1
  {
    var b0 := g[0] as int;
    var b1 := if |g| > 1 then g[1] as int else 0;
    var b2 := if |g| > 2 then g[2] as int else 0;
    var two := [Symbol(b0 / 4), Symbol(b0 % 4 * 16 + b1 / 16)];
    if |g| == 1 then two
    else if |g| == 2 then two + [Symbol(b1 % 16 * 4 + b2 / 64)]
    else two + [Symbol(b1 % 16 * 4 + b2 / 64), Symbol(b2 % 64)]
  }

  /** The base64url text of `b`, without padding. */
  function Encode(b: seq<byte>): (r: string)
    decreases |b|
    ensures |r| == (4 * |b| + 2) / 3
    ensures forall i :: 0 <= i < |r| ==> IsUrlSafeChar(r[i])
  {
    if b == [] then ""
    else if |b| <= 3 then EncodeGroup(b)
    else EncodeGroup(b[..3]) + Encode(b[3..])
  }

  /** The bytes of a group of two to four characters; the inverse of `EncodeGroup`. */
  function DecodeGroup(s: string): (r: Option<seq<byte>>)
    requires 2 <= |s| <= 4
    ensures r.Some? ==> |r.value| == |s| - 1
  {
    if !(forall i :: 0 <= i < |s| ==> IsUrlSafeChar(s[i])) then None
    else
      var v0 := SymbolValue(s[0]);
      var v1 := SymbolValue(s[1]);
      var v2 := if |s| > 2 then SymbolValue(s[2]) else 0;
      var v3 := if |s| > 3 then SymbolValue(s[3]) else 0;
      var bytes := [(v0 * 4 + v1 / 16) as byte, (v1 % 16 * 16 + v2 / 4) as byte, (v2 % 4 * 64 + v3) as byte];
      Some(bytes[..|s| - 1])
  }

  /**
   * The bytes whose unpadded base64url text is `s`, if `s` is such a text.
   * Bits left over in a final short group are ignored.
   */
  function Decode(s: string): (r: Option<seq<byte>>)
    decreases |s|
  {
    if s == "" then Some([])
    else if |s| == 1 then None
    else if |s| <= 4 then DecodeGroup(s)
    else
      match DecodeGroup(s[..4])
      case None => None
      case Some(head) =>
        match Decode(s[4..])
        case None => None
        case Some(tail) => Some(head + tail)
  }

  /** The four 6-bit values of three bytes give the three bytes back. */
  lemma RegroupBits(b0: int, b1: int, b2: int)
    requires 0 <= b0 < 256 && 0 <= b1 < 256 && 0 <= b2 < 256
    ensures var v0, v1, v2, v3 := b0 / 4, b0 % 4 * 16 + b1 / 16, b1 % 16 * 4 + b2 / 64, b2 % 64;
            && v0 < 64 && v1 < 64 && v2 < 64
            && v0 * 4 + v1 / 16 == b0
            && v1 % 16 * 16 + v2 / 4 == b1
            && v2 % 4 * 64 + v3 == b2
  {
    var v1, v2 := b0 % 4 * 16 + b1 / 16, b1 % 16 * 4 + b2 / 64;
    assert v1 / 16 == b0 % 4 && v1 % 16 == b1 / 16;
    assert v2 / 4 == b1 % 16 && v2 % 4 == b2 / 64;
  }

  /** The values a group's characters decode to are the 6-bit values they were made from. */
  lemma SymbolValues(g: seq<byte>)
    requires 1 <= |g| <= 3
    ensures var b0 := g[0] as int;
            var b1 := if |g| > 1 then g[1] as int else 0;
            var b2 := if |g| > 2 then g[2] as int else 0;
            var s := EncodeGroup(g);
            && (forall i :: 0 <= i < |s| ==> IsUrlSafeChar(s[i]))
            && SymbolValue(s[0]) == b0 / 4 && SymbolValue(s[1]) == b0 % 4 * 16 + b1 / 16
            && (|s| > 2 ==> SymbolValue(s[2]) == b1 % 16 * 4 + b2 / 64)
            && (|s| > 3 ==> SymbolValue(s[3]) == b2 % 64)
  {
    var b0 := g[0] as int;
    var b1 := if |g| > 1 then g[1] as int else 0;
    var b2 := if |g| > 2 then g[2] as int else 0;
    SymbolValueOfSymbol(b0 / 4);
    SymbolValueOfSymbol(b0 % 4 * 16 + b1 / 16);
    SymbolValueOfSymbol(b1 % 16 * 4 + b2 / 64);
    SymbolValueOfSymbol(b2 % 64);
  }

  lemma DecodeEncodeGroup(g: seq<byte>)
    requires 1 <= |g| <= 3
    ensures DecodeGroup(EncodeGroup(g)) == Some(g)
  {
    var b0 := g[0] as int;
    var b1 := if |g| > 1 then g[1] as int else 0;
    var b2 := if |g| > 2 then g[2] as int else 0;
    RegroupBits(b0, b1, b2);
    SymbolValues(g);
    var s := EncodeGroup(g);
    var w2 := if |s| > 2 then SymbolValue(s[2]) else 0;
    var w3 := if |s| > 3 then SymbolValue(s[3]) else 0;
    DecodeGroupValues(s, SymbolValue(s[0]), SymbolValue(s[1]), w2, w3);
    if |g| == 1 {
      assert [b0 as byte] == g;
    } else if |g| == 2 {
      assert [b0 as byte, b1 as byte] == g;
    } else {
      assert [b0 as byte, b1 as byte, b2 as byte] == g;
    }
  }

  /** `DecodeGroup` spelled out for given 6-bit values of the characters. */
  lemma DecodeGroupValues(s: string, v0: int, v1: int, v2: int, v3: int)
    requires 2 <= |s| <= 4 && forall i :: 0 <= i < |s| ==> IsUrlSafeChar(s[i])
    requires v0 == SymbolValue(s[0]) && v1 == SymbolValue(s[1])
    requires v2 == (if |s| > 2 then SymbolValue(s[2]) else 0) && v3 == (if |s| > 3 then SymbolValue(s[3]) else 0)
    ensures |s| == 2 ==> DecodeGroup(s) == Some([(v0 * 4 + v1 / 16) as byte])
    ensures |s| == 3 ==> DecodeGroup(s) == Some([(v0 * 4 + v1 / 16) as byte, (v1 % 16 * 16 + v2 / 4) as byte])
    ensures |s| == 4 ==> DecodeGroup(s) == Some([(v0 * 4 + v1 / 16) as byte, (v1 % 16 * 16 + v2 / 4) as byte, (v2 % 4 * 64 + v3) as byte])
  {
    var bytes := [(v0 * 4 + v1 / 16) as byte, (v1 % 16 * 16 + v2 / 4) as byte, (v2 % 4 * 64 + v3) as byte];
    assert DecodeGroup(s) == Some(bytes[..|s| - 1]);
    assert bytes[..1] == [bytes[0]] && bytes[..2] == [bytes[0], bytes[1]] && bytes[..3] == bytes;
  }

  /** Base64url decoding undoes base64url encoding (section 5 of RFC 4648). */
  lemma {:induction false} DecodeEncode(b: seq<byte>)
    decreases |b|
    ensures Decode(Encode(b)) == Some(b)
  {
    if |b| <= 3 {
      DecodeEncodeShort(b);
    } else {
      EncodeStep(b);
      DecodeEncodeGroup(b[..3]);
      DecodeEncode(b[3..]);
      DecodeConcat(EncodeGroup(b[..3]), Encode(b[3..]), b[..3], b[3..]);
    }
  }

  /** At most one group: the text is that group's text. */
  lemma DecodeEncodeShort(b: seq<byte>)
    requires |b| <= 3
    ensures Decode(Encode(b)) == Some(b)
  {
    if b != [] {
      DecodeEncodeGroup(b);
    }
  }

  /** Longer inputs are encoded one leading group at a time. */
  lemma EncodeStep(b: seq<byte>)
    requires |b| > 3
    ensures Encode(b) == EncodeGroup(b[..3]) + Encode(b[3..]) && |Encode(b[3..])| >= 2
    ensures b[..3] + b[3..] == b
  {
  }

  /** A full group followed by more text decodes group by group. */
  lemma DecodeConcat(head: string, tail: string, h: seq<byte>, t: seq<byte>)
    requires |head| == 4 && |tail| >= 2
    requires DecodeGroup(head) == Some(h) && Decode(tail) == Some(t)
    ensures Decode(head + tail) == Some(h + t)
  {
    var s := head + tail;
    assert s[..4] == head && s[4..] == tail;
  }

  /** Distinct byte sequences have distinct base64url texts. */
  lemma EncodeInjective(a: seq<byte>, b: seq<byte>)
    requires Encode(a) == Encode(b)
    ensures a == b
  {
    DecodeEncode(a);
    DecodeEncode(b);
  }

  /** The text holds no path separator and no padding: it is usable as a file name. */
  lemma EncodeIsFilenameSafe(b: seq<byte>)
    ensures '/' !in Encode(b) && '\\' !in Encode(b) && '=' !in Encode(b) && '+' !in Encode(b)
  {
  }

  /** Inputs of at most three bytes are a single group. */
  lemma ShortEncode(b: seq<byte>)
    requires 1 <= |b| <= 3
    ensures Encode(b) == EncodeGroup(b)
  {
  }

  /**
   * The test vectors "f", "fo" and "foo" of section 10 of RFC 4648, without
   * their padding. The bytes are parameters fixed by the precondition rather
   * than literals in the postcondition: applied to literal arguments, `Encode`
   * is unfolded eagerly by the solver, which makes these small facts costly.
   */
  lemma VectorF(f: byte)
    requires f == 0x66
    ensures Encode([f]) == "Zg"
  {
    ShortEncode([f]);
    assert f as int / 4 == 25 && f as int % 4 * 16 == 32;
  }

  lemma VectorFo(f: byte, o: byte)
    requires f == 0x66 && o == 0x6F
    ensures Encode([f, o]) == "Zm8"
  {
    ShortEncode([f, o]);
    assert f as int / 4 == 25 && f as int % 4 * 16 + o as int / 16 == 38 && o as int % 16 * 4 == 60;
  }

  lemma VectorFoo(f: byte, o: byte)
    requires f == 0x66 && o == 0x6F
    ensures Encode([f, o, o]) == "Zm9v"
  {
    ShortEncode([f, o, o]);
    assert f as int / 4 == 25 && f as int % 4 * 16 + o as int / 16 == 38;
    assert o as int % 16 * 4 + o as int / 64 == 61 && o as int % 64 == 47;
  }

  /** Two bytes whose text uses both characters that differ from the standard alphabet (`+/8=` there); the bytes are parameters for the same reason. */
  lemma UrlSafeVector(x: byte, y: byte)
    requires x == 0xFB && y == 0xFF
    ensures Encode([x, y]) == "-_8"
  {
    ShortEncode([x, y]);
    assert x as int / 4 == 62 && x as int % 4 * 16 + y as int / 16 == 63 && y as int % 16 * 4 == 60;
  }
}

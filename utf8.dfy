/**
  Well-formed UTF-8 as Foundation's `String(data:encoding: .utf8)` accepts it: the
  decoder yields `None` exactly on ill-formed input (table 3-7 of the Unicode
  standard: no overlong forms, no surrogates, nothing above U+10FFFF).
 */
module Utf8 {
  import opened Wrappers
  import opened Bytes

  predicate IsContinuation(b: Byte) { 0x80 <= b <= 0xBF }

  /** The scalar value at the front of `b` and its encoded length, if `b` starts well-formed. */
  function DecodeFirst(b: seq<Byte>): (r: Option<(char, nat)>)
    requires |b| > 0
    ensures r.Some? ==> 1 <= r.value.1 <= 4 && r.value.1 <= |b|
  {
    var b0: int := b[0];
    if b0 < 0x80 then
      Some((b0 as char, 1))
    else if 0xC2 <= b0 <= 0xDF then
      if |b| >= 2 && IsContinuation(b[1]) then
        Some((Scalar2(b0, b[1]) as char, 2))
      else None
    else if 0xE0 <= b0 <= 0xEF then
      var lo := if b0 == 0xE0 then 0xA0 else 0x80;
      var hi := if b0 == 0xED then 0x9F else 0xBF;
      if |b| >= 3 && lo <= b[1] <= hi && IsContinuation(b[2]) then
        Some((Scalar3(b0, b[1], b[2]) as char, 3))
      else None
    else if 0xF0 <= b0 <= 0xF4 then
      var lo := if b0 == 0xF0 then 0x90 else 0x80;
      var hi := if b0 == 0xF4 then 0x8F else 0xBF;
      if |b| >= 4 && lo <= b[1] <= hi && IsContinuation(b[2]) && IsContinuation(b[3]) then
        Some((Scalar4(b0, b[1], b[2], b[3]) as char, 4))
      else None
    else
      None
  }

  /** The payload bits of a two-, three- and four-byte sequence, lead byte first. */
  function Scalar2(b0: int, b1: int): int { (b0 - 0xC0) * 64 + (b1 - 0x80) }

  function Scalar3(b0: int, b1: int, b2: int): int { (b0 - 0xE0) * 4096 + (b1 - 0x80) * 64 + (b2 - 0x80) }

  function Scalar4(b0: int, b1: int, b2: int, b3: int): int
  {
    (b0 - 0xF0) * 262144 + (b1 - 0x80) * 4096 + (b2 - 0x80) * 64 + (b3 - 0x80)
  }

  /** `String(data:encoding: .utf8)`. */
  function Decode(b: seq<Byte>): (r: Option<string>)
    decreases |b|
  {
    if b == [] then Some([])
    else
      match DecodeFirst(b)
      case None => None
      case Some((c, k)) =>
        match Decode(b[k..])
        case None => None
        case Some(s) => Some([c] + s)
  }

  /** The UTF-8 form of one scalar value. */
  function EncodeChar(c: char): (r: seq<Byte>)
    ensures 1 <= |r| <= 4
  {
    var cp := c as int;
    if cp < 0x80 then [cp]
    else if cp < 0x800 then [0xC0 + cp / 64, 0x80 + cp % 64]
    else if cp < 0x1_0000 then [0xE0 + cp / 4096, 0x80 + (cp / 64) % 64, 0x80 + cp % 64]
    else [0xF0 + cp / 262144, 0x80 + (cp / 4096) % 64, 0x80 + (cp / 64) % 64, 0x80 + cp % 64]
  }

  function Encode(s: string): (r: seq<Byte>)
    ensures |s| <= |r| <= 4 * |s|
  {
    if s == [] then [] else EncodeChar(s[0]) + Encode(s[1..])
  }

  lemma DecodeFirstEncodeChar(c: char, rest: seq<Byte>)
    ensures DecodeFirst(EncodeChar(c) + rest) == Some((c, |EncodeChar(c)|))
  {
    var cp := c as int;
    if cp < 0x80 {
      assert (EncodeChar(c) + rest)[0] == cp;
    } else if cp < 0x800 {
      DecodeTwo(c, rest);
    } else if cp < 0x1_0000 {
      DecodeThree(c, rest);
    } else {
      DecodeFour(c, rest);
    }
  }

  lemma DecodeTwo(c: char, rest: seq<Byte>)
    requires 0x80 <= c as int < 0x800
    ensures DecodeFirst(EncodeChar(c) + rest) == Some((c, 2))
  {
    var cp := c as int;
    var b := EncodeChar(c) + rest;
    var b0: int, b1: int := 0xC0 + cp / 64, 0x80 + cp % 64;
    assert b[0] == b0 && b[1] == b1;
    assert Scalar2(b0, b1) == cp;
  }

  lemma DecodeThree(c: char, rest: seq<Byte>)
    requires 0x800 <= c as int < 0x1_0000
    ensures DecodeFirst(EncodeChar(c) + rest) == Some((c, 3))
  {
    var cp := c as int;
    var b := EncodeChar(c) + rest;
    var b0: int, b1: int, b2: int := 0xE0 + cp / 4096, 0x80 + (cp / 64) % 64, 0x80 + cp % 64;
    assert b[0] == b0 && b[1] == b1 && b[2] == b2;
    assert cp / 4096 == (cp / 64) / 64;
    assert Scalar3(b0, b1, b2) == cp;
    assert b0 == 0xE0 ==> b1 >= 0xA0;
    assert b0 == 0xED ==> b1 <= 0x9F;
  }

  lemma DecodeFour(c: char, rest: seq<Byte>)
    requires 0x1_0000 <= c as int
    ensures DecodeFirst(EncodeChar(c) + rest) == Some((c, 4))
  {
    var cp := c as int;
    var b := EncodeChar(c) + rest;
    var b0: int, b1: int, b2: int, b3: int :=
      0xF0 + cp / 262144, 0x80 + (cp / 4096) % 64, 0x80 + (cp / 64) % 64, 0x80 + cp % 64;
    assert b[0] == b0 && b[1] == b1 && b[2] == b2 && b[3] == b3;
    assert cp / 4096 == (cp / 64) / 64;
    assert cp / 262144 == ((cp / 64) / 64) / 64;
    assert Scalar4(b0, b1, b2, b3) == cp;
    assert b0 == 0xF0 ==> b1 >= 0x90;
    assert b0 == 0xF4 ==> b1 <= 0x8F;
  }

  lemma {:induction false} DecodeEncode(s: string)
    ensures Decode(Encode(s)) == Some(s)
  {
    if s != [] {
      var b := Encode(s);
      var k := |EncodeChar(s[0])|;
      DecodeFirstEncodeChar(s[0], Encode(s[1..]));
      assert b == EncodeChar(s[0]) + Encode(s[1..]);
      assert b[k..] == Encode(s[1..]);
      DecodeEncode(s[1..]);
      assert [s[0]] + s[1..] == s;
    }
  }

  lemma DivMod64(q: int, r: int)
    requires 0 <= r < 64
    ensures (q * 64 + r) / 64 == q && (q * 64 + r) % 64 == r
  {
  }

  lemma DecodeFirstIsEncoding(b: seq<Byte>)
    requires |b| > 0 && DecodeFirst(b).Some?
    ensures EncodeChar(DecodeFirst(b).value.0) == b[..DecodeFirst(b).value.1]
  {
    var (c, k) := DecodeFirst(b).value;
    var cp := c as int;
    if k == 2 {
      DivMod64(b[0] - 0xC0, b[1] - 0x80);
      assert EncodeChar(c) == [b[0], b[1]];
    } else if k == 3 {
      var hi: int := (b[0] as int - 0xE0) * 64 + (b[1] as int - 0x80);
      DivMod64(hi, b[2] - 0x80);
      DivMod64(b[0] - 0xE0, b[1] - 0x80);
      assert cp / 4096 == (cp / 64) / 64;
      assert EncodeChar(c) == [b[0], b[1], b[2]];
    } else if k == 4 {
      var top: int := (b[0] as int - 0xF0) * 64 + (b[1] as int - 0x80);
      var mid: int := top * 64 + (b[2] as int - 0x80);
      DivMod64(mid, b[3] - 0x80);
      DivMod64(top, b[2] - 0x80);
      DivMod64(b[0] - 0xF0, b[1] - 0x80);
      assert cp / 4096 == (cp / 64) / 64;
      assert cp / 262144 == ((cp / 64) / 64) / 64;
      assert EncodeChar(c) == [b[0], b[1], b[2], b[3]];
    }
  }

  /** Decoding is injective: well-formed input is the encoding of what it decodes to. */
  lemma {:induction false} EncodeDecode(b: seq<Byte>)
    requires Decode(b).Some?
    ensures Encode(Decode(b).value) == b
    decreases |b|
  {
    if b != [] {
      var (c, k) := DecodeFirst(b).value;
      DecodeFirstIsEncoding(b);
      EncodeDecode(b[k..]);
      assert Decode(b).value == [c] + Decode(b[k..]).value;
      assert b == b[..k] + b[k..];
    }
  }
}

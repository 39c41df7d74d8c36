/**
  Bytes and the fixed-width little-endian integer layouts that `Data(bytes:count:)`
  produces for a native Swift integer on a little-endian machine.
 */
module Bytes {

  type Byte = b: int | 0 <= b < 256

  function Pow256(n: nat): (r: nat)
    ensures r >= 1
  {
    if n == 0 then 1 else 256 * Pow256(n - 1)
  }

  /** The `n` bytes of `x`, least significant first. */
  function EncodeUnsigned(x: nat, n: nat): (r: seq<Byte>)
    requires x < Pow256(n)
    ensures |r| == n
  {
    if n == 0 then [] else [x % 256] + EncodeUnsigned(x / 256, n - 1)
  }

  /** The value of a little-endian unsigned byte string. */
  function DecodeUnsigned(b: seq<Byte>): (r: nat)
    ensures r < Pow256(|b|)
  {
    if b == [] then 0 else b[0] + 256 * DecodeUnsigned(b[1..])
  }

  lemma {:induction false} DecodeEncodeUnsigned(x: nat, n: nat)
    requires x < Pow256(n)
    ensures DecodeUnsigned(EncodeUnsigned(x, n)) == x
  {
    if n > 0 {
      var b := EncodeUnsigned(x, n);
      assert b[1..] == EncodeUnsigned(x / 256, n - 1);
      DecodeEncodeUnsigned(x / 256, n - 1);
    }
  }

  lemma {:induction false} EncodeDecodeUnsigned(b: seq<Byte>)
    ensures EncodeUnsigned(DecodeUnsigned(b), |b|) == b
  {
    if b != [] {
      var x := DecodeUnsigned(b);
      assert x % 256 == b[0] && x / 256 == DecodeUnsigned(b[1..]);
      EncodeDecodeUnsigned(b[1..]);
    }
  }

  /** True when `x` fits a signed integer of `n` bytes (Swift's `Int16`, `Int32`, `Int64`). */
  predicate InSignedRange(x: int, n: nat)
  {
    n > 0 && -(Pow256(n) as int / 2) <= x < Pow256(n) / 2
  }

  /** The `n`-byte two's-complement representation of `x`, least significant byte first. */
  function EncodeSigned(x: int, n: nat): (r: seq<Byte>)
    requires InSignedRange(x, n)
    ensures |r| == n
  {
    EncodeUnsigned(if x < 0 then x + Pow256(n) else x, n)
  }

  /** Reads a little-endian two's-complement integer. */
  function DecodeSigned(b: seq<Byte>): (r: int)
    ensures b != [] ==> InSignedRange(r, |b|)
  {
    var u := DecodeUnsigned(b);
    if b != [] && u >= Pow256(|b|) / 2 then u - Pow256(|b|) else u
  }

  lemma DecodeEncodeSigned(x: int, n: nat)
    requires InSignedRange(x, n)
    ensures DecodeSigned(EncodeSigned(x, n)) == x
  {
    DecodeEncodeUnsigned(if x < 0 then x + Pow256(n) else x, n);
  }

  lemma EncodeDecodeSigned(b: seq<Byte>)
    requires b != []
    ensures EncodeSigned(DecodeSigned(b), |b|) == b
  {
    EncodeDecodeUnsigned(b);
  }

  /**
    Sign extension: the `m`-byte encoding of a value that fits `n <= m` bytes is its
    `n`-byte encoding followed by `m - n` copies of the sign byte (0x00 or 0xFF).
   */
  lemma {:induction false} SignExtension(x: int, n: nat, m: nat)
    requires InSignedRange(x, n) && n <= m
    ensures InSignedRange(x, m)
    ensures EncodeSigned(x, m) == EncodeSigned(x, n) + Fill(if x < 0 then 255 else 0, m - n)
  {
    PowMonotone(n, m);
    if n == m {
      assert Fill(if x < 0 then 255 else 0, 0) == [];
    } else {
      SignExtension(x, n, m - 1);
      var s: Byte := if x < 0 then 255 else 0;
      calc {
        EncodeSigned(x, m);
        { SignExtensionStep(x, m - 1); }
        EncodeSigned(x, m - 1) + [s];
        EncodeSigned(x, n) + Fill(s, m - 1 - n) + [s];
        { FillAppend(s, m - 1 - n); }
        EncodeSigned(x, n) + Fill(s, m - n);
      }
    }
  }

  function Fill(b: Byte, k: nat): (r: seq<Byte>)
    ensures |r| == k && forall i :: 0 <= i < k ==> r[i] == b
  {
    if k == 0 then [] else [b] + Fill(b, k - 1)
  }

  lemma FillAppend(b: Byte, k: nat)
    ensures Fill(b, k) + [b] == Fill(b, k + 1)
  {
  }

  lemma {:induction false} PowMonotone(n: nat, m: nat)
    requires n <= m
    ensures Pow256(n) <= Pow256(m)
  {
    if n < m {
      PowMonotone(n, m - 1);
    }
  }

  /** Widening by one byte appends the sign byte. */
  lemma {:induction false} SignExtensionStep(x: int, k: nat)
    requires InSignedRange(x, k)
    ensures InSignedRange(x, k + 1)
    ensures EncodeSigned(x, k + 1) == EncodeSigned(x, k) + [if x < 0 then 255 else 0]
  {
    var u := if x < 0 then x + Pow256(k) else x;
    var w := if x < 0 then x + Pow256(k + 1) else x;
    assert w == u + (if x < 0 then 255 * Pow256(k) else 0);
    UnsignedTopByte(u, k, if x < 0 then 255 else 0);
  }

  /** Writing a top byte `t` above a `k`-byte value extends its encoding by `t`. */
  lemma {:induction false} UnsignedTopByte(u: nat, k: nat, t: Byte)
    requires u < Pow256(k)
    ensures u + t * Pow256(k) < Pow256(k + 1)
    ensures EncodeUnsigned(u + t * Pow256(k), k + 1) == EncodeUnsigned(u, k) + [t]
  {
    if k == 0 {
    } else {
      var v := u + t * Pow256(k);
      assert Pow256(k) == 256 * Pow256(k - 1);
      assert v % 256 == u % 256 && v / 256 == u / 256 + t * Pow256(k - 1) by {
        assert v == u % 256 + 256 * (u / 256 + t * Pow256(k - 1));
      }
      UnsignedTopByte(u / 256, k - 1, t);
    }
  }
}

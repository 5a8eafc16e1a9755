/** Byte strings and the big-endian integer fields of `struct.pack`. */
module Bytes {
  import opened Prelude

  type byte = x: int | 0 <= x < 256
  type Bytes = seq<byte>

  /** The IEEE-754 double written by `struct.pack(">d", x)`, kept as its eight bytes. */
  type Double = b: Bytes | |b| == 8 witness [0, 0, 0, 0, 0, 0, 0, 0]

  /** `math.isfinite`: the eleven exponent bits are not all one. */
  predicate Finite(ts: Double) {
    !(ts[0] % 128 == 127 && ts[1] / 16 == 15)
  }

  function Pow256(k: nat): (p: nat)
    ensures p > 0
  {
    if k == 0 then 1 else 256 * Pow256(k - 1)
  }

  /** `width` big-endian bytes of n (callers check the range first). */
  function BigEndian(n: nat, width: nat): (b: Bytes)
    ensures |b| == width
  {
    if width == 0 then [] else BigEndian(n / 256, width - 1) + [n % 256]
  }

  /** The number a big-endian field stands for. */
  function Number(b: Bytes): nat {
    if b == [] then 0 else Number(b[..|b| - 1]) * 256 + b[|b| - 1]
  }

  lemma {:induction false} NumberOfBigEndian(n: nat, width: nat)
    requires n < Pow256(width)
    ensures Number(BigEndian(n, width)) == n
  {
    if width > 0 {
      NumberOfBigEndian(n / 256, width - 1);
      assert BigEndian(n, width)[..width - 1] == BigEndian(n / 256, width - 1);
    }
  }

  lemma {:induction false} BigEndianOfNumber(b: Bytes)
    ensures Number(b) < Pow256(|b|)
    ensures BigEndian(Number(b), |b|) == b
  {
    if b != [] {
      BigEndianOfNumber(b[..|b| - 1]);
      assert b == b[..|b| - 1] + [b[|b| - 1]];
    }
  }

  lemma DivideTwice(n: nat, m: nat)
    requires m >= 1
    ensures n / 256 / m == n / (256 * m)
  {
    var q, r := n / (256 * m), n % (256 * m);
    assert 256 * m * q == 256 * (m * q);
    assert n == 256 * (m * q + r / 256) + r % 256;
    QuotientOf(m * q + r / 256, 256, r % 256);
    QuotientOf(q, m, r / 256);
  }

  /** Most significant byte first: byte i counts the 256^(width - 1 - i)s. */
  lemma {:induction false} BigEndianAt(n: nat, width: nat, i: nat)
    requires i < width
    ensures BigEndian(n, width)[i] == n / Pow256(width - 1 - i) % 256
  {
    if i < width - 1 {
      BigEndianAt(n / 256, width - 1, i);
      DivideTwice(n, Pow256(width - 2 - i));
    }
  }

  /** And read so: what comes first weighs more. */
  lemma {:induction false} NumberConcat(a: Bytes, b: Bytes)
    ensures Number(a + b) == Number(a) * Pow256(|b|) + Number(b)
  {
    if b == [] {
      assert a + b == a;
    } else {
      var n := |b| - 1;
      NumberConcat(a, b[..n]);
      assert (a + b)[..|a + b| - 1] == a + b[..n];
      Distribute(Number(a), Pow256(n));
    }
  }

  lemma Distribute(x: nat, p: nat)
    ensures x * p * 256 == x * (256 * p)
  {}

  /** The eleven bits after the sign bit are not all one. */
  lemma FiniteIsExponent(ts: Double)
    ensures Finite(ts) <==> Number(ts[..2]) / 16 % 2048 != 2047
  {
    var high: int, low: int := ts[0], ts[1];
    assert ts[..2][..1] == [ts[0]] && ts[..2][..1][..0] == [];
    assert Number(ts[..2][..1]) == high;
    assert Number(ts[..2]) == high * 256 + low;
  }

  lemma FieldWidths()
    ensures Pow256(1) == 0x100
    ensures Pow256(2) == 0x1_0000
    ensures Pow256(4) == 0x1_0000_0000
    ensures Pow256(8) == 0x1_0000_0000_0000_0000
  {
    assert Pow256(3) == 256 * Pow256(2);
    assert Pow256(5) == 256 * Pow256(4);
    assert Pow256(7) == 256 * 256 * Pow256(5);
  }

  const MAX_U16 := 0xFFFF
  const MAX_U32 := 0xFFFF_FFFF
  const MAX_U64 := 0xFFFF_FFFF_FFFF_FFFF

  function U16(n: nat): Bytes { BigEndian(n, 2) }
  function U32(n: nat): Bytes { BigEndian(n, 4) }
  function U64(n: nat): Bytes { BigEndian(n, 8) }

  /** A field that fits its width is read back. */
  lemma {:induction false} ReadField(n: nat, width: nat)
    requires width in {1, 2, 4, 8}
    requires n < Pow256(width)
    ensures Number(BigEndian(n, width)) == n
  {
    NumberOfBigEndian(n, width);
  }

  lemma Associative<T>(a: seq<T>, b: seq<T>, c: seq<T>)
    ensures a + b + c == a + (b + c)
  {}

  /** Two concatenations with equally long heads agree part by part. */
  lemma SplitConcat<T>(a: seq<T>, b: seq<T>, c: seq<T>, d: seq<T>)
    requires a + b == c + d
    requires |a| == |c|
    ensures a == c && b == d
  {
    assert a == (a + b)[..|a|] && c == (c + d)[..|c|];
    assert b == (a + b)[|a|..] && d == (c + d)[|c|..];
  }
}

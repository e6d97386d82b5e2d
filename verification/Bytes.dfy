/** Fixed-width big-endian and little-endian encodings of natural numbers. */
module Bytes {

  import opened Machine

  function Pow256(k: nat): (p: nat)
    ensures p >= 1
  {
    if k == 0 then 1 else 256 * Pow256(k - 1)
  }

  /** The low `width` base-256 digits of `v`, most significant first. */
  function BigEndian(v: nat, width: nat): (b: seq<Byte>)
    ensures |b| == width
  {
    if width == 0 then [] else BigEndian(v / 256, width - 1) + [v % 256]
  }

  function FromBigEndian(b: seq<Byte>): (v: nat)
    ensures v < Pow256(|b|)
  {
    if b == [] then 0 else FromBigEndian(b[..|b| - 1]) * 256 + b[|b| - 1]
  }

  lemma {:induction false} EncodeDecode(v: nat, width: nat)
    requires v < Pow256(width)
    ensures FromBigEndian(BigEndian(v, width)) == v
  {
    if width > 0 {
      EncodeDecode(v / 256, width - 1);
      var b := BigEndian(v, width);
      assert b[..|b| - 1] == BigEndian(v / 256, width - 1);
    }
  }

  lemma {:induction false} DecodeEncode(b: seq<Byte>)
    ensures BigEndian(FromBigEndian(b), |b|) == b
  {
    if b != [] {
      DecodeEncode(b[..|b| - 1]);
      assert b == b[..|b| - 1] + [b[|b| - 1]];
    }
  }

  /** The digit of weight 256^k in base 256. */
  function Digit256(v: nat, k: nat): Byte {
    v / Pow256(k) % 256
  }

  lemma {:induction false} BigEndianDigit(v: nat, width: nat, k: nat)
    requires k < width
    ensures BigEndian(v, width)[k] == Digit256(v, width - 1 - k)
  {
    if k < width - 1 {
      BigEndianDigit(v / 256, width - 1, k);
      var p := Pow256(width - 2 - k);
      DivideTwice(v, p);
    } else {
      assert Pow256(0) == 1 && v / 1 == v;
    }
  }

  /** The `width` bytes from `at` on are the base-256 digits of `n`, most significant first. */
  ghost predicate HoldsNumber(b: seq<Byte>, at: nat, width: nat, n: nat) {
    at + width <= |b| && forall k :: at <= k < at + width ==> b[k] == Digit256(n, at + width - 1 - k)
  }

  lemma NumberStands(b: seq<Byte>, head: seq<Byte>, n: nat, width: nat, tail: seq<Byte>)
    requires b == head + BigEndian(n, width) + tail
    ensures HoldsNumber(b, |head|, width, n)
  {
    forall k | |head| <= k < |head| + width
      ensures b[k] == Digit256(n, |head| + width - 1 - k)
    {
      BigEndianDigit(n, width, k - |head|);
    }
  }

  lemma DivideTwice(v: nat, p: nat)
    requires p > 0
    ensures v / 256 / p == v / (256 * p)
  {
    var q, r := v / 256, v % 256;
    var t, u := q / p, q % p;
    assert v == 256 * q + r && q == p * t + u;
    assert v == 256 * (p * t + u) + r == 256 * p * t + (256 * u + r);
    assert 256 * u + r < 256 * p;
    Quotient(v, 256 * p, t, 256 * u + r);
  }

  lemma Quotient(a: nat, n: nat, q: nat, r: nat)
    requires r < n && a == n * q + r
    ensures a / n == q && a % n == r
  {
    var p := a / n;
    assert a == n * p + a % n;
    assert n * (p + 1) == n * p + n && n * (q + 1) == n * q + n;
    assert p < q ==> n * (p + 1) <= n * q;
    assert q < p ==> n * (q + 1) <= n * p;
  }

  lemma {:induction false} FromBigEndianConcat(a: seq<Byte>, b: seq<Byte>)
    ensures FromBigEndian(a + b) == FromBigEndian(a) * Pow256(|b|) + FromBigEndian(b)
  {
    if b == [] {
      assert a + b == a;
    } else {
      var b' := b[..|b| - 1];
      FromBigEndianConcat(a, b');
      assert (a + b)[..|a + b| - 1] == a + b';
      Scale(FromBigEndian(a), Pow256(|b'|), FromBigEndian(b'), b[|b| - 1]);
    }
  }

  lemma Scale(x: nat, p: nat, y: nat, z: nat)
    ensures (x * p + y) * 256 + z == x * (256 * p) + (y * 256 + z)
  {
  }

  /** Byte-wise comparison of equally long strings agrees with the numbers they denote. */
  lemma FirstDifferenceDecides(a: seq<Byte>, b: seq<Byte>, k: nat)
    requires |a| == |b|
    requires k < |a| && a[..k] == b[..k] && a[k] < b[k]
    ensures FromBigEndian(a) < FromBigEndian(b)
  {
    var u, v := a[..k] + [a[k]], b[..k] + [b[k]];
    assert a == u + a[k + 1..] && b == v + b[k + 1..];
    HeadDecides(a[..k] + [a[k]], a[k + 1..], b[..k] + [b[k]], b[k + 1..]) by {
      LastDigit(a[..k], a[k]);
      LastDigit(b[..k], b[k]);
    }
  }

  lemma HeadDecides(a: seq<Byte>, a': seq<Byte>, b: seq<Byte>, b': seq<Byte>)
    requires |a'| == |b'|
    requires FromBigEndian(a) < FromBigEndian(b)
    ensures FromBigEndian(a + a') < FromBigEndian(b + b')
  {
    FromBigEndianConcat(a, a');
    FromBigEndianConcat(b, b');
    Gap(FromBigEndian(a), FromBigEndian(b), Pow256(|a'|), FromBigEndian(a'), FromBigEndian(b'));
  }

  lemma LastDigit(a: seq<Byte>, d: Byte)
    ensures FromBigEndian(a + [d]) == FromBigEndian(a) * 256 + d
  {
    assert (a + [d])[..|a|] == a;
  }

  lemma Gap(x: nat, y: nat, p: nat, r: nat, t: nat)
    requires x < y && r < p
    ensures x * p + r < y * p + t
  {
    assert (x + 1) * p <= y * p;
  }

  /** Only the all-zero string denotes zero. */
  lemma {:induction false} ZeroIffAllZero(b: seq<Byte>)
    ensures FromBigEndian(b) == 0 <==> forall i :: 0 <= i < |b| ==> b[i] == 0
  {
    if b != [] {
      ZeroIffAllZero(b[..|b| - 1]);
    }
  }

  lemma Pow256Values()
    ensures Pow256(4) == 0x1_0000_0000
    ensures Pow256(8) == U64_MODULUS
    ensures Pow256(16) == 0x1_0000_0000_0000_0000_0000_0000_0000_0000
    ensures Pow256(32) ==
      0x1_0000_0000_0000_0000_0000_0000_0000_0000_0000_0000_0000_0000_0000_0000_0000_0000
  {
    assert Pow256(4) == 0x1_0000_0000;
    assert Pow256(8) == U64_MODULUS;
    assert Pow256(12) == 0x1_0000_0000_0000_0000_0000_0000;
    assert Pow256(16) == 0x1_0000_0000_0000_0000_0000_0000_0000_0000;
    assert Pow256(20) == 0x1_0000_0000_0000_0000_0000_0000_0000_0000_0000_0000;
    assert Pow256(24) == 0x1_0000_0000_0000_0000_0000_0000_0000_0000_0000_0000_0000_0000;
    assert Pow256(28) == 0x1_0000_0000_0000_0000_0000_0000_0000_0000_0000_0000_0000_0000_0000_0000;
  }
}

/**
 Closeness of public keys (mintox/dht.go): byte-wise XOR distance, compared from the first byte.
 */
module XorDistance {
  import opened Bytes

  const KEY_SIZE := 32

  function Pow2(n: nat): nat {
    if n == 0 then 1 else 2 * Pow2(n - 1)
  }

  /** Exclusive or of the lowest `n` bits. */
  function XorBits(n: nat, a: nat, b: nat): (r: nat)
    ensures r < Pow2(n)
  {
    if n == 0 then 0 else 2 * XorBits(n - 1, a / 2, b / 2) + (a + b) % 2
  }

  function XorByte(a: Byte, b: Byte): Byte {
    assert Pow2(8) == 256 by { assert Pow2(4) == 16; }
    XorBits(8, a, b)
  }

  lemma {:induction false} XorBitsCancel(n: nat, c: nat, a: nat, b: nat)
    requires a < Pow2(n) && b < Pow2(n) && XorBits(n, c, a) == XorBits(n, c, b)
    ensures a == b
  {
    if n > 0 {
      var x, y := XorBits(n - 1, c / 2, a / 2), XorBits(n - 1, c / 2, b / 2);
      Digits(x, (c + a) % 2, y, (c + b) % 2);
      XorBitsCancel(n - 1, c / 2, a / 2, b / 2);
      SameParity(c, a, b);
    }
  }

  lemma Digits(x: nat, p: nat, y: nat, q: nat)
    requires p < 2 && q < 2 && 2 * x + p == 2 * y + q
    ensures x == y && p == q
  {
  }

  lemma SameParity(c: nat, a: nat, b: nat)
    requires (c + a) % 2 == (c + b) % 2 && a / 2 == b / 2
    ensures a == b
  {
  }

  /** Bit `i` of `x`. */
  function Bit(i: nat, x: nat): nat {
    if i == 0 then x % 2 else Bit(i - 1, x / 2)
  }

  /** Each of the lowest `n` bits of the exclusive or is set exactly when the two bits differ. */
  lemma {:induction false} XorIsBitwise(n: nat, a: nat, b: nat, i: nat)
    requires i < n
    ensures Bit(i, XorBits(n, a, b)) == 1 <==> Bit(i, a) != Bit(i, b)
    ensures Bit(i, XorBits(n, a, b)) <= 1
  {
    XorHalves(n, a, b);
    if i == 0 {
      Differ(a, b);
    } else {
      XorIsBitwise(n - 1, a / 2, b / 2, i - 1);
    }
  }

  lemma XorHalves(n: nat, a: nat, b: nat)
    requires n > 0
    ensures XorBits(n, a, b) / 2 == XorBits(n - 1, a / 2, b / 2) && XorBits(n, a, b) % 2 == (a + b) % 2
  {
  }

  lemma Differ(a: nat, b: nat)
    ensures (a + b) % 2 == 1 <==> a % 2 != b % 2
  {
  }

  lemma {:induction false} XorBitsMetric(n: nat, a: nat, b: nat, c: nat)
    ensures XorBits(n, a, b) == XorBits(n, b, a) && XorBits(n, a, a) == 0
    ensures XorBits(n, a, c) <= XorBits(n, a, b) + XorBits(n, b, c)
  {
    if n > 0 {
      XorBitsMetric(n - 1, a / 2, b / 2, c / 2);
      LastBits(a, b, c);
    }
  }

  lemma LastBits(a: nat, b: nat, c: nat)
    ensures (a + a) % 2 == 0 && (a + c) % 2 <= (a + b) % 2 + (b + c) % 2
  {
  }

  lemma Halves(a: nat, p: nat, x: nat, v: nat)
    requires v == a * (2 * p) + x
    ensures v / 2 == a * p + x / 2 && v % 2 == x % 2
  {
    assert a * (2 * p) == 2 * (a * p);
  }

  lemma Shifted(high: nat, p: nat, low: nat, bit: nat)
    ensures 2 * (high * p + low) + bit == high * (2 * p) + (2 * low + bit)
  {
  }

  /** High and low bits are combined separately. */
  lemma {:induction false} XorSplits(n: nat, m: nat, p: nat, a: nat, x: nat, b: nat, y: nat, v: nat, w: nat)
    requires p == Pow2(m) && x < p && y < p && v == a * p + x && w == b * p + y
    ensures XorBits(n + m, v, w) == XorBits(n, a, b) * p + XorBits(m, x, y)
    decreases m
  {
    if m > 0 {
      var q := Pow2(m - 1);
      Halves(a, q, x, v);
      Halves(b, q, y, w);
      XorSplits(n, m - 1, q, a, x / 2, b, y / 2, v / 2, w / 2);
      OneMoreBit(n, m, a, x, b, y, q, v, w);
    }
  }

  lemma OneMoreBit(n: nat, m: nat, a: nat, x: nat, b: nat, y: nat, q: nat, v: nat, w: nat)
    requires m > 0 && v % 2 == x % 2 && w % 2 == y % 2
    requires XorBits(n + (m - 1), v / 2, w / 2) == XorBits(n, a, b) * q + XorBits(m - 1, x / 2, y / 2)
    ensures XorBits(n + m, v, w) == XorBits(n, a, b) * (2 * q) + XorBits(m, x, y)
  {
    SameLastBit(v, w, x, y);
    Shifted(XorBits(n, a, b), q, XorBits(m - 1, x / 2, y / 2), (x + y) % 2);
  }

  lemma SameLastBit(a: nat, b: nat, x: nat, y: nat)
    requires a % 2 == x % 2 && b % 2 == y % 2
    ensures (a + b) % 2 == (x + y) % 2
  {
  }

  lemma XorByteCancel(c: Byte, a: Byte, b: Byte)
    requires XorByte(c, a) == XorByte(c, b)
    ensures a == b
  {
    assert Pow2(8) == 256 by { assert Pow2(4) == 16; }
    XorBitsCancel(8, c, a, b);
  }

  /** The value `IDDistance` returns. */
  function Xor(a: Key, b: Key): (d: Key)
    ensures forall i | 0 <= i < KEY_SIZE :: d[i] == XorByte(a[i], b[i])
  {
    seq(KEY_SIZE, i requires 0 <= i < KEY_SIZE => XorByte(a[i], b[i]))
  }

  /** The distance as a 256-bit number. */
  function Distance(a: Key, b: Key): nat {
    BigEndian(Xor(a, b))
  }

  /** Combining byte by byte is combining the numbers. */
  lemma {:induction false} XorOfBytes(s: seq<Byte>, t: seq<Byte>, d: seq<Byte>)
    requires |s| == |t| == |d| && forall i | 0 <= i < |s| :: d[i] == XorByte(s[i], t[i])
    ensures BigEndian(d) == XorBits(8 * |s|, BigEndian(s), BigEndian(t))
  {
    if s != [] {
      var n := |s| - 1;
      XorOfBytes(s[..n], t[..n], d[..n]);
      assert Pow2(8) == 256 by { assert Pow2(4) == 16; }
      XorSplits(8 * n, 8, 256, BigEndian(s[..n]), s[n], BigEndian(t[..n]), t[n], BigEndian(s), BigEndian(t));
    }
  }

  /** The distance is the exclusive or of the two keys as 256-bit numbers, bit by bit. */
  lemma DistanceIsBitwise(a: Key, b: Key, i: nat)
    requires i < 256
    ensures Bit(i, Distance(a, b)) == 1 <==> Bit(i, BigEndian(a)) != Bit(i, BigEndian(b))
  {
    XorOfBytes(a, b, Xor(a, b));
    XorIsBitwise(256, BigEndian(a), BigEndian(b), i);
  }

  /** The distance is a metric: 0 exactly between equal keys, symmetric, and with the triangle inequality. */
  lemma DistanceIsAMetric(a: Key, b: Key, c: Key)
    ensures Distance(a, b) == 0 <==> a == b
    ensures Distance(a, b) == Distance(b, a)
    ensures Distance(a, c) <= Distance(a, b) + Distance(b, c)
  {
    XorOfBytes(a, b, Xor(a, b));
    XorOfBytes(b, a, Xor(b, a));
    XorOfBytes(b, c, Xor(b, c));
    XorOfBytes(a, c, Xor(a, c));
    XorOfBytes(a, a, Xor(a, a));
    XorBitsMetric(256, BigEndian(a), BigEndian(b), BigEndian(c));
    if Distance(a, b) == 0 { DistanceInjective(a, b, a); }
  }

  /** Nothing is closer to a key than the key itself. */
  lemma SelfIsClosest(c: Key, k: Key)
    requires k != c
    ensures Closest(c, c, k) == 0
  {
    DistanceIsAMetric(c, c, c);
    DistanceIsAMetric(c, k, k);
  }

  /** `IDDistance`. */
  method IDDistance(pk1: Key, pk2: Key) returns (dist: array<Byte>)
    ensures fresh(dist) && dist[..] == Xor(pk1, pk2)
  {
    dist := new Byte[KEY_SIZE];
    for i := 0 to KEY_SIZE
      invariant forall j | 0 <= j < i :: dist[j] == XorByte(pk1[j], pk2[j])
    {
      dist[i] := XorByte(pk1[i], pk2[i]);
    }
  }

  /** The result code of `IDClosest`: 0 when `pk1` is closer, -1 when `pk2` is, 1 at equal distance. */
  function Closest(cmppk: Key, pk1: Key, pk2: Key): int {
    var d1, d2 := Distance(cmppk, pk1), Distance(cmppk, pk2);
    if d1 < d2 then 0 else if d1 > d2 then -1 else 1
  }

  /** `IDClosest`: the byte loop decides by the 256-bit values of the distances. */
  method IDClosest(cmppk: Key, pk1: Key, pk2: Key) returns (r: int)
    ensures r == Closest(cmppk, pk1, pk2)
  {
    ghost var x, y := Xor(cmppk, pk1), Xor(cmppk, pk2);
    for i := 0 to KEY_SIZE
      invariant x[..i] == y[..i]
    {
      var distance1 := XorByte(cmppk[i], pk1[i]);
      var distance2 := XorByte(cmppk[i], pk2[i]);
      if distance1 < distance2 {
        FirstDifferenceDecides(x, y, i);
        return 0;
      }
      if distance1 > distance2 {
        FirstDifferenceDecides(y, x, i);
        return -1;
      }
    }
    assert x == y;
    return 1;
  }

  /** Equal distance from one reference forces equal keys. */
  lemma DistanceInjective(c: Key, a: Key, b: Key)
    requires Distance(c, a) == Distance(c, b)
    ensures a == b
  {
    BigEndianInjective(Xor(c, a), Xor(c, b));
    forall i | 0 <= i < KEY_SIZE ensures a[i] == b[i] {
      XorByteCancel(c[i], a[i], b[i]);
    }
  }

  /** Closeness to one reference key is a strict total order on keys. */
  lemma ClosestIsAStrictTotalOrder(c: Key, x: Key, y: Key, z: Key)
    ensures Closest(c, x, y) == 1 <==> x == y
    ensures Closest(c, x, y) == 0 <==> Closest(c, y, x) == -1
    ensures Closest(c, x, y) == 0 && Closest(c, y, z) == 0 ==> Closest(c, x, z) == 0
  {
    if Distance(c, x) == Distance(c, y) { DistanceInjective(c, x, y); }
  }
}

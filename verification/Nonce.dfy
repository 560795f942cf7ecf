/**
 The 192-bit nonce counter: the client's early-exit carry loop (go-tox-tcpclient/crypto.go) and
 the server's full 16-bit carry loop (mintox/crypto_core2.go) compute the same successor.
 */
module Nonce {
  import opened Bytes

  const NONCE_SIZE := 24

  type Nonce24 = n: seq<Byte> | |n| == NONCE_SIZE witness seq(NONCE_SIZE, _ => 0)

  function Pow256(n: nat): (p: nat)
    ensures p > 0
  {
    if n == 0 then 1 else 256 * Pow256(n - 1)
  }

  /** `b++` on an unsigned byte. */
  function Succ(b: Byte): Byte {
    if b == 255 then 0 else b + 1
  }

  /** The successor of a big-endian byte string, wrapping around at its width. */
  function Incr(s: seq<Byte>): (r: seq<Byte>)
    ensures |r| == |s|
  {
    if s == [] then []
    else
      var n := |s| - 1;
      (if s[n] == 255 then Incr(s[..n]) else s[..n]) + [Succ(s[n])]
  }

  lemma {:induction false} BigEndianBound(s: seq<Byte>)
    ensures BigEndian(s) < Pow256(|s|)
  {
    if s != [] { BigEndianBound(s[..|s| - 1]); }
  }

  /** The successor adds one modulo 256 to the width. */
  lemma {:induction false} IncrAddsOne(s: seq<Byte>)
    ensures BigEndian(Incr(s)) == if BigEndian(s) + 1 == Pow256(|s|) then 0 else BigEndian(s) + 1
  {
    if s != [] {
      var n, r := |s| - 1, Incr(s);
      BigEndianBound(s[..n]);
      if s[n] == 255 {
        assert r[..n] == Incr(s[..n]) && r[n] == 0;
        IncrAddsOne(s[..n]);
      } else {
        assert r[..n] == s[..n] && r[n] == s[n] + 1;
      }
    }
  }

  // ---------------------------------------------------------------- the two loops

  /** `incrNonce`: stop at the first byte that does not wrap to zero. */
  method IncrNonce(nonce: array<Byte>)
    requires nonce.Length == NONCE_SIZE
    modifies nonce
    ensures nonce[..] == Incr(old(nonce[..]))
  {
    var i := 23;
    ghost var was := nonce[..];
    assert was[..24] == was;
    while i >= 0
      invariant -1 <= i <= 23
      invariant nonce[..i + 1] == was[..i + 1]
      invariant Incr(was) == Incr(was[..i + 1]) + nonce[i + 1..]
    {
      ghost var tail := nonce[i + 1..];
      assert was[..i + 1][..i] == was[..i];
      nonce[i] := Succ(nonce[i]);
      assert nonce[i..] == [nonce[i]] + tail;
      if nonce[i] != 0 {
        assert nonce[..] == nonce[..i] + nonce[i..];
        return;
      }
      i := i - 1;
    }
    assert nonce[..] == nonce[0..];
  }

  /** The digits `s` with a carry of 0 or 1 added. */
  function Carried(s: seq<Byte>, c: int): seq<Byte> {
    if c == 1 then Incr(s) else s
  }

  lemma CarryStep(s: seq<Byte>, i: nat, c: int, tail: seq<Byte>)
    requires i < |s| && 0 <= c <= 1
    ensures var x: int := c + s[i]; Carried(s[..i + 1], c) + tail == Carried(s[..i], x / 256) + ([x % 256] + tail)
  {
    assert s[..i + 1][..i] == s[..i] && s[..i + 1] == s[..i] + [s[i]];
  }

  /** `Incr2le`: carry through all bytes in a 16-bit accumulator. */
  method Incr2le(nonce: array<Byte>)
    requires nonce.Length == NONCE_SIZE
    modifies nonce
    ensures nonce[..] == Incr(old(nonce[..]))
  {
    var c: int := 1;
    var i := 23;
    ghost var was := nonce[..];
    assert was[..24] == was;
    while i >= 0
      invariant -1 <= i <= 23 && 0 <= c <= 1
      invariant nonce[..i + 1] == was[..i + 1]
      invariant Incr(was) == Carried(was[..i + 1], c) + nonce[i + 1..]
    {
      ghost var tail := nonce[i + 1..];
      CarryStep(was, i, c, tail);
      c := c + nonce[i];
      nonce[i] := c % 256;
      assert nonce[i..] == [nonce[i]] + tail;
      c := c / 256;
      i := i - 1;
    }
    assert nonce[..] == nonce[0..];
  }

  /** `Incrn2`. */
  method Incrn2(nonce: array<Byte>, n: int)
    requires nonce.Length == NONCE_SIZE
    modifies nonce
    ensures nonce[..] == IncrN(old(nonce[..]), if n < 0 then 0 else n)
  {
    var i := 0;
    while i < n
      invariant 0 <= i && (i <= n || i == 0) && nonce[..] == IncrN(old(nonce[..]), i)
    {
      Incr2le(nonce);
      i := i + 1;
    }
  }

  // ---------------------------------------------------------------- many increments

  function IncrN(s: seq<Byte>, n: nat): (r: seq<Byte>)
    ensures |r| == |s|
  {
    if n == 0 then s else Incr(IncrN(s, n - 1))
  }

  lemma {:induction false} IncrNAdds(s: seq<Byte>, n: nat)
    ensures BigEndian(IncrN(s, n)) == (BigEndian(s) + n) % Pow256(|s|)
  {
    BigEndianBound(s);
    if n > 0 {
      IncrNAdds(s, n - 1);
      IncrAddsOne(IncrN(s, n - 1));
      ModStep(BigEndian(s) + n - 1, Pow256(|s|));
    } else {
      ModOf(0, BigEndian(s), Pow256(|s|), BigEndian(s));
    }
  }

  lemma ModStep(a: nat, p: nat)
    requires p > 0
    ensures (a + 1) % p == if a % p + 1 == p then 0 else a % p + 1
  {
    var q, r := a / p, a % p;
    if r + 1 == p {
      ModOf(q + 1, 0, p, a + 1);
    } else {
      ModOf(q, r + 1, p, a + 1);
    }
  }

  lemma ModOf(q: nat, r: nat, p: nat, a: nat)
    requires r < p && a == p * q + r
    ensures a % p == r && a / p == q
  {
    var d: int := a / p - q;
    assert p * d == r - a % p;
    MulBounds(p, d);
  }

  /** No nonce value comes back within 2^192 packets. */
  lemma NoncesDoNotRepeat(s: Nonce24, i: nat, j: nat)
    requires i < j < i + Pow256(NONCE_SIZE)
    ensures IncrN(s, i) != IncrN(s, j)
  {
    NoRepeat(s, i, j);
  }

  lemma NoRepeat(s: seq<Byte>, i: nat, j: nat)
    requires i < j < i + Pow256(|s|)
    ensures IncrN(s, i) != IncrN(s, j)
  {
    IncrNAdds(s, i);
    IncrNAdds(s, j);
    DifferentResidue(BigEndian(s) + i, BigEndian(s) + j, Pow256(|s|));
  }

  lemma DifferentResidue(a: nat, b: nat, p: nat)
    requires p > 0 && a < b < a + p
    ensures a % p != b % p
  {
    var d: int := b / p - a / p;
    assert p * d == (b - a) - (b % p - a % p);
    MulBounds(p, d);
  }
}

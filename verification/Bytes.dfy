/** Byte strings and the numbers and keys they stand for, shared by every component. */
module Bytes {

  type Byte = x: int | 0 <= x < 256

  /** A 32-byte public key, as `CryptoKey` holds it. */
  type Key = k: seq<Byte> | |k| == 32 witness seq(32, _ => 0)

  datatype Option<+T> = None | Some(value: T)

  /** The big-endian number a byte string stands for. */
  function BigEndian(s: seq<Byte>): nat {
    if s == [] then 0 else 256 * BigEndian(s[..|s| - 1]) + s[|s| - 1]
  }

  /** Of two equally long byte strings the first difference decides which number is smaller. */
  lemma {:induction false} FirstDifferenceDecides(s: seq<Byte>, t: seq<Byte>, i: nat)
    requires |s| == |t| && i < |s| && s[..i] == t[..i] && s[i] < t[i]
    ensures BigEndian(s) < BigEndian(t)
  {
    var n := |s| - 1;
    assert s[..n][..i] == s[..i] && t[..n][..i] == t[..i];
    if i == n {
      assert s[..n] == t[..n];
    } else {
      FirstDifferenceDecides(s[..n], t[..n], i);
    }
  }

  lemma {:induction false} BigEndianInjective(s: seq<Byte>, t: seq<Byte>)
    requires |s| == |t| && BigEndian(s) == BigEndian(t)
    ensures s == t
  {
    if s != [] {
      var n := |s| - 1;
      BigEndianInjective(s[..n], t[..n]);
      assert s == s[..n] + [s[n]] && t == t[..n] + [t[n]];
    }
  }

  // ---------------------------------------------------------------- small tools

  function Min(a: int, b: int): int { if a < b then a else b }

  function Concat(parts: seq<seq<Byte>>): seq<Byte> {
    if parts == [] then [] else parts[0] + Concat(parts[1..])
  }

  lemma {:induction false} ConcatAppend(a: seq<seq<Byte>>, b: seq<seq<Byte>>)
    ensures Concat(a + b) == Concat(a) + Concat(b)
    decreases |a|
  {
    if a == [] {
      assert a + b == b;
    } else {
      ConcatAppend(a[1..], b);
      assert (a + b)[1..] == a[1..] + b;
    }
  }

  lemma Assoc<T>(a: seq<T>, b: seq<T>, c: seq<T>)
    ensures (a + b) + c == a + (b + c)
  {
  }

  lemma SliceOfTail<T>(s: seq<T>, from: nat, a: nat, b: nat)
    requires from <= a <= b <= |s|
    ensures s[from..][a - from..b - from] == s[a..b]
  {
  }

  /** No multiple of `p` but 0 lies strictly between `-p` and `p`. */
  lemma MulBounds(p: int, d: int)
    requires p > 0
    ensures d >= 1 ==> p * d >= p
    ensures d <= -1 ==> p * d <= -p
  {
  }
}

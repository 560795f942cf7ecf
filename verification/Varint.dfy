/**
 Unsigned varints as relayhub/varint.go uses them (Go's `binary.PutUvarint` and `binary.Uvarint`)
 and as fedkey/keyring.go writes them by hand.
 */
module Varint {
  import opened Bytes

  /** What still fits into 64 bits when `i` groups of seven bits have been read: 2^(64 - 7i). */
  function Room(i: nat): (r: nat)
    ensures r >= 2 && (i < 9 ==> r >= 256)
    decreases 9 - i
  {
    if i >= 9 then 2 else 128 * Room(i + 1)
  }

  const TWO_64: nat := 0x1_0000_0000_0000_0000

  lemma RoomIs64Bits()
    ensures Room(0) == TWO_64
  {
    assert Room(7) == 128 * 128 * 2;
    assert Room(5) == 128 * 128 * Room(7);
    assert Room(3) == 128 * 128 * Room(5);
    assert Room(1) == 128 * 128 * Room(3);
  }

  /** `encodeVarint`. */
  function Encode(v: nat): (s: seq<Byte>)
    ensures |s| >= 1
  {
    if v < 128 then [v] else [128 + v % 128] + Encode(v / 128)
  }

  /** `decodeVarint` from the `i`-th group on: the value and its length, None when short or too big. */
  function DecodeAt(s: seq<Byte>, i: nat): (r: Option<(nat, nat)>)
    ensures r.Some? ==> 1 <= r.value.1 <= |s|
    ensures r.Some? && i <= 9 ==> r.value.0 < Room(i)
    decreases |s|
  {
    if s == [] || i > 9 then None
    else if s[0] < 128 then (if i == 9 && s[0] > 1 then None else Some((s[0], 1)))
    else
      match DecodeAt(s[1..], i + 1)
      case None => None
      case Some((v, n)) => Some((s[0] - 128 + 128 * v, n + 1))
  }

  function Decode(s: seq<Byte>): (r: Option<(nat, nat)>)
    ensures r.Some? ==> 1 <= r.value.1 <= |s|
  {
    DecodeAt(s, 0)
  }

  lemma {:induction false} DecodeEncodeAt(v: nat, i: nat, rest: seq<Byte>)
    requires i <= 9 && v < Room(i)
    ensures DecodeAt(Encode(v) + rest, i) == Some((v, |Encode(v)|))
    decreases v
  {
    var s := Encode(v) + rest;
    if v >= 128 {
      assert s[1..] == Encode(v / 128) + rest;
      DecodeEncodeAt(v / 128, i + 1, rest);
    }
  }

  /** Every 64-bit value decodes from its encoding, whatever follows. */
  lemma DecodeEncode(v: nat, rest: seq<Byte>)
    requires v < TWO_64
    ensures Decode(Encode(v) + rest) == Some((v, |Encode(v)|))
  {
    RoomIs64Bits();
    DecodeEncodeAt(v, 0, rest);
  }

  // ---------------------------------------------------------------- the format

  /** The number of groups of seven bits, lowest first. */
  function Groups(s: seq<Byte>): nat {
    if s == [] then 0 else s[0] % 128 + 128 * Groups(s[1..])
  }

  /** Every byte but the last has its top bit set. */
  predicate IsVarint(s: seq<Byte>) {
    s != [] && s[|s| - 1] < 128 && forall i | 0 <= i < |s| - 1 :: s[i] >= 128
  }

  /** An encoding is a varint of that value without idle groups at the end. */
  lemma {:induction false} EncodeIs(v: nat)
    ensures IsVarint(Encode(v)) && Groups(Encode(v)) == v
    ensures |Encode(v)| > 1 ==> Encode(v)[|Encode(v)| - 1] > 0
    decreases v
  {
    if v >= 128 {
      EncodeIs(v / 128);
      assert Encode(v)[1..] == Encode(v / 128);
    }
  }

  lemma GroupsCons(b: Byte, s: seq<Byte>)
    ensures Groups([b] + s) == b % 128 + 128 * Groups(s)
  {
    assert ([b] + s)[1..] == s;
  }

  /** What is read is a varint of the value, of at most ten groups. */
  lemma {:induction false} ReadIsVarint(s: seq<Byte>, i: nat)
    requires i <= 9 && DecodeAt(s, i).Some?
    ensures var (v, n) := DecodeAt(s, i).value; n <= 10 - i && IsVarint(s[..n]) && Groups(s[..n]) == v < Room(i)
    decreases |s|
  {
    var (v, n) := DecodeAt(s, i).value;
    if s[0] < 128 {
      assert s[..1] == [s[0]] + [];
      GroupsCons(s[0], []);
    } else {
      ReadIsVarint(s[1..], i + 1);
      assert s[..n] == [s[0]] + s[1..][..n - 1];
      GroupsCons(s[0], s[1..][..n - 1]);
      VarintCons(s[0], s[1..][..n - 1]);
    }
  }

  /** Every varint whose value fits is read, whatever follows. */
  lemma {:induction false} VarintIsRead(p: seq<Byte>, rest: seq<Byte>, i: nat)
    requires i <= 9 && IsVarint(p) && |p| <= 10 - i && Groups(p) < Room(i)
    ensures DecodeAt(p + rest, i) == Some((Groups(p), |p|))
    decreases |p|
  {
    var s := p + rest;
    if |p| == 1 {
      assert p == [p[0]] + [];
      GroupsCons(p[0], []);
    } else {
      assert p == [p[0]] + p[1..] && s[1..] == p[1..] + rest;
      GroupsCons(p[0], p[1..]);
      VarintCons(p[0], p[1..]);
      VarintIsRead(p[1..], rest, i + 1);
    }
  }

  /** Decoding yields a value exactly when a varint of it, of at most ten groups and 64 bits, stands in front. */
  lemma DecodeExactly(s: seq<Byte>, v: nat, n: nat)
    ensures Decode(s) == Some((v, n)) <==>
      1 <= n <= |s| && n <= 10 && IsVarint(s[..n]) && Groups(s[..n]) == v < TWO_64
  {
    RoomIs64Bits();
    if Decode(s) == Some((v, n)) { ReadIsVarint(s, 0); }
    if 1 <= n <= |s| && n <= 10 && IsVarint(s[..n]) && Groups(s[..n]) == v < TWO_64 {
      assert s == s[..n] + s[n..];
      VarintIsRead(s[..n], s[n..], 0);
    }
  }

  lemma VarintCons(b: Byte, s: seq<Byte>)
    requires b >= 128 && s != []
    ensures IsVarint([b] + s) <==> IsVarint(s)
  {
    var t := [b] + s;
    assert forall i | 0 <= i < |s| :: t[i + 1] == s[i];
  }

  /** `protoVarint`: the hand-written loop yields the same bytes. */
  method ProtoVarint(v0: nat) returns (b: seq<Byte>)
    ensures b == Encode(v0)
  {
    b := [];
    var v := v0;
    while v > 0x7F
      invariant Encode(v0) == b + Encode(v)
    {
      b := b + [128 + v % 128];
      v := v / 128;
    }
    b := b + [v];
  }
}

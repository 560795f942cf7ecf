/** ICMP messages and their checksum (xtox/pings.go). */
module Icmp {
  import opened Bytes
  import XorDistance

  const TWO_32 := 0x1_0000_0000

  datatype Echo = Echo(id: int, seqNo: int, data: seq<Byte>)
  datatype Message = Message(kind: int, code: int, checksum: int, body: Option<Echo>)
  datatype Parsed = Ok(m: Message) | TooShort | Crash

  function Low(x: int): Byte { x % 256 }

  function MarshalEcho(e: Echo): seq<Byte> {
    [Low(e.id / 256), Low(e.id), Low(e.seqNo / 256), Low(e.seqNo)] + e.data
  }

  /** The message with an empty checksum field. */
  function Unsummed(m: Message): seq<Byte> {
    [Low(m.kind), Low(m.code), 0, 0] + if m.body.Some? then MarshalEcho(m.body.value) else []
  }

  predicate IsV6(kind: int) { kind == 128 || kind == 129 }
  predicate IsEcho(kind: int) { kind == 8 || kind == 0 || kind == 128 || kind == 129 }

  // ---------------------------------------------------------------- sums

  /** The sum of the 16-bit little-endian words of `b`, a last odd byte as a word of its own. */
  function WordSum(b: seq<Byte>): nat {
    if b == [] then 0
    else if |b| == 1 then b[0]
    else (b[0] as int) + 256 * (b[1] as int) + WordSum(b[2..])
  }

  /** The checksum the code computes from the 32-bit sum `s`. */
  function Fold(s: nat): nat {
    var t := s / 65536 + s % 65536;
    t + t / 65536
  }

  /** `Marshal`. */
  function Marshal(m: Message): seq<Byte> {
    var b := Unsummed(m);
    if IsV6(m.kind) then b else Filled(b, Fold(WordSum(b) % TWO_32))
  }

  /** The checksum field set to the complement of the low 16 bits of `s`, low byte first. */
  function Filled(b: seq<Byte>, s: nat): seq<Byte>
    requires |b| >= 4
  {
    b[2 := 255 - Low(s)][3 := 255 - Low(s / 256)]
  }

  /** Addition of 16-bit words with end-around carry (section 1 of RFC 1071). */
  function OnesAdd(a: nat, w: nat): nat {
    if a + w >= 65536 then a + w - 65535 else a + w
  }

  /** The one's complement sum of the words of `b` in network order, padded with a zero byte. */
  function OnesSum(b: seq<Byte>): (r: nat)
    ensures r < 65536
  {
    if b == [] then 0
    else if |b| == 1 then 256 * (b[0] as int)
    else OnesAdd(256 * (b[0] as int) + (b[1] as int), OnesSum(b[2..]))
  }

  /** The one's complement sum is the plain sum of the byte-swapped words modulo 65535, and 0 only for zeros. */
  lemma {:induction false} OnesSumIsModular(b: seq<Byte>)
    ensures (OnesSum(b) - 256 * WordSum(b)) % 65535 == 0
    ensures OnesSum(b) == 0 <==> WordSum(b) == 0
    decreases |b|
  {
    if |b| == 1 {
      assert OnesSum(b) == 256 * WordSum(b);
    } else if |b| > 1 {
      var x: int, y: int := b[0], b[1];
      OnesSumIsModular(b[2..]);
      Congruent(x, y, OnesSum(b[2..]), WordSum(b[2..]));
    }
  }

  lemma Congruent(x: int, y: int, o: int, w: int)
    requires 0 <= x < 256 && 0 <= y < 256 && 0 <= o < 65536 && (o - 256 * w) % 65535 == 0
    ensures (OnesAdd(256 * x + y, o) - 256 * (x + 256 * y + w)) % 65535 == 0
  {
    var d := OnesAdd(256 * x + y, o) - 256 * (x + 256 * y + w) - (o - 256 * w);
    assert d == -65535 * y || d == -65535 * (y + 1);
  }

  lemma {:induction false} WordSumBound(b: seq<Byte>)
    ensures 2 * WordSum(b) <= 65535 * (|b| + 1)
    decreases |b|
  {
    if |b| > 1 { WordSumBound(b[2..]); }
  }

  lemma FoldIsModular(s: nat)
    requires s < 0x8000_0000
    ensures (Fold(s) % 65536 - s) % 65535 == 0 && (s > 0 ==> Fold(s) % 65536 > 0)
  {
    var h, l := s / 65536, s % 65536;
    var t := h + l;
    assert s == 65536 * h + l && s - t == 65535 * h;
    if t < 65536 {
      assert Fold(s) == t;
      assert t - s == -65535 * h;
    } else {
      assert t / 65536 == 1;
      assert Fold(s) == t + 1 && (t + 1) % 65536 == t + 1 - 65536;
      assert t + 1 - 65536 - s == -65535 * (h + 1);
    }
  }

  lemma WordSumSplit(b: seq<Byte>)
    requires |b| >= 4
    ensures WordSum(b) == (b[0] as int) + 256 * (b[1] as int) + (b[2] as int) + 256 * (b[3] as int) + WordSum(b[4..])
  {
    assert b[2..][2..] == b[4..];
  }

  /** Filling the checksum field adds the complement of the folded sum. */
  lemma FilledSum(b: seq<Byte>, s: nat)
    requires |b| >= 4 && b[2] == 0 && b[3] == 0
    ensures WordSum(Filled(b, s)) == WordSum(b) + 65535 - s % 65536
  {
    var c := Filled(b, s);
    WordSumSplit(b);
    WordSumSplit(c);
    assert c[4..] == b[4..];
    LowBytes(s);
  }

  lemma LowBytes(x: int)
    ensures Low(x) + 256 * Low(x / 256) == x % 65536
  {
    var q, r := x / 256, x % 256;
    var q2, r2 := q / 256, q % 256;
    assert x == 65536 * q2 + (256 * r2 + r);
    Remainder(x, q2, 256 * r2 + r);
  }

  lemma Remainder(x: int, q: int, r: int)
    requires x == 65536 * q + r && 0 <= r < 65536
    ensures x % 65536 == r
  {
  }

  lemma FilledChecksum(b: seq<Byte>, w: nat)
    requires |b| >= 4 && b[2] == 0 && b[3] == 0 && w == WordSum(b) < 0x8000_0000
    ensures OnesSum(Filled(b, Fold(w))) == 0xffff
  {
    var s := Fold(w);
    var c := Filled(b, s);
    FilledSum(b, s);
    FoldIsModular(w);
    OnesSumIsModular(c);
    Modular(w, s % 65536, WordSum(c), OnesSum(c));
  }

  /** The one's complement sum of every message but the ICMPv6 echoes, odd lengths included, is 0xffff. */
  lemma ChecksumHolds(m: Message)
    requires m.kind != 128 && m.kind != 129 && |Unsummed(m)| <= 65535
    ensures OnesSum(Marshal(m)) == 0xffff
  {
    var b := Unsummed(m);
    WordSumBound(b);
    assert WordSum(b) % TWO_32 == WordSum(b);
    FilledChecksum(b, WordSum(b));
  }

  lemma Modular(s: nat, c: nat, sum: int, o: nat)
    requires (c - s) % 65535 == 0 && c < 65536 && (s == 0 ==> c == 0) && sum == s + 65535 - c
    requires (o - 256 * sum) % 65535 == 0 && o < 65536 && (o == 0 <==> sum == 0)
    ensures o == 65535
  {
    var k := (c - s) / 65535;
    var j := (o - 256 * sum) / 65535;
    assert c - s == 65535 * k && o - 256 * sum == 65535 * j;
    assert sum == 65535 * (1 - k);
    assert o == 65535 * (j + 256 * (1 - k));
  }

  /** Every byte of a marshalled message, numbers in network order; only ICMPv6 echoes leave the checksum out. */
  lemma MarshalLayout(m: Message)
    ensures |Marshal(m)| == (if m.body.Some? then 8 + |m.body.value.data| else 4)
    ensures Marshal(m)[0] == m.kind % 256 && Marshal(m)[1] == m.code % 256
    ensures m.kind == 128 || m.kind == 129 ==> Marshal(m)[2] == 0 && Marshal(m)[3] == 0
    ensures m.body.Some? ==>
      && 256 * (Marshal(m)[4] as int) + (Marshal(m)[5] as int) == m.body.value.id % 65536
      && 256 * (Marshal(m)[6] as int) + (Marshal(m)[7] as int) == m.body.value.seqNo % 65536
      && Marshal(m)[8..] == m.body.value.data
  {
    if m.body.Some? {
      LowBytes(m.body.value.id);
      LowBytes(m.body.value.seqNo);
      assert Marshal(m)[8..] == Unsummed(m)[8..] == m.body.value.data;
    }
  }

  // ---------------------------------------------------------------- parsing

  /** `parseICMPMessage`; an echo body shorter than its header panics. */
  function Parse(b: seq<Byte>): Parsed {
    if |b| < 4 then TooShort
    else
      var m := Message(b[0], b[1], 256 * (b[2] as int) + (b[3] as int), None);
      if |b| == 4 || !IsEcho(m.kind) then Ok(m)
      else if |b| < 8 then Crash
      else Ok(m.(body := Some(ParseEcho(b[4..]))))
  }

  /** `parseICMPEcho`. */
  function ParseEcho(b: seq<Byte>): Echo
    requires |b| >= 4
  {
    Echo(256 * (b[0] as int) + (b[1] as int), 256 * (b[2] as int) + (b[3] as int), b[4..])
  }

  /** What comes of any bytes: echo bodies of the four types 0, 8, 128 and 129, of no other. */
  lemma ParseExactly(b: seq<Byte>)
    ensures Parse(b) == TooShort <==> |b| < 4
    ensures Parse(b) == Crash <==> 4 < |b| < 8 && b[0] in {0, 8, 128, 129}
    ensures |b| >= 4 && Parse(b) != Crash ==>
      && Parse(b).Ok? && Parse(b).m.kind == b[0] && Parse(b).m.code == b[1]
      && Parse(b).m.checksum == 256 * (b[2] as int) + (b[3] as int)
      && Parse(b).m.body ==
         if |b| >= 8 && b[0] in {0, 8, 128, 129}
         then Some(Echo(256 * (b[4] as int) + (b[5] as int), 256 * (b[6] as int) + (b[7] as int), b[8..])) else None
  {
    if |b| >= 8 { assert b[4..][4..] == b[8..]; }
  }

  /** An echo with its numbers cut to 16 bits. */
  function Wrapped(e: Echo): Echo {
    Echo(e.id % 65536, e.seqNo % 65536, e.data)
  }

  lemma WrappedIsSame(e: Echo)
    ensures Wrapped(e) == e <==> Is16Bit(e.id) && Is16Bit(e.seqNo)
  {
  }

  lemma EchoBack(e: Echo)
    ensures ParseEcho(MarshalEcho(e)) == Wrapped(e)
  {
    LowBytes(e.id);
    LowBytes(e.seqNo);
  }

  /** The checksum field is all that `Marshal` changes. */
  lemma OnlyChecksum(m: Message, s: nat)
    requires m.body.Some?
    ensures forall b | b == Unsummed(m) || b == Filled(Unsummed(m), s) ::
      |b| >= 8 && b[0] == Low(m.kind) && b[1] == Low(m.code) && b[4..] == MarshalEcho(m.body.value)
  {
    assert Unsummed(m)[4..] == MarshalEcho(m.body.value);
    assert Filled(Unsummed(m), s)[4..] == Unsummed(m)[4..];
  }

  predicate Is16Bit(x: int) { 0 <= x < 65536 }

  lemma EchoParsed(b: seq<Byte>, kind: int, code: int, e: Echo)
    requires |b| >= 8 && IsEcho(kind) && b[0] == kind && b[1] == code && b[4..] == MarshalEcho(e)
    ensures Parse(b).Ok? && Parse(b).m.kind == kind && Parse(b).m.code == code && Parse(b).m.body == Some(Wrapped(e))
  {
    EchoBack(e);
  }

  /** An echo comes back with its type, code, id, sequence number and data exactly when both numbers fit 16 bits. */
  lemma EchoRoundTrip(m: Message)
    requires m.kind in {0, 8, 128, 129} && 0 <= m.code < 256 && m.body.Some?
    ensures Returned(m, Marshal(m))
  {
    EchoComesBack(m, Fold(WordSum(Unsummed(m)) % TWO_32));
  }

  /** Whatever stands in the checksum field. */
  lemma EchoComesBack(m: Message, s: nat)
    requires IsEcho(m.kind) && 0 <= m.code < 256 && m.body.Some?
    ensures Returned(m, Unsummed(m)) && Returned(m, Filled(Unsummed(m), s))
  {
    OnlyChecksum(m, s);
    EchoParsed(Unsummed(m), m.kind, m.code, m.body.value);
    EchoParsed(Filled(Unsummed(m), s), m.kind, m.code, m.body.value);
    WrappedIsSame(m.body.value);
  }

  /** Parsing `b` gives back the type and code of `m`, and its body exactly when that fits. */
  ghost predicate Returned(m: Message, b: seq<Byte>)
    requires m.body.Some?
  {
    && Parse(b).Ok? && Parse(b).m.kind == m.kind && Parse(b).m.code == m.code
    && (Parse(b).m.body == m.body <==> Is16Bit(m.body.value.id) && Is16Bit(m.body.value.seqNo))
  }

  // ---------------------------------------------------------------- the code

  lemma NextWord(b: seq<Byte>, i: nat)
    requires i + 1 < |b|
    ensures WordSum(b[i..]) == (b[i] as int) + 256 * (b[i + 1] as int) + WordSum(b[i + 2..])
  {
    assert b[i..][2..] == b[i + 2..];
  }

  lemma AddMod(t: nat, w: nat)
    ensures (t % TWO_32 + w) % TWO_32 == (t + w) % TWO_32
  {
  }

  method SumLoop(b: seq<Byte>) returns (s: nat)
    requires |b| >= 1
    ensures s == WordSum(b) % TWO_32
  {
    var csumcv := |b| - 1;
    s := 0;
    ghost var t: nat := 0;
    var i := 0;
    while i < csumcv
      invariant 0 <= i <= |b| && i % 2 == 0 && t + WordSum(b[i..]) == WordSum(b) && s == t % TWO_32
    {
      NextWord(b, i);
      var w: int := 256 * (b[i + 1] as int) + (b[i] as int);
      AddMod(t, w);
      s, t := (s + w) % TWO_32, t + w;
      i := i + 2;
    }
    if csumcv % 2 == 0 {
      AddMod(t, b[csumcv]);
      s := (s + (b[csumcv] as int)) % TWO_32;
    }
  }

  lemma {:induction false} XorZero(n: nat, x: nat)
    requires x < XorDistance.Pow2(n)
    ensures XorDistance.XorBits(n, 0, x) == x
  {
    if n > 0 { XorZero(n - 1, x / 2); }
  }

  lemma XorByteZero(x: Byte)
    ensures XorDistance.XorByte(0, x) == x
  {
    assert XorDistance.Pow2(8) == 256 by { assert XorDistance.Pow2(4) == 16; }
    XorZero(8, x);
  }

  method PutChecksum(b: array<Byte>, s: nat)
    requires b.Length >= 4 && b[2] == 0 && b[3] == 0
    modifies b
    ensures b[..] == Filled(old(b[..]), s)
  {
    var x, y := 255 - Low(s), 255 - Low(s / 256);
    XorByteZero(x);
    XorByteZero(y);
    b[2] := XorDistance.XorByte(b[2], x);
    b[3] := XorDistance.XorByte(b[3], y);
  }

  /** `Marshal`, which puts the checksum in place by exclusive or. */
  method MarshalMessage(m: Message) returns (r: seq<Byte>)
    ensures r == Marshal(m)
  {
    var u := Unsummed(m);
    if m.kind == 128 || m.kind == 129 { return u; }
    var b := new Byte[|u|](i requires 0 <= i < |u| => u[i]);
    assert b[..] == u;
    var s := SumLoop(u);
    s := s / 65536 + s % 65536;
    s := s + s / 65536;
    PutChecksum(b, s);
    r := b[..];
  }
}

/**
 Stream reassembly in the relay server (`doReadPacket` in mintox/tcp_server.go): a two-byte
 length and a payload, read from a ring buffer that is refilled chunk by chunk. The length
 variable doubles as "no header read yet" when it is 0.
 */
module Framing {
  import opened Bytes

  const HANDSHAKE_SIZE := 128
  const READ_CHUNK := 3000
  const RING_CAP := 1024 * 1024

  /** `crashed` stands for the Go panic of a frame length whose two extra bytes overflow 16 bits. */
  datatype Parsed = Parsed(packets: seq<seq<Byte>>, rest: seq<Byte>, crashed: bool)

  function Length(s: seq<Byte>): nat
    requires |s| >= 2
  {
    256 * (s[0] as int) + s[1]
  }

  /** Parsing a whole stream at once. */
  function Parse(s: seq<Byte>): Parsed {
    if |s| < 2 || |s| < 2 + Length(s) then Parsed([], s, false)
    else if Length(s) > 65533 then Parsed([], [], true)
    else
      var n := 2 + Length(s);
      var tail := Parse(s[n..]);
      Parsed([s[2..n]] + tail.packets, tail.rest, tail.crashed)
  }

  function Before(packets: seq<seq<Byte>>, p: Parsed): Parsed {
    Parsed(packets + p.packets, p.rest, p.crashed)
  }

  /** Parsing can stop at any point and go on from the residue. */
  lemma {:induction false} ParseSplits(a: seq<Byte>, b: seq<Byte>)
    ensures Parse(a + b) ==
            if Parse(a).crashed then Parse(a) else Before(Parse(a).packets, Parse(Parse(a).rest + b))
    decreases |a|
  {
    if |a| < 2 || |a| < 2 + Length(a) {
      assert [] + Parse(a + b).packets == Parse(a + b).packets;
    } else {
      assert Length(a + b) == Length(a);
      if Length(a) <= 65533 {
        var n := 2 + Length(a);
        ParseSplits(a[n..], b);
        ParseOne(a);
        ParseFirst(a, b);
        SplitsBehind(a[2..n], Parse(a[n..]), Parse(a[n..] + b), b);
      }
    }
  }

  lemma ParseFirst(a: seq<Byte>, b: seq<Byte>)
    requires |a| >= 2 && |a| >= 2 + Length(a) && Length(a) <= 65533
    ensures var n := 2 + Length(a); Parse(a + b) == Before([a[2..n]], Parse(a[n..] + b))
  {
    var n := 2 + Length(a);
    assert (a + b)[n..] == a[n..] + b && (a + b)[2..n] == a[2..n];
    ParseOne(a + b);
  }

  lemma SplitsBehind(packet: seq<Byte>, tail: Parsed, both: Parsed, b: seq<Byte>)
    requires both == if tail.crashed then tail else Before(tail.packets, Parse(tail.rest + b))
    ensures var p := Before([packet], tail);
      Before([packet], both) == if p.crashed then p else Before(p.packets, Parse(p.rest + b))
  {
    if !tail.crashed { BeforeTwice([packet], tail.packets, Parse(tail.rest + b)); }
  }

  lemma BeforeTwice(a: seq<seq<Byte>>, b: seq<seq<Byte>>, p: Parsed)
    ensures Before(a, Before(b, p)) == Before(a + b, p)
  {
    assert a + (b + p.packets) == a + b + p.packets;
  }

  lemma ParseOne(s: seq<Byte>)
    requires |s| >= 2 && |s| >= 2 + Length(s) && Length(s) <= 65533
    ensures var n := 2 + Length(s); Parse(s) == Before([s[2..n]], Parse(s[n..]))
  {
  }

  lemma {:induction false} ResidueIsIncomplete(s: seq<Byte>)
    ensures var r := Parse(s).rest; |r| < 2 || |r| < 2 + Length(r)
    decreases |s|
  {
    if |s| >= 2 && |s| >= 2 + Length(s) && Length(s) <= 65533 { ResidueIsIncomplete(s[2 + Length(s)..]); }
  }

  /** A packet behind its length, high byte first. */
  function Stamped(p: seq<Byte>): seq<Byte> {
    [|p| / 256 % 256, |p| % 256] + p
  }

  function StampedAll(ps: seq<seq<Byte>>): seq<Byte> {
    if ps == [] then [] else Stamped(ps[0]) + StampedAll(ps[1..])
  }

  /** Less than a length and the packet it announces. */
  predicate Incomplete(s: seq<Byte>) {
    |s| < 2 || |s| < 2 + 256 * (s[0] as int) + (s[1] as int)
  }

  predicate Short(ps: seq<seq<Byte>>) {
    forall i | 0 <= i < |ps| :: |ps[i]| <= 65533
  }

  lemma StampedFirst(p: seq<Byte>, rest: seq<Byte>)
    requires |p| <= 65533
    ensures Parse(Stamped(p) + rest) == Before([p], Parse(rest))
  {
    var s := Stamped(p) + rest;
    assert Length(s) == |p|;
    assert s[2..2 + |p|] == p && s[2 + |p|..] == rest;
    ParseOne(s);
  }

  /** Parsing is exactly the inverse of stamping: a stream is packets behind their lengths and an incomplete rest. */
  lemma ParseIsUnstamping(s: seq<Byte>, ps: seq<seq<Byte>>, rest: seq<Byte>)
    ensures Parse(s) == Parsed(ps, rest, false) <==> s == StampedAll(ps) + rest && Short(ps) && Incomplete(rest)
  {
    if s == StampedAll(ps) + rest && Short(ps) && Incomplete(rest) { ParseStamped(ps, rest); }
    if Parse(s) == Parsed(ps, rest, false) { StampParsed(s); }
  }

  lemma {:induction false} ParseStamped(ps: seq<seq<Byte>>, rest: seq<Byte>)
    requires Short(ps) && Incomplete(rest)
    ensures Parse(StampedAll(ps) + rest) == Parsed(ps, rest, false)
    decreases |ps|
  {
    if ps == [] {
      assert [] + rest == rest;
    } else {
      ParseStamped(ps[1..], rest);
      Assoc(Stamped(ps[0]), StampedAll(ps[1..]), rest);
      StampedFirst(ps[0], StampedAll(ps[1..]) + rest);
    }
  }

  lemma {:induction false} StampParsed(s: seq<Byte>)
    requires !Parse(s).crashed
    ensures var p := Parse(s); s == StampedAll(p.packets) + p.rest && Short(p.packets) && Incomplete(p.rest)
    decreases |s|
  {
    if Incomplete(s) {
      assert [] + s == s;
    } else {
      var n := 2 + Length(s);
      StampParsed(s[n..]);
      UnstampOne(s, Parse(s[n..]).packets, Parse(s[n..]).rest);
    }
  }

  lemma UnstampOne(s: seq<Byte>, ps: seq<seq<Byte>>, rest: seq<Byte>)
    requires !Incomplete(s) && s[2 + Length(s)..] == StampedAll(ps) + rest
    ensures s == StampedAll([s[2..2 + Length(s)]] + ps) + rest
  {
    var n := 2 + Length(s);
    var p := s[2..n];
    assert s == [s[0], s[1]] + p + s[n..];
    assert Stamped(p) == [s[0], s[1]] + p;
    assert ([p] + ps)[1..] == ps;
    Assoc(Stamped(p), StampedAll(ps), rest);
  }

  /** It crashes exactly when the first incomplete or overlong part is a whole packet of 65534 or 65535 bytes. */
  lemma {:induction false} ParseCrashesExactly(ps: seq<seq<Byte>>, p: seq<Byte>, rest: seq<Byte>)
    requires Short(ps) && |p| < 65536
    ensures Parse(StampedAll(ps) + (Stamped(p) + rest)).crashed <==> |p| > 65533 || Parse(rest).crashed
    decreases |ps|
  {
    var tail := Stamped(p) + rest;
    if ps == [] {
      assert [] + tail == tail;
      if |p| <= 65533 { StampedFirst(p, rest); } else { assert Length(tail) == |p|; }
    } else {
      ParseCrashesExactly(ps[1..], p, rest);
      Assoc(Stamped(ps[0]), StampedAll(ps[1..]), tail);
      StampedFirst(ps[0], StampedAll(ps[1..]) + tail);
    }
  }

  /** The stream that a length already read and the buffered bytes stand for. */
  function Glue(nxt: nat, buf: seq<Byte>): seq<Byte> {
    if nxt == 0 then buf else [(nxt / 256) % 256, nxt % 256] + buf
  }

  lemma GlueHeader(nxt: nat, buf: seq<Byte>)
    requires 0 < nxt < 65536
    ensures var s := Glue(nxt, buf); |s| == 2 + |buf| && Length(s) == nxt && s[2..] == buf
  {
  }

  /** Taking the header off and gluing it back changes nothing. */
  lemma HeaderOff(s: seq<Byte>)
    requires |s| >= 2
    ensures Length(s) < 65536
    ensures Length(s) != 0 ==> Glue(Length(s), s[2..]) == s
  {
    var g := Glue(Length(s), s[2..]);
    if Length(s) != 0 {
      assert |g| == |s| && g[0] == s[0] && g[1] == s[1];
      assert forall i | 2 <= i < |s| :: g[i] == s[2..][i - 2] == s[i];
    }
  }

  lemma TakeTwice(s: seq<Byte>, n: nat)
    requires |s| >= 2 + n
    ensures s[2..2 + n] == s[2..][..n] && s[2 + n..] == s[2..][n..]
  {
  }

  lemma CutIs(whole: seq<Byte>, n: nat)
    requires |whole| >= 2 + n && Length(whole) == n <= 65533
    ensures Parse(whole) == Before([whole[2..][..n]], Parse(whole[2..][n..]))
  {
    ParseOne(whole);
    TakeTwice(whole, n);
  }

  datatype Turn = Emitted | Waits | Panics

  class FrameReader {
    var crbuf: seq<Byte>
    var nxtpktlen: nat

    constructor ()
      ensures Residue() == [] && Waiting()
    {
      crbuf, nxtpktlen := [], 0;
    }

    /** The unread part of the stream, with a header that was already taken off put back. */
    ghost function Residue(): seq<Byte>
      reads this
    {
      Glue(nxtpktlen, crbuf)
    }

    /** Between reads the buffer holds less than the next thing it waits for. */
    ghost predicate Waiting()
      reads this
    {
      nxtpktlen < 65536 && |crbuf| < if nxtpktlen == 0 then 2 else nxtpktlen
    }

    /** One round of the read loop: buffer a chunk, then cut off every complete packet. */
    method Feed(chunk: seq<Byte>) returns (packets: seq<seq<Byte>>, ok: bool)
      requires Waiting() && |chunk| <= READ_CHUNK
      modifies this
      ensures ok ==> Waiting()
      ensures Parse(old(Residue()) + chunk) ==
        if ok then Parsed(packets, Residue(), false) else Parsed(packets, [], true)
    {
      assert |crbuf| + |chunk| <= RING_CAP;
      ghost var whole := Residue() + chunk;
      crbuf := crbuf + chunk;
      assert Residue() == whole;
      packets, ok := DoReadPacket();
    }

    /** `doReadPacket` after the handshake. */
    method DoReadPacket() returns (packets: seq<seq<Byte>>, ok: bool)
      requires nxtpktlen < 65536
      modifies this
      ensures ok ==> Waiting()
      ensures Parse(old(Residue())) == if ok then Parsed(packets, Residue(), false) else Parsed(packets, [], true)
    {
      packets, ok := [], true;
      ghost var start := Parse(Residue());
      while true
        invariant nxtpktlen < 65536
        invariant start == Before(packets, Parse(Residue()))
        decreases |Residue()|
      {
        var packet, turn := CutPacket();
        if turn != Emitted {
          assert packets + [] == packets;
          ok := turn == Waits;
          return;
        }
        BeforeTwice(packets, [packet], Parse(Residue()));
        packets := packets + [packet];
      }
    }

    /** One turn of its loop. */
    method CutPacket() returns (packet: seq<Byte>, turn: Turn)
      requires nxtpktlen < 65536
      modifies this
      ensures nxtpktlen < 65536
      ensures turn == Emitted ==>
        Parse(old(Residue())) == Before([packet], Parse(Residue())) && |Residue()| < |old(Residue())|
      ensures turn == Waits ==> Parse(old(Residue())) == Parsed([], Residue(), false) && Waiting()
      ensures turn == Panics ==> Parse(old(Residue())) == Parsed([], [], true)
    {
      ghost var whole := Residue();
      packet := [];
      if nxtpktlen == 0 && |crbuf| < 2 { return [], Waits; }
      ReadHeader();
      if |crbuf| < nxtpktlen { return [], Waits; }
      var size := (2 + nxtpktlen) % 65536;
      if size < 2 { return [], Panics; }
      CutIs(whole, nxtpktlen);
      packet := crbuf[..nxtpktlen];
      crbuf := crbuf[nxtpktlen..];
      nxtpktlen := 0;
      turn := Emitted;
    }

    /** Takes the length off the buffer unless that was done before. */
    method ReadHeader()
      requires nxtpktlen < 65536 && (nxtpktlen == 0 ==> |crbuf| >= 2)
      modifies this
      ensures var whole := old(Residue());
        && |whole| == 2 + |crbuf| && Length(whole) == nxtpktlen < 65536 && whole[2..] == crbuf
        && (nxtpktlen > 0 ==> Residue() == whole)
    {
      if nxtpktlen == 0 {
        HeaderOff(crbuf);
        nxtpktlen := Length(crbuf);
        crbuf := crbuf[2..];
      } else {
        GlueHeader(nxtpktlen, crbuf);
      }
    }
  }

  // ---------------------------------------------------------------- any way of cutting the stream

  /** What the reader has emitted and kept after feeding it the chunks one by one. */
  function Feeds(residue: seq<Byte>, chunks: seq<seq<Byte>>): Parsed
    decreases |chunks|
  {
    if chunks == [] then Parsed([], residue, false)
    else
      var p := Parse(residue + chunks[0]);
      if p.crashed then p else Before(p.packets, Feeds(p.rest, chunks[1..]))
  }

  lemma {:induction false} FeedsIsParse(residue: seq<Byte>, chunks: seq<seq<Byte>>)
    requires Parse(residue) == Parsed([], residue, false)
    ensures Feeds(residue, chunks) == Parse(residue + Concat(chunks))
    decreases |chunks|
  {
    if chunks == [] {
      assert residue + [] == residue;
    } else {
      var p := Parse(residue + chunks[0]);
      Assoc(residue, chunks[0], Concat(chunks[1..]));
      ParseSplits(residue + chunks[0], Concat(chunks[1..]));
      if !p.crashed {
        ResidueStays(residue + chunks[0]);
        FeedsIsParse(p.rest, chunks[1..]);
      }
    }
  }

  lemma ResidueStays(s: seq<Byte>)
    ensures !Parse(s).crashed ==> Parse(Parse(s).rest) == Parsed([], Parse(s).rest, false)
  {
    ResidueIsIncomplete(s);
  }

  /** Fragmentation independence: two ways of cutting one stream give the same packets and residue. */
  lemma FragmentationIndependence(chunks: seq<seq<Byte>>, chunks': seq<seq<Byte>>)
    requires Concat(chunks) == Concat(chunks')
    ensures Feeds([], chunks) == Feeds([], chunks') == Parse(Concat(chunks))
  {
    FeedsIsParse([], chunks);
    FeedsIsParse([], chunks');
    assert [] + Concat(chunks) == Concat(chunks) && [] + Concat(chunks') == Concat(chunks');
  }

  /**
   `runReadLoop` over the chunks the socket delivers. The handshake packet must arrive whole in
   the first read; whatever follows may be cut anywhere.
   */
  method RunReadLoop(chunks: seq<seq<Byte>>) returns (hello: Option<seq<Byte>>, packets: seq<seq<Byte>>, ok: bool)
    requires chunks != [] && forall c <- chunks :: 1 <= |c| <= READ_CHUNK
    ensures hello.Some? <==> |chunks[0]| >= HANDSHAKE_SIZE
    ensures hello.None? ==> !ok && packets == []
    ensures hello.Some? ==>
      && |Concat(chunks)| >= HANDSHAKE_SIZE && hello.value == Concat(chunks)[..HANDSHAKE_SIZE]
      && packets == Parse(Concat(chunks)[HANDSHAKE_SIZE..]).packets
      && ok == !Parse(Concat(chunks)[HANDSHAKE_SIZE..]).crashed
  {
    var first := chunks[0];
    if |first| < HANDSHAKE_SIZE {
      return None, [], false;
    }
    hello := Some(first[..HANDSHAKE_SIZE]);
    var tail := [first[HANDSHAKE_SIZE..]] + chunks[1..];
    TailOfStream(chunks, tail);
    assert forall c <- tail :: |c| <= READ_CHUNK by {
      assert forall c <- tail :: c == tail[0] || c in chunks;
    }
    packets, ok := ReadFrames(tail);
  }

  /** The rest of `runReadLoop`. */
  method ReadFrames(chunks: seq<seq<Byte>>) returns (packets: seq<seq<Byte>>, ok: bool)
    requires forall c <- chunks :: |c| <= READ_CHUNK
    ensures packets == Parse(Concat(chunks)).packets && ok == !Parse(Concat(chunks)).crashed
  {
    var reader := new FrameReader();
    packets, ok := [], true;
    var i := 0;
    assert chunks[0..] == chunks;
    while i < |chunks| && ok
      invariant 0 <= i <= |chunks|
      invariant ok ==> reader.Waiting() && Feeds([], chunks) == Before(packets, Feeds(reader.Residue(), chunks[i..]))
      invariant !ok ==> Feeds([], chunks) == Parsed(packets, [], true)
    {
      assert chunks[i..][0] == chunks[i] && chunks[i..][1..] == chunks[i + 1..];
      FeedStep(reader.Residue(), chunks[i..], packets);
      var more, good := reader.Feed(chunks[i]);
      packets, ok, i := packets + more, good, i + 1;
    }
    FeedsIsParse([], chunks);
    assert [] + Concat(chunks) == Concat(chunks);
    assert packets + [] == packets;
  }

  lemma FeedStep(residue: seq<Byte>, chunks: seq<seq<Byte>>, packets: seq<seq<Byte>>)
    requires chunks != []
    ensures var p := Parse(residue + chunks[0]);
      Before(packets, Feeds(residue, chunks)) ==
      if p.crashed then Before(packets, p) else Before(packets + p.packets, Feeds(p.rest, chunks[1..]))
  {
    var p := Parse(residue + chunks[0]);
    if !p.crashed {
      var f := Feeds(p.rest, chunks[1..]);
      assert packets + (p.packets + f.packets) == packets + p.packets + f.packets;
    }
  }

  lemma TailOfStream(chunks: seq<seq<Byte>>, tail: seq<seq<Byte>>)
    requires chunks != [] && |chunks[0]| >= HANDSHAKE_SIZE && tail == [chunks[0][HANDSHAKE_SIZE..]] + chunks[1..]
    ensures |Concat(chunks)| >= HANDSHAKE_SIZE && Concat(chunks)[..HANDSHAKE_SIZE] == chunks[0][..HANDSHAKE_SIZE]
    ensures Concat(tail) == Concat(chunks)[HANDSHAKE_SIZE..]
  {
    assert tail[1..] == chunks[1..];
  }
}

/**
 One direction of a noise connection (relayhub/noise.go): the writer's `Write`, the bytes on the
 network and the reader's `Read` with its leftover buffer. The cipher is abstract.
 */
module NoiseStream {
  import opened Bytes

  const TAG := 16
  const MAX_PLAIN := 65535 - TAG

  /** The cipher states: sealing and opening the n-th message. */
  datatype Cipher = Cipher(seal: (nat, seq<Byte>) -> seq<Byte>, open: (nat, seq<Byte>) -> Option<seq<Byte>>)

  ghost predicate Laws(c: Cipher) {
    && (forall n: nat, m: seq<Byte> :: |c.seal(n, m)| == |m| + TAG)
    && (forall n: nat, m: seq<Byte> :: c.open(n, c.seal(n, m)) == Some(m))
  }

  lemma LawsAreSatisfiable()
    ensures exists c :: Laws(c)
  {
    var tag: seq<Byte> := seq(TAG, _ => 0);
    var c := Cipher((n, m) => m + tag, (n, s) => if |s| >= TAG then Some(s[..|s| - TAG]) else None);
    forall n: nat, m: seq<Byte> ensures c.open(n, c.seal(n, m)) == Some(m) { assert (m + tag)[..|m|] == m; }
    assert Laws(c);
  }

  /** One frame: the 16-bit length in front of the sealed chunk. */
  function Frame(c: Cipher, n: nat, chunk: seq<Byte>): seq<Byte> {
    var s := c.seal(n, chunk);
    [|s| / 256 % 256, |s| % 256] + s
  }

  /** The chunks `Write` cuts its bytes into. */
  function Chunks(p: seq<Byte>): (cs: seq<seq<Byte>>)
    ensures Small(cs)
    decreases |p|
  {
    if p == [] then [] else [p[..Min(|p|, MAX_PLAIN)]] + Chunks(p[Min(|p|, MAX_PLAIN)..])
  }

  predicate Small(cs: seq<seq<Byte>>) {
    forall i | 0 <= i < |cs| :: |cs[i]| <= MAX_PLAIN
  }

  /** The frames of the messages number `n` on, given how one frame is made. */
  function Frames(frame: (nat, seq<Byte>) -> seq<Byte>, n: nat, cs: seq<seq<Byte>>): seq<Byte>
    decreases |cs|
  {
    if cs == [] then [] else frame(n, cs[0]) + Frames(frame, n + 1, cs[1..])
  }

  function Framer(c: Cipher): (nat, seq<Byte>) -> seq<Byte> {
    (n, chunk) => Frame(c, n, chunk)
  }

  /** The first frame of the network bytes: the sealed message and what follows. */
  function Split(wire: seq<Byte>): Option<(seq<Byte>, seq<Byte>)> {
    if |wire| < 2 then None
    else
      var n: int := (wire[0] as int) * 256 + (wire[1] as int);
      if |wire| < 2 + n then None else Some((wire[2..2 + n], wire[2 + n..]))
  }

  lemma SplitFrame(c: Cipher, n: nat, chunk: seq<Byte>, rest: seq<Byte>)
    requires Laws(c) && |chunk| <= MAX_PLAIN
    ensures Split(Frame(c, n, chunk) + rest) == Some((c.seal(n, chunk), rest))
  {
    var s := c.seal(n, chunk);
    var w := Frame(c, n, chunk) + rest;
    assert w[0] == |s| / 256 && w[1] == |s| % 256;
    assert w[2..2 + |s|] == s && w[2 + |s|..] == rest;
  }

  lemma {:induction false} FlatChunks(p: seq<Byte>)
    ensures Concat(Chunks(p)) == p
    decreases |p|
  {
    if p != [] {
      var k := Min(|p|, MAX_PLAIN);
      FlatChunks(p[k..]);
      assert p[..k] + p[k..] == p;
    }
  }

  /** A frame is the length of what is sealed, high byte first, and the sealed chunk, which is 16 bytes longer. */
  lemma FrameBytes(c: Cipher, n: nat, chunk: seq<Byte>)
    requires Laws(c) && |chunk| <= 65519
    ensures Framer(c)(n, chunk) == [(|chunk| + 16) / 256, (|chunk| + 16) % 256] + c.seal(n, chunk)
  {
  }

  ghost predicate FullAt(cs: seq<seq<Byte>>, i: nat)
    requires i < |cs|
  {
    if i < |cs| - 1 then |cs[i]| == 65519 else 1 <= |cs[i]| <= 65519
  }

  /** All chunks are as large as a frame can hold, 65519 bytes, but for a last one that is not empty. */
  lemma {:induction false} ChunksAreFull(p: seq<Byte>)
    ensures forall i | 0 <= i < |Chunks(p)| :: FullAt(Chunks(p), i)
    decreases |p|
  {
    if p != [] {
      var k := Min(|p|, MAX_PLAIN);
      var cs, ds := Chunks(p), Chunks(p[k..]);
      ChunksAreFull(p[k..]);
      assert cs == [p[..k]] + ds && (k < MAX_PLAIN ==> ds == []);
      forall i | 0 <= i < |cs| ensures FullAt(cs, i) {
        if i > 0 { assert cs[i] == ds[i - 1] && FullAt(ds, i - 1); }
      }
    }
  }

  lemma {:induction false} FramesAppend(frame: (nat, seq<Byte>) -> seq<Byte>, n: nat,
    a: seq<seq<Byte>>, b: seq<seq<Byte>>)
    ensures Frames(frame, n, a + b) == Frames(frame, n, a) + Frames(frame, n + |a|, b)
    decreases |a|
  {
    if a == [] {
      assert a + b == b;
    } else {
      FramesAppend(frame, n + 1, a[1..], b);
      assert (a + b)[1..] == a[1..] + b;
    }
  }

  // ---------------------------------------------------------------- the two ends

  class NoiseDirection {
    const c: Cipher
    var wire: seq<Byte>
    var enc: nat
    var dec: nat
    var buf: seq<Byte>
    ghost var flight: seq<seq<Byte>>
    ghost var written: seq<Byte>
    ghost var delivered: seq<Byte>

    constructor (c: Cipher)
      ensures this.c == c && Valid() && written == [] && delivered == []
    {
      this.c, wire, enc, dec, buf, flight, written, delivered := c, [], 0, 0, [], [], [], [];
    }

    /**
     The network holds the frames number `dec` to `enc`; delivered bytes, the leftover buffer and
     the decrypted frames in flight are together what was written.
     */
    ghost predicate Valid()
      reads this
    {
      && enc == dec + |flight| && Small(flight) && wire == Frames(Framer(c), dec, flight)
      && delivered + buf + Concat(flight) == written
    }

    /** One turn of the loop of `Write`: a length that needs no more than 16 bits, then the sealed chunk. */
    method WriteFrame(chunk: seq<Byte>)
      requires Laws(c) && |chunk| <= MAX_PLAIN
      modifies this`wire, this`enc
      ensures wire == old(wire) + Framer(c)(old(enc), chunk) && enc == old(enc) + 1
    {
      var s := c.seal(enc, chunk);
      assert |s| < 65536;
      wire := wire + [|s| / 256, |s| % 256];
      wire := wire + s;
      enc := enc + 1;
    }

    /** The loop of `Write`. */
    method WriteChunks(p0: seq<Byte>) returns (total: nat)
      requires Laws(c)
      modifies this`wire, this`enc
      ensures total == |p0| && wire == old(wire) + Frames(Framer(c), old(enc), Chunks(p0))
      ensures enc == old(enc) + |Chunks(p0)|
    {
      ghost var f, w, n := Framer(c), wire, enc;
      var p := p0;
      total := 0;
      while |p| > 0
        invariant total + |p| == |p0| && enc + |Chunks(p)| == n + |Chunks(p0)|
        invariant wire + Frames(f, enc, Chunks(p)) == w + Frames(f, n, Chunks(p0))
      {
        ghost var v := wire;
        var chunk := p[..Min(|p|, MAX_PLAIN)];
        FramesNext(f, v, enc, p);
        WriteFrame(chunk);
        total := total + |chunk|;
        p := p[|chunk|..];
      }
      assert wire + [] == wire;
    }

    /** `Write`. */
    method Write(p: seq<Byte>) returns (total: nat)
      requires Laws(c) && Valid()
      modifies this`wire, this`enc, this`written, this`flight
      ensures Valid() && total == |p| && written == old(written) + p
      ensures flight == old(flight) + Chunks(p)
    {
      total := WriteChunks(p);
      FramesAppend(Framer(c), dec, flight, Chunks(p));
      ConcatAppend(flight, Chunks(p));
      FlatChunks(p);
      Assoc(delivered + buf, Concat(flight), p);
      flight := flight + Chunks(p);
      written := written + p;
    }

    /** Takes the next frame off the network and opens it. */
    method ReadFrame() returns (plain: seq<Byte>)
      requires Laws(c) && flight != [] && Small(flight) && wire == Frames(Framer(c), dec, flight)
      modifies this`wire, this`dec, this`flight
      ensures plain == old(flight)[0] && flight == old(flight)[1..]
      ensures dec == old(dec) + 1 && wire == Frames(Framer(c), dec, flight)
    {
      SplitFrame(c, dec, flight[0], Frames(Framer(c), dec + 1, flight[1..]));
      var frame := Split(wire).value;
      plain := c.open(dec, frame.0).value;
      wire, dec, flight := frame.1, dec + 1, flight[1..];
    }

    /** `Read` into a buffer of `room` bytes; `blocked` when no frame has arrived. */
    method Read(room: nat) returns (data: seq<Byte>, blocked: bool)
      requires Laws(c) && Valid()
      modifies this`wire, this`dec, this`buf, this`delivered, this`flight
      ensures Valid() && |data| <= room && delivered == old(delivered) + data
      ensures blocked <==> old(buf) == [] && old(wire) == []
      ensures !blocked && old(buf) != [] ==> |data| == Min(room, |old(buf)|)
      ensures !blocked && old(buf) == [] ==> old(flight) != [] && |data| == Min(room, |old(flight)[0]|)
      ensures blocked ==> data == [] && written == delivered
    {
      if |buf| > 0 {
        data := Copy(buf, room);
        return data, false;
      }
      WireEmpty(c, dec, flight);
      if wire == [] { return [], true; }
      var plain := ReadFrame();
      FlatNext(delivered, old(flight));
      data := Copy(plain, room);
      return data, false;
    }

    /** Hands out what fits of `plain` and keeps the rest. */
    method Copy(plain: seq<Byte>, room: nat) returns (data: seq<Byte>)
      modifies this`buf, this`delivered
      ensures |data| == Min(room, |plain|) && delivered == old(delivered) + data
      ensures delivered + buf == old(delivered) + plain
    {
      data := plain[..Min(room, |plain|)];
      buf := plain[|data|..];
      assert plain == data + buf;
      Assoc(delivered, data, buf);
      delivered := delivered + data;
    }
  }

  lemma WireEmpty(c: Cipher, n: nat, cs: seq<seq<Byte>>)
    ensures Frames(Framer(c), n, cs) == [] <==> cs == []
  {
    if cs != [] { assert |Framer(c)(n, cs[0])| >= 2; }
  }

  lemma FlatNext(d: seq<Byte>, cs: seq<seq<Byte>>)
    requires cs != []
    ensures d + [] + Concat(cs) == d + cs[0] + Concat(cs[1..])
  {
  }

  lemma FramesNext(frame: (nat, seq<Byte>) -> seq<Byte>, wire: seq<Byte>, n: nat, p: seq<Byte>)
    requires p != []
    ensures var k := Min(|p|, MAX_PLAIN);
      wire + Frames(frame, n, Chunks(p)) == (wire + frame(n, p[..k])) + Frames(frame, n + 1, Chunks(p[k..]))
  {
    var k := Min(|p|, MAX_PLAIN);
    FramesCons(frame, n, p[..k], Chunks(p[k..]));
    Assoc(wire, frame(n, p[..k]), Frames(frame, n + 1, Chunks(p[k..])));
  }

  lemma FramesCons(frame: (nat, seq<Byte>) -> seq<Byte>, n: nat, chunk: seq<Byte>, cs: seq<seq<Byte>>)
    ensures Frames(frame, n, [chunk] + cs) == frame(n, chunk) + Frames(frame, n + 1, cs)
  {
    assert ([chunk] + cs)[1..] == cs;
  }

}

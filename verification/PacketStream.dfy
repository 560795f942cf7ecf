/**
 Packet streams over the secure channel, in both directions: the sender's nonce and the
 receiver's nonce move in lock step and every accepted packet arrives, in order.
 */
module PacketStream {
  import opened Bytes
  import opened Nonce
  import opened Framing
  import opened SecureChannel

  /** A length header and the sealed packet, as both sides write it. */
  function Frame(x: Crypto, key: Key, nonce: Nonce24, plain: seq<Byte>): seq<Byte> {
    var cipher := x.seal(key, nonce, plain);
    [|cipher| / 256 % 256, |cipher| % 256] + cipher
  }

  /** `encodePacket`: refuses long packets, otherwise frames and advances the nonce in place. */
  method EncodePacket(x: Crypto, key: Key, nonce: array<Byte>, plain: seq<Byte>) returns (r: Option<seq<Byte>>)
    requires nonce.Length == NONCE_SIZE
    modifies nonce
    ensures |plain| > MAX_PACKET_SIZE ==> r == None && nonce[..] == old(nonce[..])
    ensures |plain| <= MAX_PACKET_SIZE ==>
      r == Some(Frame(x, key, old(nonce[..]), plain)) && nonce[..] == Incr(old(nonce[..]))
  {
    if |plain| > MAX_PACKET_SIZE {
      return None;
    }
    var cipher := x.seal(key, nonce[..], plain);
    r := Some([|cipher| / 256 % 256, |cipher| % 256] + cipher);
    IncrNonce(nonce);
  }

  /** `decodePacket`: a frame that is too short or fails to open leaves the nonce alone. */
  method DecodePacket(x: Crypto, key: Key, nonce: array<Byte>, cipher: seq<Byte>) returns (r: Option<seq<Byte>>)
    requires nonce.Length == NONCE_SIZE
    modifies nonce
    ensures r == Opened(x, key, old(nonce[..]), cipher)
    ensures nonce[..] == if r.Some? then Incr(old(nonce[..])) else old(nonce[..])
  {
    if |cipher| < MAC_SIZE {
      return None;
    }
    r := x.open(key, nonce[..], cipher);
    if r.Some? {
      IncrNonce(nonce);
    }
  }

  function Opened(x: Crypto, key: Key, nonce: Nonce24, cipher: seq<Byte>): Option<seq<Byte>> {
    if |cipher| < MAC_SIZE then None else x.open(key, nonce, cipher)
  }

  /** `Unpacket` on the server: the nonce advances whether or not the frame opens. */
  method Unpacket(x: Crypto, key: Key, nonce: array<Byte>, cipher: seq<Byte>) returns (r: Option<seq<Byte>>)
    requires nonce.Length == NONCE_SIZE
    modifies nonce
    ensures r == x.open(key, old(nonce[..]), cipher) && nonce[..] == Incr(old(nonce[..]))
  {
    r := x.open(key, nonce[..], cipher);
    Incr2le(nonce);
  }

  /** `writeLoop` over the packets taken from its queue; refused ones are skipped. */
  method RunWriteLoop(x: Crypto, key: Key, nonce: array<Byte>, queue: seq<seq<Byte>>) returns (wire: seq<Byte>)
    requires nonce.Length == NONCE_SIZE
    modifies nonce
    ensures (wire, nonce[..]) == WriteLoop(x, key, old(nonce[..]), queue)
  {
    wire := [];
    ghost var total := WriteLoop(x, key, nonce[..], queue);
    assert queue[0..] == queue && [] + total.0 == total.0;
    for i := 0 to |queue|
      invariant total == (wire + WriteLoop(x, key, nonce[..], queue[i..]).0, WriteLoop(x, key, nonce[..], queue[i..]).1)
    {
      assert queue[i..][0] == queue[i] && queue[i..][1..] == queue[i + 1..];
      ghost var before, was := wire, nonce[..];
      var pkt := EncodePacket(x, key, nonce, queue[i]);
      if pkt.Some? {
        wire := wire + pkt.value;
        assert before + (pkt.value + WriteLoop(x, key, Incr(was), queue[i + 1..]).0) ==
          wire + WriteLoop(x, key, nonce[..], queue[i + 1..]).0;
      }
    }
    assert queue[|queue|..] == [] && wire + [] == wire;
  }

  // ---------------------------------------------------------------- client to server

  /** What `writeLoop` puts on the wire for the packets taken from its queue, and its nonce after. */
  function WriteLoop(x: Crypto, key: Key, nonce: Nonce24, plains: seq<seq<Byte>>): (seq<Byte>, Nonce24)
    decreases |plains|
  {
    if plains == [] then ([], nonce)
    else if |plains[0]| > MAX_PACKET_SIZE then WriteLoop(x, key, nonce, plains[1..])
    else
      var (rest, last) := WriteLoop(x, key, Incr(nonce), plains[1..]);
      (Frame(x, key, nonce, plains[0]) + rest, last)
  }

  /** The packets `encodePacket` does not refuse. */
  function Accepted(plains: seq<seq<Byte>>): seq<seq<Byte>> {
    if plains == [] then []
    else if |plains[0]| > MAX_PACKET_SIZE then Accepted(plains[1..])
    else [plains[0]] + Accepted(plains[1..])
  }

  /** Exactly the packets of up to 2048 bytes are accepted. */
  lemma {:induction false} AcceptedExactly(plains: seq<seq<Byte>>, p: seq<Byte>)
    ensures Accepted(plains + [p]) == Accepted(plains) + if |p| <= 2048 then [p] else []
    decreases |plains|
  {
    if plains == [] {
      assert [] + [p] == [p] && [p][1..] == [];
    } else {
      assert (plains + [p])[1..] == plains[1..] + [p];
      AcceptedExactly(plains[1..], p);
    }
  }

  /** The server unpacks frames in order; None stands for the panic on a frame that fails to open. */
  function UnpackAll(x: Crypto, key: Key, nonce: Nonce24, frames: seq<seq<Byte>>): Option<(seq<seq<Byte>>, Nonce24)>
    decreases |frames|
  {
    if frames == [] then Some(([], nonce))
    else
      match x.open(key, nonce, frames[0])
      case None => None
      case Some(plain) =>
        match UnpackAll(x, key, Incr(nonce), frames[1..])
        case None => None
        case Some((rest, last)) => Some(([plain] + rest, last))
  }

  function Ciphers(x: Crypto, key: Key, nonce: Nonce24, plains: seq<seq<Byte>>): seq<seq<Byte>>
    decreases |plains|
  {
    if plains == [] then [] else [x.seal(key, nonce, plains[0])] + Ciphers(x, key, Incr(nonce), plains[1..])
  }

  lemma FrameParses(x: Crypto, key: Key, nonce: Nonce24, plain: seq<Byte>, rest: seq<Byte>)
    requires Laws(x) && |plain| <= MAX_PACKET_SIZE
    ensures Parse(Frame(x, key, nonce, plain) + rest) == Before([x.seal(key, nonce, plain)], Parse(rest))
  {
    var cipher := x.seal(key, nonce, plain);
    var s := Frame(x, key, nonce, plain) + rest;
    assert Length(s) == |cipher|;
    assert s[2..2 + |cipher|] == cipher && s[2 + |cipher|..] == rest;
  }

  /** The written stream parses into exactly the sealed packets, with nothing left over. */
  lemma {:induction false} WrittenStreamParses(x: Crypto, key: Key, nonce: Nonce24, plains: seq<seq<Byte>>)
    requires Laws(x)
    ensures Parse(WriteLoop(x, key, nonce, plains).0) == Parsed(Ciphers(x, key, nonce, Accepted(plains)), [], false)
    decreases |plains|
  {
    if plains != [] {
      if |plains[0]| > MAX_PACKET_SIZE {
        WrittenStreamParses(x, key, nonce, plains[1..]);
      } else {
        WrittenStreamParses(x, key, Incr(nonce), plains[1..]);
        FrameParses(x, key, nonce, plains[0], WriteLoop(x, key, Incr(nonce), plains[1..]).0);
        assert Accepted(plains)[1..] == Accepted(plains[1..]);
      }
    }
  }

  /** Sealed packets unpack to themselves and leave both nonces equal. */
  lemma {:induction false} UnpackUndoesSeal(x: Crypto, key: Key, nonce: Nonce24, plains: seq<seq<Byte>>)
    requires Laws(x)
    ensures UnpackAll(x, key, nonce, Ciphers(x, key, nonce, plains)) == Some((plains, IncrN(nonce, |plains|)))
    decreases |plains|
  {
    if plains != [] {
      UnpackUndoesSeal(x, key, Incr(nonce), plains[1..]);
      var cs := Ciphers(x, key, nonce, plains);
      assert cs[0] == x.seal(key, nonce, plains[0]) && cs[1..] == Ciphers(x, key, Incr(nonce), plains[1..]);
      assert plains == [plains[0]] + plains[1..];
      IncrNShift(nonce, |plains| - 1);
    }
  }

  lemma {:induction false} IncrNShift(s: seq<Byte>, n: nat)
    ensures IncrN(Incr(s), n) == IncrN(s, n + 1)
  {
    if n > 0 { IncrNShift(s, n - 1); }
  }

  lemma {:induction false} WriterNonce(x: Crypto, key: Key, nonce: Nonce24, plains: seq<seq<Byte>>)
    ensures WriteLoop(x, key, nonce, plains).1 == IncrN(nonce, |Accepted(plains)|)
    decreases |plains|
  {
    if plains != [] {
      if |plains[0]| > MAX_PACKET_SIZE {
        WriterNonce(x, key, nonce, plains[1..]);
      } else {
        WriterNonce(x, key, Incr(nonce), plains[1..]);
        IncrNShift(nonce, |Accepted(plains[1..])|);
      }
    }
  }

  /**
   Client to server over a cut-up stream: whatever chunks the bytes arrive in, the server unpacks
   exactly the packets that were not refused, in order, and ends on the client's send nonce.
   As it holds for every list of packets, it holds after each packet.
   */
  lemma ClientToServer(x: Crypto, key: Key, nonce: Nonce24, plains: seq<seq<Byte>>, chunks: seq<seq<Byte>>)
    requires Laws(x) && Concat(chunks) == WriteLoop(x, key, nonce, plains).0
    ensures var got := Feeds([], chunks);
      && !got.crashed && got.rest == []
      && UnpackAll(x, key, nonce, got.packets) == Some((Accepted(plains), WriteLoop(x, key, nonce, plains).1))
  {
    FragmentationIndependence(chunks, chunks);
    WrittenStreamParses(x, key, nonce, plains);
    UnpackUndoesSeal(x, key, nonce, Accepted(plains));
    WriterNonce(x, key, nonce, plains);
  }

  /** Handshake and traffic together: the client's packets reach the server under the agreed key. */
  lemma ChannelAgreement(x: Crypto, serverSK: Key, clientSK: Key,
                         cliTempSK: Key, cliNonce: Nonce24, cliInit: Nonce24,
                         srvTempSK: Key, srvNonce: Nonce24, srvTmp: Nonce24,
                         plains: seq<seq<Byte>>, chunks: seq<seq<Byte>>)
    requires Laws(x)
    ensures var initShr := x.dh(x.pub(serverSK), clientSK);
      var hello := Hello(x, x.pub(clientSK), initShr, x.pub(cliTempSK), cliNonce, cliInit);
      && |hello| == HANDSHAKE_SIZE
      && var a := ServerAccept(x, serverSK, hello, srvTempSK, srvNonce, srvTmp);
      && a.Some?
      && var fin := ClientFinish(x, initShr, cliTempSK, a.value.1);
      && fin.Some?
      && (Concat(chunks) == WriteLoop(x, fin.value.0, cliNonce, plains).0 ==>
            && !Feeds([], chunks).crashed
            && UnpackAll(x, a.value.0.shrkey, a.value.0.recvNonce, Feeds([], chunks).packets) ==
               Some((Accepted(plains), WriteLoop(x, fin.value.0, cliNonce, plains).1)))
  {
    HandshakeAgrees(x, serverSK, clientSK, cliTempSK, cliNonce, cliInit, srvTempSK, srvNonce, srvTmp);
    var initShr := x.dh(x.pub(serverSK), clientSK);
    var hello := Hello(x, x.pub(clientSK), initShr, x.pub(cliTempSK), cliNonce, cliInit);
    var session := ServerAccept(x, serverSK, hello, srvTempSK, srvNonce, srvTmp).value.0;
    if Concat(chunks) == WriteLoop(x, session.shrkey, cliNonce, plains).0 {
      ClientToServer(x, session.shrkey, cliNonce, plains, chunks);
    }
  }

  // ---------------------------------------------------------------- server to client

  /** `CreatePacket` and `WritePacket` for the packets in the server's queues. */
  function ServerWrites(x: Crypto, key: Key, nonce: Nonce24, plains: seq<seq<Byte>>): seq<Byte>
    decreases |plains|
  {
    if plains == [] then [] else Frame(x, key, nonce, plains[0]) + ServerWrites(x, key, Incr(nonce), plains[1..])
  }

  /** One `ReadPacket`: the frame and the rest, or None at the end, in mid-frame, or when too large. */
  function ReadPacket(stream: seq<Byte>): Option<(seq<Byte>, seq<Byte>)> {
    if |stream| < 2 || Length(stream) > MAX_PACKET_SIZE || |stream| < 2 + Length(stream) then None
    else Some((stream[2..2 + Length(stream)], stream[2 + Length(stream)..]))
  }

  /** `readLoop`: deliver what opens, skip what does not, stop when `ReadPacket` fails. */
  function ReadLoop(x: Crypto, key: Key, nonce: Nonce24, stream: seq<Byte>): (seq<seq<Byte>>, Nonce24)
    decreases |stream|
  {
    match ReadPacket(stream)
    case None => ([], nonce)
    case Some((frame, rest)) =>
      match Opened(x, key, nonce, frame)
      case None => ReadLoop(x, key, nonce, rest)
      case Some(plain) =>
        var (more, last) := ReadLoop(x, key, Incr(nonce), rest);
        ([plain] + more, last)
  }

  /** `readLoop` over the bytes received until the connection ends. */
  method RunReadLoopOfClient(x: Crypto, key: Key, nonce: array<Byte>, stream: seq<Byte>)
    returns (plains: seq<seq<Byte>>)
    requires nonce.Length == NONCE_SIZE
    modifies nonce
    ensures (plains, nonce[..]) == ReadLoop(x, key, old(nonce[..]), stream)
  {
    plains := [];
    var rest := stream;
    ghost var total := ReadLoop(x, key, nonce[..], stream);
    assert [] + total.0 == total.0;
    while true
      invariant total == (plains + ReadLoop(x, key, nonce[..], rest).0, ReadLoop(x, key, nonce[..], rest).1)
      decreases |rest|
    {
      ghost var was := nonce[..];
      match ReadPacket(rest)
      case None =>
        assert plains + [] == plains;
        return;
      case Some((frame, tail)) =>
        var plain := DecodePacket(x, key, nonce, frame);
        if plain.Some? {
          assert plains + ([plain.value] + ReadLoop(x, key, Incr(was), tail).0) ==
            plains + [plain.value] + ReadLoop(x, key, nonce[..], tail).0;
          plains := plains + [plain.value];
        }
        rest := tail;
    }
  }

  /** The packets before the first one whose frame the client refuses. */
  function UpToTooLong(plains: seq<seq<Byte>>): seq<seq<Byte>> {
    if plains == [] || |plains[0]| + MAC_SIZE > MAX_PACKET_SIZE then [] else [plains[0]] + UpToTooLong(plains[1..])
  }

  lemma FrameReads(x: Crypto, key: Key, nonce: Nonce24, plain: seq<Byte>, rest: seq<Byte>)
    requires Laws(x) && |plain| + MAC_SIZE < 65536
    ensures ReadPacket(Frame(x, key, nonce, plain) + rest) ==
            if |plain| + MAC_SIZE > MAX_PACKET_SIZE then None else Some((x.seal(key, nonce, plain), rest))
  {
    var cipher := x.seal(key, nonce, plain);
    var s := Frame(x, key, nonce, plain) + rest;
    assert Length(s) == |cipher|;
    assert s[2..2 + |cipher|] == cipher && s[2 + |cipher|..] == rest;
  }

  /** A genuine frame at the front is delivered, and the loop goes on behind it. */
  lemma FrameOpens(x: Crypto, key: Key, nonce: Nonce24, plain: seq<Byte>, rest: seq<Byte>)
    requires Laws(x) && |plain| + MAC_SIZE <= MAX_PACKET_SIZE
    ensures var (more, last) := ReadLoop(x, key, Incr(nonce), rest);
      ReadLoop(x, key, nonce, Frame(x, key, nonce, plain) + rest) == ([plain] + more, last)
  {
    FrameReads(x, key, nonce, plain, rest);
  }

  /** The client receives exactly the packets before the first one longer than 2032 bytes. */
  lemma {:induction false} ServerToClient(x: Crypto, key: Key, nonce: Nonce24, plains: seq<seq<Byte>>)
    requires Laws(x) && forall p <- plains :: |p| <= MAX_PACKET_SIZE + 1
    ensures ReadLoop(x, key, nonce, ServerWrites(x, key, nonce, plains)) ==
            (UpToTooLong(plains), IncrN(nonce, |UpToTooLong(plains)|))
    decreases |plains|
  {
    if plains != [] {
      var rest := ServerWrites(x, key, Incr(nonce), plains[1..]);
      if |plains[0]| + MAC_SIZE <= MAX_PACKET_SIZE {
        FrameOpens(x, key, nonce, plains[0], rest);
        ServerToClient(x, key, Incr(nonce), plains[1..]);
        IncrNShift(nonce, |UpToTooLong(plains[1..])|);
      } else {
        FrameReads(x, key, nonce, plains[0], rest);
      }
    }
  }

  /** Everything arrives exactly when no packet is longer than 2032 bytes. */
  lemma {:induction false} AllArriveExactly(plains: seq<seq<Byte>>)
    ensures UpToTooLong(plains) == plains <==> forall p <- plains :: |p| <= 2032
  {
    if plains != [] {
      AllArriveExactly(plains[1..]);
      assert plains == [plains[0]] + plains[1..];
      assert |plains[0]| <= 2032 ==> UpToTooLong(plains)[1..] == UpToTooLong(plains[1..]);
      assert plains[0] in plains;
    }
  }

  // ---------------------------------------------------------------- junk between genuine frames

  /** A genuine packet of the peer, or bytes that somebody slipped into the stream as a frame. */
  datatype Sent = Genuine(plain: seq<Byte>) | Junk(frame: seq<Byte>)

  function Wire(x: Crypto, key: Key, nonce: Nonce24, sent: seq<Sent>): seq<Byte>
    decreases |sent|
  {
    if sent == [] then []
    else
      match sent[0]
      case Genuine(plain) => Frame(x, key, nonce, plain) + Wire(x, key, Incr(nonce), sent[1..])
      case Junk(frame) => [|frame| / 256 % 256, |frame| % 256] + frame + Wire(x, key, nonce, sent[1..])
  }

  /** Every junk frame fails to open under the nonce the receiver has at that point. */
  ghost predicate JunkFails(x: Crypto, key: Key, nonce: Nonce24, sent: seq<Sent>)
    decreases |sent|
  {
    if sent == [] then true
    else
      match sent[0]
      case Genuine(plain) => |plain| + MAC_SIZE <= MAX_PACKET_SIZE && JunkFails(x, key, Incr(nonce), sent[1..])
      case Junk(frame) =>
        |frame| <= MAX_PACKET_SIZE && Opened(x, key, nonce, frame) == None && JunkFails(x, key, nonce, sent[1..])
  }

  function GenuineOnly(sent: seq<Sent>): seq<seq<Byte>> {
    if sent == [] then []
    else
      match sent[0]
      case Genuine(plain) => [plain] + GenuineOnly(sent[1..])
      case Junk(_) => GenuineOnly(sent[1..])
  }

  /** Frames that fail to open change nothing: the genuine packets still arrive in order. */
  lemma {:induction false} JunkIsHarmless(x: Crypto, key: Key, nonce: Nonce24, sent: seq<Sent>)
    requires Laws(x) && JunkFails(x, key, nonce, sent)
    ensures ReadLoop(x, key, nonce, Wire(x, key, nonce, sent)) == (GenuineOnly(sent), IncrN(nonce, |GenuineOnly(sent)|))
    decreases |sent|
  {
    if sent != [] {
      match sent[0]
      case Genuine(plain) =>
        var rest := Wire(x, key, Incr(nonce), sent[1..]);
        FrameOpens(x, key, nonce, plain, rest);
        JunkIsHarmless(x, key, Incr(nonce), sent[1..]);
        IncrNShift(nonce, |GenuineOnly(sent[1..])|);
      case Junk(frame) =>
        JunkReads(frame, Wire(x, key, nonce, sent[1..]));
        JunkIsHarmless(x, key, nonce, sent[1..]);
    }
  }

  lemma JunkReads(frame: seq<Byte>, rest: seq<Byte>)
    requires |frame| <= MAX_PACKET_SIZE
    ensures ReadPacket([|frame| / 256 % 256, |frame| % 256] + frame + rest) == Some((frame, rest))
  {
    var s := [|frame| / 256 % 256, |frame| % 256] + frame + rest;
    assert Length(s) == |frame|;
    assert s[2..2 + |frame|] == frame && s[2 + |frame|..] == rest;
  }
}

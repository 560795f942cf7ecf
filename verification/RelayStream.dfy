/**
 One logical stream over rotating relayed connections, end to end (relayhub/socket.go and the
 dispatch loop of relayhub/relay.go): connecting sockets, the dispatcher of the accepting client
 and its sockets as one state machine whose steps interleave freely.
 */
module RelayStream {
  import opened Bytes
  import opened SocketIds
  import opened RelaySender

  const QUEUE := 8

  /**
   An accepting socket: the queue `ch` and the current connection, as indices of connections.
   `got` and `out` record what it took from the queue and what its reads returned.
   */
  datatype Sock = Sock(ch: seq<nat>, cur: Option<nat>, signalled: bool, got: seq<nat>, out: seq<Byte>)

  /** `log` records the bytes each connecting socket's writes accepted, `lost` the ids with a dropped connection. */
  datatype Net = Net(wires: seq<Wire>, senders: map<Id, Sender>, log: map<Id, seq<Byte>>,
                     cursor: nat, socks: map<Id, Sock>, lost: set<Id>)

  const EMPTY_NET := Net([], map[], map[], 0, map[], {})
  const NEW_SOCK := Sock([], None, false, [], [])

  datatype Step =
    | NewSocket(id: Id, limit: int)
    | SendStep(id: Id, op: SendOp)
    | DispatchStep
    | AcceptStep(id: Id)
    | ReadStep(id: Id, n: nat)
    | EofStep(id: Id)
    | EndStep(id: Id)
    | CloseSockStep(id: Id)

  // ---------------------------------------------------------------- connections and payloads

  predicate Whole(w: Wire) {
    PbMessage(w.owner) <= w.bytes
  }

  predicate Mine(w: Wire, id: Id) {
    w.owner == id && Whole(w)
  }

  function Payload(w: Wire): seq<Byte> {
    if Whole(w) then w.bytes[|PbMessage(w.owner)|..] else []
  }

  // ---------------------------------------------------------------- steps

  /** `dispatchIncoming`: queue the connection, or drop it when eight are waiting. */
  function Enqueue(net: Net, id: Id, i: nat): Net {
    var k := if id in net.socks then net.socks[id] else NEW_SOCK;
    if |k.ch| < QUEUE then net.(socks := net.socks[id := k.(ch := k.ch + [i])])
    else net.(socks := net.socks[id := k], lost := net.lost + {id})
  }

  /** One turn of `dispatchLoop`. */
  function Dispatch(net: Net): Net
    requires net.cursor < |net.wires|
  {
    var i := net.cursor;
    var net1 := net.(cursor := i + 1);
    match ReadOnePb(net.wires[i].bytes)
    case None => net1
    case Some((data, _)) => RouteConn(net1, data, i)
  }

  /** Where `dispatchLoop` takes connection `i` that opened with message `data`. */
  function RouteConn(net: Net, data: seq<Byte>, i: nat): Net {
    match RouteOf(data)
    case CloseOf(id) =>
      if id in net.socks then net.(socks := net.socks[id := net.socks[id].(signalled := true)]) else net
    case To(id) => Enqueue(net, id, i)
  }

  ghost predicate Enabled(net: Net, step: Step) {
    match step
    case NewSocket(id, _) => IsConnId(id) && id !in net.senders
    case SendStep(id, _) => id in net.senders && id in net.log && Linked(net.wires, net.senders[id])
    case DispatchStep => net.cursor < |net.wires|
    case AcceptStep(id) => id in net.socks && net.socks[id].cur.None? && net.socks[id].ch != []
    case ReadStep(id, n) => CanRead(net, id, n)
    case EofStep(id) =>
      && id in net.socks && net.socks[id].cur.Some? && net.socks[id].cur.value < |net.wires|
      && Done(net.wires[net.socks[id].cur.value])
    case EndStep(id) => id in net.socks && net.socks[id].cur.None? && net.socks[id].signalled
    case CloseSockStep(id) => id in net.socks
  }

  /** Reads return what has arrived on the current connection, or less. */
  predicate CanRead(net: Net, id: Id, n: nat) {
    && id in net.socks && net.socks[id].cur.Some? && net.socks[id].cur.value < |net.wires|
    && net.wires[net.socks[id].cur.value].read + n <= |Payload(net.wires[net.socks[id].cur.value])|
  }

  /** A connection reports EOF once its writer closed it and all its payload was read. */
  predicate Done(w: Wire) {
    w.closed && w.read == |Payload(w)|
  }

  /** The bytes a sending step accepts from its caller. */
  function Accepts(ws: seq<Wire>, id: Id, s: Sender, op: SendOp): seq<Byte>
    requires Linked(ws, s)
  {
    match op
    case WriteOp(p, d, sent, failed) =>
      var o := Write(ws, id, s, p, d, sent, failed).outcome;
      if o.Wrote? then p[..o.n] else []
    case _ => []
  }

  /** `Read` on the current connection, returning `n` bytes. */
  function ReadBytes(net: Net, id: Id, n: nat): Net
    requires CanRead(net, id, n)
  {
    var k := net.socks[id];
    var i := k.cur.value;
    net.(wires := Advance(net.wires, i, n), socks := net.socks[id := TakeBytes(k, net.wires[i], n)])
  }

  function Advance(ws: seq<Wire>, i: nat, n: nat): seq<Wire>
    requires i < |ws|
  {
    ws[i := ws[i].(read := ws[i].read + n)]
  }

  function TakeBytes(k: Sock, w: Wire, n: nat): Sock
    requires w.read + n <= |Payload(w)|
  {
    k.(out := k.out + Payload(w)[w.read..w.read + n])
  }

  /** `acceptNext` taking a queued connection. */
  function TakeNext(k: Sock): Sock
    requires k.ch != []
  {
    k.(ch := k.ch[1..], cur := Some(k.ch[0]), got := k.got + [k.ch[0]])
  }

  ghost function Apply(net: Net, step: Step): Net
    requires Enabled(net, step)
  {
    match step
    case NewSocket(id, limit) =>
      net.(senders := net.senders[id := Sender(limit, None, 0, 0, 0, false)], log := net.log[id := []])
    case SendStep(id, op) =>
      var (ws, s) := Send(net.wires, id, net.senders[id], op);
      net.(wires := ws, senders := net.senders[id := s],
           log := net.log[id := net.log[id] + Accepts(net.wires, id, net.senders[id], op)])
    case DispatchStep => Dispatch(net)
    case AcceptStep(id) => net.(socks := net.socks[id := TakeNext(net.socks[id])])
    case ReadStep(id, n) => ReadBytes(net, id, n)
    case EofStep(id) => net.(socks := net.socks[id := net.socks[id].(cur := None)])
    case EndStep(id) => net.(socks := net.socks[id := net.socks[id].(signalled := false)])
    case CloseSockStep(id) => net.(socks := net.socks - {id}, lost := net.lost + {id})
  }

  // ---------------------------------------------------------------- what a sending step does to the connections

  /** All payload of socket `id`, in the order its connections were opened. */
  function Stream(ws: seq<Wire>, id: Id): seq<Byte> {
    if ws == [] then []
    else
      var n := |ws| - 1;
      Stream(ws[..n], id) + (if ws[n].owner == id then Payload(ws[n]) else [])
  }

  /** From `w` to `v`: only bytes of an open whole connection of `id` are added, and it may get closed. */
  predicate Grew(w: Wire, v: Wire, id: Id) {
    && v.owner == w.owner && v.read == w.read && w.bytes <= v.bytes
    && (Whole(w) <==> Whole(v))
    && (w.closed ==> v == w)
    && (w.owner != id ==> v == w)
  }

  predicate Opened(v: Wire, id: Id) {
    && v.read == 0
    && (|| (v.owner == id && (Whole(v) || (v.closed && v.bytes < PbMessage(id))))
        || (|id| >= 6 && v.owner == CloseId(id) && v.bytes == PbMessage(v.owner)))
  }

  ghost predicate AllGrew(ws: seq<Wire>, vs: seq<Wire>, id: Id) {
    && |ws| <= |vs|
    && (forall j | 0 <= j < |ws| :: Grew(ws[j], vs[j], id))
    && (forall j | |ws| <= j < |vs| :: Opened(vs[j], id))
  }

  /** The current connection is whole, is not written once closed, and later ones carry nothing. */
  ghost predicate SenderOk(ws: seq<Wire>, id: Id, s: Sender) {
    s.cur.Some? ==>
      var i := s.cur.value;
      && i < |ws| && Mine(ws[i], id)
      && (ws[i].closed ==> NeedsRotation(s))
      && (forall j | i < j < |ws| && ws[j].owner == id :: Payload(ws[j]) == [])
  }

  lemma GrewTwice(us: seq<Wire>, vs: seq<Wire>, ws: seq<Wire>, id: Id)
    requires AllGrew(us, vs, id) && AllGrew(vs, ws, id)
    requires forall j | |us| <= j < |vs| :: vs[j].owner == id
    ensures AllGrew(us, ws, id)
  {
    forall j | 0 <= j < |us| ensures Grew(us[j], ws[j], id) {
      assert Grew(us[j], vs[j], id) && Grew(vs[j], ws[j], id);
    }
    forall j | |us| <= j < |ws| ensures Opened(ws[j], id) {
      if j < |vs| { assert Opened(vs[j], id) && Grew(vs[j], ws[j], id); }
    }
  }

  lemma {:induction false} StreamSame(ws: seq<Wire>, vs: seq<Wire>, id: Id)
    requires |ws| == |vs|
    requires forall j | 0 <= j < |ws| ::
      ws[j].owner == vs[j].owner && (ws[j].owner == id ==> Payload(ws[j]) == Payload(vs[j]))
    ensures Stream(ws, id) == Stream(vs, id)
    decreases |ws|
  {
    if ws != [] {
      var n := |ws| - 1;
      StreamSame(ws[..n], vs[..n], id);
    }
  }

  lemma StreamOpened(ws: seq<Wire>, w: Wire, id: Id)
    ensures Stream(ws + [w], id) == Stream(ws, id) + if w.owner == id then Payload(w) else []
  {
    assert (ws + [w])[..|ws|] == ws;
  }

  lemma PayloadAppend(w: Wire, p: seq<Byte>)
    requires Whole(w)
    ensures Whole(w.(bytes := w.bytes + p)) && Payload(w.(bytes := w.bytes + p)) == Payload(w) + p
  {
  }

  /** Writing to a connection after which nothing of `id` follows appends to the stream of `id`. */
  lemma {:induction false} StreamAppend(ws: seq<Wire>, i: nat, p: seq<Byte>, id: Id)
    requires i < |ws| && Mine(ws[i], id)
    requires forall j | i < j < |ws| && ws[j].owner == id :: Payload(ws[j]) == []
    ensures Stream(AppendTo(ws, i, p), id) == Stream(ws, id) + p
    decreases |ws|
  {
    var n, vs := |ws| - 1, AppendTo(ws, i, p);
    PayloadAppend(ws[i], p);
    if i < n {
      StreamAppend(ws[..n], i, p, id);
      assert vs[..n] == AppendTo(ws[..n], i, p);
    } else {
      assert vs[..n] == ws[..n];
    }
  }

  lemma CloseGrows(ws: seq<Wire>, i: nat, id: Id)
    requires i < |ws| && ws[i].owner == id
    ensures AllGrew(ws, CloseWire(ws, i), id) && Stream(CloseWire(ws, i), id) == Stream(ws, id)
  {
    StreamSame(ws, CloseWire(ws, i), id);
  }

  /** A new connection with nothing but its header, or a part of that. */
  predicate Empty(w: Wire, id: Id) {
    w.owner == id && w.read == 0 && Payload(w) == [] && (Whole(w) || (w.closed && w.bytes < PbMessage(id)))
  }

  lemma NewWireGrows(ws: seq<Wire>, id: Id, w: Wire, s: Sender)
    requires Empty(w, id)
    ensures AllGrew(ws, ws + [w], id) && Stream(ws + [w], id) == Stream(ws, id)
    ensures SenderOk(ws, id, s) ==> SenderOk(ws + [w], id, s)
  {
    StreamOpened(ws, w, id);
  }

  lemma OpenGrows(ws: seq<Wire>, id: Id, s: Sender, d: Dial)
    requires SenderOk(ws, id, s)
    ensures var (vs, s1, ok) := Open(ws, id, s, d);
      && AllGrew(ws, vs, id) && Stream(vs, id) == Stream(ws, id) && SenderOk(vs, id, s1)
      && (forall j | |ws| <= j < |vs| :: vs[j].owner == id)
      && (ok ==> s1.cur.Some? && !vs[s1.cur.value].closed)
  {
    var vs := Open(ws, id, s, d).0;
    if !d.DialFails? {
      var w := vs[|ws|];
      assert Empty(w, id);
      NewWireGrows(ws, id, w, s);
    }
  }

  lemma RotateGrows(ws: seq<Wire>, id: Id, s: Sender, d: Dial)
    requires SenderOk(ws, id, s) && NeedsRotation(s)
    ensures Linked(ws, s)
    ensures var (vs, s1, ok) := Rotate(ws, id, s, d);
      && AllGrew(ws, vs, id) && Stream(vs, id) == Stream(ws, id) && SenderOk(vs, id, s1)
      && (forall j | |ws| <= j < |vs| :: vs[j].owner == id)
      && (ok ==> s1.cur.Some? && !vs[s1.cur.value].closed)
  {
    if s.cur.Some? {
      var us, s1 := CloseWire(ws, s.cur.value), s.(rot := s.rot + 1);
      CloseGrows(ws, s.cur.value, id);
      assert SenderOk(us, id, s1);
      OpenGrows(us, id, s1, d);
      GrewTwice(ws, us, Open(us, id, s1, d).0, id);
    } else {
      OpenGrows(ws, id, s, d);
    }
  }

  lemma TransmitGrows(ws: seq<Wire>, id: Id, s: Sender, p: seq<Byte>, sent: nat, failed: bool)
    requires SenderOk(ws, id, s) && s.cur.Some? && !ws[s.cur.value].closed && 0 <= Avail(s, |p|)
    ensures var r := Transmit(ws, s, p, sent, failed);
      && r.outcome.Wrote? && r.outcome.n <= |p|
      && AllGrew(ws, r.wires, id) && SenderOk(r.wires, id, r.s)
      && Stream(r.wires, id) == Stream(ws, id) + p[..r.outcome.n]
  {
    var r, i := Transmit(ws, s, p, sent, failed), s.cur.value;
    var a := p[..r.outcome.n];
    var vs := AppendTo(ws, i, a);
    PayloadAppend(ws[i], a);
    StreamAppend(ws, i, a, id);
    assert AllGrew(ws, vs, id);
    if failed {
      CloseGrows(vs, i, id);
      GrewTwice(ws, vs, CloseWire(vs, i), id);
    }
  }

  lemma WriteGrows(ws: seq<Wire>, id: Id, s: Sender, p: seq<Byte>, d: Dial, sent: nat, failed: bool)
    requires SenderOk(ws, id, s)
    ensures Linked(ws, s)
    ensures var r := Write(ws, id, s, p, d, sent, failed);
      && AllGrew(ws, r.wires, id) && SenderOk(r.wires, id, r.s)
      && Stream(r.wires, id) == Stream(ws, id) + if r.outcome.Wrote? then p[..r.outcome.n] else []
  {
    if !s.closed {
      var vs, s1, ok := ws, s, true;
      if NeedsRotation(s) {
        RotateGrows(ws, id, s, d);
        var t := Rotate(ws, id, s, d);
        vs, s1, ok := t.0, t.1, t.2;
      }
      assert AllGrew(ws, vs, id);
      if ok && Avail(s1, |p|) >= 0 {
        TransmitGrows(vs, id, s1, p, sent, failed);
        GrewTwice(ws, vs, Transmit(vs, s1, p, sent, failed).wires, id);
      }
    }
  }

  function CloseMessage(id: Id): Wire
    requires |id| >= 6
  {
    Wire(CloseId(id), PbMessage(CloseId(id)), true, 0)
  }

  lemma CloseMessageGrows(ws: seq<Wire>, id: Id)
    requires |id| >= 6 && CloseId(id) != id
    ensures AllGrew(ws, ws + [CloseMessage(id)], id) && Stream(ws + [CloseMessage(id)], id) == Stream(ws, id)
  {
    StreamOpened(ws, CloseMessage(id), id);
  }

  lemma CloseSocketGrows(ws: seq<Wire>, id: Id, s: Sender, told: bool)
    requires SenderOk(ws, id, s) && (|id| >= 6 ==> CloseId(id) != id)
    ensures Linked(ws, s)
    ensures var (vs, s1) := Close(ws, id, s, told);
      AllGrew(ws, vs, id) && SenderOk(vs, id, s1) && Stream(vs, id) == Stream(ws, id)
  {
    if !s.closed {
      var us := if s.cur.Some? then CloseWire(ws, s.cur.value) else ws;
      if s.cur.Some? { CloseGrows(ws, s.cur.value, id); }
      assert AllGrew(ws, us, id);
      if told && |id| >= 6 {
        CloseMessageGrows(us, id);
        GrewTwice(ws, us, us + [CloseMessage(id)], id);
      }
    }
  }

  /** What any sending step does: the stream of its socket grows by exactly the accepted bytes. */
  lemma SendGrows(ws: seq<Wire>, id: Id, s: Sender, op: SendOp)
    requires SenderOk(ws, id, s) && (|id| >= 6 ==> CloseId(id) != id)
    ensures Linked(ws, s)
    ensures var (vs, s1) := Send(ws, id, s, op);
      AllGrew(ws, vs, id) && SenderOk(vs, id, s1) && Stream(vs, id) == Stream(ws, id) + Accepts(ws, id, s, op)
  {
    match op
    case ConnectOp(d) => OpenGrows(ws, id, s, d);
    case WriteOp(p, d, sent, failed) => WriteGrows(ws, id, s, p, d, sent, failed);
    case CloseOp(told) => CloseSocketGrows(ws, id, s, told);
  }

  /** Other sockets' streams and current connections are untouched. */
  lemma {:induction false} OthersStream(ws: seq<Wire>, vs: seq<Wire>, id: Id, other: Id)
    requires AllGrew(ws, vs, id) && other != id && (|id| >= 6 ==> CloseId(id) != other)
    ensures Stream(vs, other) == Stream(ws, other)
    decreases |vs|
  {
    if |vs| == |ws| {
      StreamSame(ws, vs, other);
    } else {
      var n := |vs| - 1;
      assert Opened(vs[n], id);
      OthersStream(ws, vs[..n], id, other);
    }
  }

  lemma OthersOk(ws: seq<Wire>, vs: seq<Wire>, id: Id, other: Id, s: Sender)
    requires AllGrew(ws, vs, id) && other != id && (|id| >= 6 ==> CloseId(id) != other) && SenderOk(ws, other, s)
    ensures SenderOk(vs, other, s)
  {
    if s.cur.Some? {
      var i := s.cur.value;
      assert Grew(ws[i], vs[i], id);
      forall j | |ws| <= j < |vs| ensures vs[j].owner != other { assert Opened(vs[j], id); }
      forall j | i < j < |ws| && vs[j].owner == other ensures Payload(vs[j]) == [] { assert Grew(ws[j], vs[j], id); }
    }
  }
}

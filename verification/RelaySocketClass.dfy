/**
 `RelaySocket` and the dispatcher of its client as they update their fields (relayhub/socket.go,
 relayhub/relay.go), proved against the value model. Dial and network outcomes are parameters.
 */
module RelaySocketClass {
  import opened Bytes
  import opened SocketIds
  import opened RelaySender
  import opened RelayStream
  import opened RelayStreamRuns

  /** The relayed connections between the two clients. */
  class Relay {
    var wires: seq<Wire>

    constructor ()
      ensures wires == []
    {
      wires := [];
    }
  }

  datatype Taken = FromQueue | CloseSignal | WouldBlock
  datatype ReadOutcome = Data | EndOfStream | Blocked | ReadOnClosed

  /** Connections differ at most in how far they were read. */
  ghost predicate OnlyRead(ws: seq<Wire>, vs: seq<Wire>) {
    |ws| == |vs| && forall j | 0 <= j < |ws| :: ReadFurther(ws[j], vs[j])
  }

  predicate ReadFurther(w: Wire, v: Wire) {
    v == w.(read := v.read) && w.read <= v.read
  }

  class RelaySocket {
    const id: Id
    const relay: Relay
    const limitBytes: int
    var cur: Option<nat>
    var writeOnCur: int
    var writeTotal: nat
    var readTotal: nat
    var rotCount: nat
    var closed: bool
    var ch: seq<nat>
    var signalled: bool
    ghost var got: seq<nat>
    ghost var out: seq<Byte>

    constructor (id: Id, relay: Relay, limitBytes: int)
      ensures this.id == id && this.relay == relay && this.limitBytes == limitBytes && readTotal == 0
      ensures SendView() == Sender(limitBytes, None, 0, 0, 0, false) && View() == NEW_SOCK
    {
      this.id, this.relay, this.limitBytes := id, relay, limitBytes;
      cur, writeOnCur, writeTotal, readTotal, rotCount, closed := None, 0, 0, 0, 0, false;
      ch, signalled, got, out := [], false, [], [];
    }

    ghost function SendView(): Sender
      reads this
    {
      Sender(limitBytes, cur, writeOnCur, writeTotal, rotCount, closed)
    }

    ghost function View(): Sock
      reads this
    {
      Sock(ch, cur, signalled, got, out)
    }

    /** Dials the relay and sends the id. */
    method Dial(d: Dial) returns (conn: Option<nat>)
      modifies relay
      ensures var (ws, s, ok) := Open(old(relay.wires), id, SendView(), d);
        relay.wires == ws && conn.Some? == ok && (ok ==> s.cur == conn)
    {
      var header := PbMessage(id);
      match d
      case DialFails =>
        conn := None;
      case HeaderFails(k) =>
        relay.wires := relay.wires + [Wire(id, if k < |header| then header[..k] else header, true, 0)];
        conn := None;
      case Dials =>
        relay.wires := relay.wires + [Wire(id, header, false, 0)];
        conn := Some(|relay.wires| - 1);
    }

    method Connect(d: Dial) returns (ok: bool)
      modifies this`cur, this`writeOnCur, relay
      ensures (relay.wires, SendView(), ok) == Open(old(relay.wires), id, old(SendView()), d)
    {
      var conn := Dial(d);
      ok := conn.Some?;
      if ok { cur, writeOnCur := conn, |id| + 1; }
    }

    method RotateWrite(d: Dial) returns (ok: bool)
      requires Linked(relay.wires, SendView())
      modifies this`cur, this`writeOnCur, this`rotCount, relay
      ensures (relay.wires, SendView(), ok) == Rotate(old(relay.wires), id, old(SendView()), d)
    {
      if cur.Some? {
        relay.wires := CloseWire(relay.wires, cur.value);
        rotCount := rotCount + 1;
      }
      ok := Connect(d);
    }

    method Write(p: seq<Byte>, d: Dial, sent: nat, failed: bool) returns (outcome: Outcome)
      requires Linked(relay.wires, SendView())
      modifies this`cur, this`writeOnCur, this`writeTotal, this`rotCount, relay
      ensures var r := RelaySender.Write(old(relay.wires), id, old(SendView()), p, d, sent, failed);
        relay.wires == r.wires && SendView() == r.s && outcome == r.outcome
    {
      if closed { return ErrClosed; }
      if cur.None? || (limitBytes > 0 && writeOnCur >= limitBytes) {
        var ok := RotateWrite(d);
        if !ok { return DialError; }
      }
      if limitBytes > 0 && Min(|p|, limitBytes - writeOnCur) < 0 { return Panic; }
      outcome := Transmit(p, sent, failed);
    }

    /** The network write of `Write`. */
    method Transmit(p: seq<Byte>, sent: nat, failed: bool) returns (outcome: Outcome)
      requires cur.Some? && cur.value < |relay.wires| && 0 <= Avail(SendView(), |p|)
      modifies this`cur, this`writeOnCur, this`writeTotal, this`rotCount, relay
      ensures Result(relay.wires, SendView(), outcome) ==
        RelaySender.Transmit(old(relay.wires), old(SendView()), p, sent, failed)
    {
      var avail := |p|;
      if limitBytes > 0 && limitBytes - writeOnCur < avail { avail := limitBytes - writeOnCur; }
      var n := if failed && sent < avail then sent else avail;
      relay.wires := AppendTo(relay.wires, cur.value, p[..n]);
      writeOnCur := writeOnCur + n;
      writeTotal := writeTotal + n;
      if failed {
        relay.wires := CloseWire(relay.wires, cur.value);
        cur := None;
        rotCount := rotCount + 1;
      }
      return Wrote(n, failed);
    }

    /** `Close`, told whether the close message can be sent. */
    method Close(told: bool)
      requires Linked(relay.wires, SendView())
      modifies this`cur, this`closed, relay
      ensures (relay.wires, SendView()) == RelaySender.Close(old(relay.wires), id, old(SendView()), told)
    {
      if closed { return; }
      closed := true;
      if cur.Some? {
        relay.wires := CloseWire(relay.wires, cur.value);
        cur := None;
      }
      if told && |id| >= 6 {
        relay.wires := relay.wires + [Wire(CloseId(id), PbMessage(CloseId(id)), true, 0)];
      }
    }

    /** `acceptNext`: with both cases ready the runtime may choose either. */
    method AcceptNext(signalFirst: bool) returns (r: Taken)
      requires cur.None?
      modifies this`cur, this`ch, this`signalled, this`got
      ensures r == FromQueue ==> old(ch) != [] && View() == TakeNext(old(View()))
      ensures r == CloseSignal ==> old(signalled) && View() == old(View()).(signalled := false)
      ensures r == WouldBlock ==> View() == old(View()) && ch == [] && !signalled
      ensures old(ch) != [] && (!old(signalled) || !signalFirst) ==> r == FromQueue
    {
      if ch != [] && (!signalled || !signalFirst) {
        cur, got, ch := Some(ch[0]), got + [ch[0]], ch[1..];
        return FromQueue;
      }
      if signalled {
        signalled := false;
        return CloseSignal;
      }
      return WouldBlock;
    }

    /** One read on the current connection, of at most `most` bytes. */
    method ReadCur(most: nat, ghost cursor: nat) returns (data: seq<Byte>)
      requires cur.Some? && SockOk(relay.wires, cursor, id, View())
      modifies this`readTotal, this`out, relay
      ensures SockOk(relay.wires, cursor, id, View()) && OnlyRead(old(relay.wires), relay.wires)
      ensures out == old(out) + data && readTotal == old(readTotal) + |data| && cur.value < |relay.wires|
      ensures var w := relay.wires[cur.value];
        && w.read == old(relay.wires)[cur.value].read + |data| <= |Payload(w)|
        && |data| == Min(most, |Payload(w)| - old(relay.wires)[cur.value].read)
    {
      ghost var k, ws := View(), relay.wires;
      CurReadable(ws, cursor, id, k);
      var w := relay.wires[cur.value];
      var n := Min(most, |Payload(w)| - w.read);
      data := Payload(w)[w.read..w.read + n];
      relay.wires := Advance(relay.wires, cur.value, n);
      readTotal := readTotal + n;
      out := out + data;
      AdvanceOnlyReads(ws, cur.value, n);
      assert View() == TakeBytes(k, w, n);
      ReadKeeps(ws, cursor, id, k, n);
    }

    /** `acceptNext` keeps the socket's invariant. */
    method Take(signalFirst: bool, ghost cursor: nat) returns (r: Taken)
      requires cur.None? && SockOk(relay.wires, cursor, id, View())
      modifies this`cur, this`ch, this`signalled, this`got
      ensures SockOk(relay.wires, cursor, id, View())
      ensures got + ch == old(got + ch) && old(got) <= got && (signalled ==> old(signalled))
      ensures r == FromQueue ==> cur.Some? && |ch| < |old(ch)|
      ensures r == CloseSignal ==> old(signalled) && !signalled && cur.None?
      ensures r == WouldBlock ==> cur.None? && ch == [] && !signalled
    {
      ghost var k := View();
      r := AcceptNext(signalFirst);
      match r
      case FromQueue => AcceptKeeps(relay.wires, cursor, id, k);
      case CloseSignal => EndKeeps(relay.wires, cursor, id, k);
      case WouldBlock =>
    }

    /** The end of the current connection. */
    method Finish(ghost cursor: nat)
      requires cur.Some? && SockOk(relay.wires, cursor, id, View())
      requires cur.value < |relay.wires| && Done(relay.wires[cur.value])
      modifies this`cur, this`rotCount
      ensures SockOk(relay.wires, cursor, id, View()) && cur.None?
    {
      EofKeeps(relay.wires, cursor, id, View());
      cur := None;
      rotCount := rotCount + 1;
    }

    /** A turn of the loop of `Read` with a current connection; `again` when it was at its end. */
    method ReadTurn(room: nat, chunk: nat, joined: bool, ghost cursor: nat)
      returns (data: seq<Byte>, o: ReadOutcome, again: bool)
      requires chunk > 0 && cur.Some? && SockOk(relay.wires, cursor, id, View())
      modifies this`cur, this`out, this`readTotal, this`rotCount, relay
      ensures SockOk(relay.wires, cursor, id, View()) && OnlyRead(old(relay.wires), relay.wires)
      ensures out == old(out) + data && readTotal == old(readTotal) + |data| && |data| <= room
      ensures again ==> cur.None? && data == []
      ensures !again ==> o == Data || (o == Blocked && data == [] && StillOpen())
      ensures !again && o == Data && room > 0 ==> data != []
      ensures |data| == Min(room, chunk) || Exhausted()
    {
      data := ReadCur(Min(room, chunk), cursor);
      o, again := Data, false;
      if Done(relay.wires[cur.value]) && (data == [] || joined) {
        Finish(cursor);
        again := data == [];
      } else if data == [] && room > 0 {
        o := Blocked;
      }
    }

    /** Since connections `ws` and socket `k`, exactly `data` was read, in the order of the queue. */
    ghost predicate Since(ws: seq<Wire>, k: Sock, total: nat, data: seq<Byte>, cursor: nat)
      reads this, relay
    {
      && SockOk(relay.wires, cursor, id, View()) && OnlyRead(ws, relay.wires)
      && out == k.out + data && readTotal == total + |data|
      && got + ch == k.got + k.ch && k.got <= got && (signalled ==> k.signalled)
    }

    /** When a read returns without data: closed, told to end, or nothing has arrived. */
    ghost predicate Ended(o: ReadOutcome, data: seq<Byte>, room: nat, chunk: nat, k: Sock)
      reads this, relay
    {
      && |data| <= room && (o == ReadOnClosed <==> closed)
      && (if o == Data then (room > 0 ==> data != []) && (|data| == Min(room, chunk) || Exhausted()) else data == [])
      && (o == EndOfStream ==> k.signalled && !signalled && cur.None?)
      && (o == Blocked ==> if cur.Some? then StillOpen() else ch == [] && !signalled)
    }

    ghost function Pending(): nat
      reads this
    {
      |ch| + if cur.Some? then 1 else 0
    }

    /** One turn of the loop of `Read`. */
    method Turn(room: nat, chunk: nat, joined: bool, signalFirst: bool,
                ghost cursor: nat, ghost ws: seq<Wire>, ghost k: Sock, ghost total: nat)
      returns (data: seq<Byte>, o: ReadOutcome, again: bool)
      requires chunk > 0 && !closed && Since(ws, k, total, [], cursor)
      modifies this`cur, this`ch, this`signalled, this`got, this`out, this`readTotal, this`rotCount, relay
      ensures Since(ws, k, total, data, cursor)
      ensures again ==> data == [] && Pending() < old(Pending())
      ensures !again ==> Ended(o, data, room, chunk, k)
    {
      if cur.None? {
        var r := TakeSince(signalFirst, cursor, ws, k, total);
        if r == CloseSignal { return [], EndOfStream, false; }
        if r == WouldBlock { return [], Blocked, false; }
      }
      data, o, again := ReadSince(room, chunk, joined, cursor, ws, k, total);
    }

    method TakeSince(signalFirst: bool, ghost cursor: nat, ghost ws: seq<Wire>, ghost k: Sock, ghost total: nat)
      returns (r: Taken)
      requires cur.None? && Since(ws, k, total, [], cursor)
      modifies this`cur, this`ch, this`signalled, this`got
      ensures Since(ws, k, total, [], cursor)
      ensures r == FromQueue ==> cur.Some? && Pending() <= old(Pending())
      ensures r == CloseSignal ==> k.signalled && !signalled && cur.None?
      ensures r == WouldBlock ==> cur.None? && ch == [] && !signalled
    {
      r := Take(signalFirst, cursor);
    }

    method ReadSince(room: nat, chunk: nat, joined: bool, ghost cursor: nat, ghost ws: seq<Wire>,
      ghost k: Sock, ghost total: nat)
      returns (data: seq<Byte>, o: ReadOutcome, again: bool)
      requires chunk > 0 && !closed && cur.Some? && Since(ws, k, total, [], cursor)
      modifies this`cur, this`out, this`readTotal, this`rotCount, relay
      ensures Since(ws, k, total, data, cursor)
      ensures |data| <= room && (again ==> data == [] && cur.None?)
      ensures !again ==> o == Data || (o == Blocked && data == [] && StillOpen())
      ensures !again && o == Data && room > 0 ==> data != []
      ensures |data| == Min(room, chunk) || Exhausted()
    {
      ghost var vs := relay.wires;
      assert out == k.out by { assert k.out + [] == k.out; }
      data, o, again := ReadTurn(room, chunk, joined, cursor);
      assert OnlyRead(ws, relay.wires) by { OnlyReadTwice(ws, vs, relay.wires); }
    }

    /**
     `Read`: skips over connections at their end until there is data. `chunk` bounds what one
     network read delivers, `joined` says whether EOF may come with the last bytes.
     */
    method Read(room: nat, chunk: nat, joined: bool, signalFirst: bool, ghost cursor: nat)
      returns (data: seq<Byte>, o: ReadOutcome)
      requires chunk > 0 && SockOk(relay.wires, cursor, id, View())
      modifies this`cur, this`ch, this`signalled, this`got, this`out, this`readTotal, this`rotCount, relay
      ensures Since(old(relay.wires), old(View()), old(readTotal), data, cursor)
      ensures Ended(o, data, room, chunk, old(View()))
    {
      ghost var ws, k, total := relay.wires, View(), readTotal;
      data, o := [], ReadOnClosed;
      if closed { return; }
      var again := true;
      while again
        invariant Since(ws, k, total, data, cursor)
        invariant if again then data == [] else Ended(o, data, room, chunk, k)
        decreases again, Pending()
      {
        data, o, again := Turn(room, chunk, joined, signalFirst, cursor, ws, k, total);
      }
    }

    /** The connection taken last is read up to what has arrived. */
    ghost predicate Exhausted()
      reads this, relay
    {
      && got != [] && got[|got| - 1] < |relay.wires|
      && relay.wires[got[|got| - 1]].read == |Payload(relay.wires[got[|got| - 1]])|
    }

    /** The current connection is read up to what has arrived, and its writer may still write. */
    ghost predicate StillOpen()
      reads this, relay
    {
      && cur.Some? && cur.value < |relay.wires|
      && !relay.wires[cur.value].closed && relay.wires[cur.value].read == |Payload(relay.wires[cur.value])|
    }

    /** `dispatchIncoming`. */
    method DispatchIncoming(conn: nat) returns (queued: bool)
      modifies this`ch
      ensures queued == (|old(ch)| < QUEUE)
      ensures ch == if queued then old(ch) + [conn] else old(ch)
    {
      queued := |ch| < QUEUE;
      if queued { ch := ch + [conn]; }
    }

    /** `signalClose`: the signal channel holds one signal. */
    method SignalClose()
      modifies this`signalled
      ensures signalled
    {
      signalled := true;
    }
  }

  /**
   The sending loop of budgeted-connect, when the network makes no error: it terminates, and the
   whole of `data` is spread in order over exactly ceil(N / (L - h)) connections.
   */
  method SendAll(sock: RelaySocket, data: seq<Byte>)
    requires ShortId(sock.id) && sock.limitBytes > |sock.id| + 1
    requires (sock.relay.wires, sock.SendView(), true) ==
      Open([], sock.id, Sender(sock.limitBytes, None, 0, 0, 0, false), Dials)
    modifies sock`cur, sock`writeOnCur, sock`writeTotal, sock`rotCount, sock.relay
    ensures sock.writeTotal == |data| && Stream(sock.relay.wires, sock.id) == data
    ensures forall j | 0 <= j < |sock.relay.wires| :: |sock.relay.wires[j].bytes| <= sock.limitBytes
    ensures var cap := sock.limitBytes - |sock.id| - 1;
      data != [] ==> |sock.relay.wires| == (|data| + cap - 1) / cap == sock.rotCount + 1
  {
    var sent := 0;
    ghost var m: nat, q: nat := 1, 0;
    assert Spread(sock, data[..0], 1, 0) by { FreshSpread(sock); }
    while sent < |data|
      invariant sent <= |data| && Spread(sock, data[..sent], m, q)
    {
      var n;
      n, m, q := SendChunk(sock, data[sent..Min(sent + 8192, |data|)], data[..sent], m, q);
      TakeMore(data, sent, Min(sent + 8192, |data|), n);
      sent := sent + n;
    }
    assert data[..sent] == data;
    FilledCounts(sock.relay.wires, sock.id, sock.SendView(), m, q);
  }

  lemma TakeMore(data: seq<Byte>, a: nat, b: nat, n: nat)
    requires a <= b <= |data| && n <= b - a
    ensures data[..a] + data[a..b][..n] == data[..a + n]
  {
  }

  lemma FreshSpread(sock: RelaySocket)
    requires ShortId(sock.id) && sock.limitBytes > |sock.id| + 1
    requires (sock.relay.wires, sock.SendView(), true) ==
      Open([], sock.id, Sender(sock.limitBytes, None, 0, 0, 0, false), Dials)
    ensures Spread(sock, [], 1, 0)
  {
    ShortHeader(sock.id);
    OpenGrows([], sock.id, Sender(sock.limitBytes, None, 0, 0, 0, false), Dials);
  }

  /** The bytes `sent` lie in order over `m` connections, all full but the last with `q` of them. */
  ghost predicate Spread(sock: RelaySocket, sent: seq<Byte>, m: nat, q: nat)
    reads sock, sock.relay
  {
    && sock.writeTotal == |sent| && Stream(sock.relay.wires, sock.id) == sent
    && Filled(sock.relay.wires, sock.id, sock.SendView(), m, q) && SenderOk(sock.relay.wires, sock.id, sock.SendView())
  }

  method SendChunk(sock: RelaySocket, chunk: seq<Byte>, ghost sent: seq<Byte>, ghost m: nat, ghost q: nat)
    returns (n: nat, ghost m': nat, ghost q': nat)
    requires ShortId(sock.id) && sock.limitBytes > |sock.id| + 1 && chunk != [] && Spread(sock, sent, m, q)
    modifies sock`cur, sock`writeOnCur, sock`writeTotal, sock`rotCount, sock.relay
    ensures 1 <= n <= |chunk| && Spread(sock, sent + chunk[..n], m', q')
  {
    ghost var ws, s := sock.relay.wires, sock.SendView();
    m', q' := FilledWrite(ws, sock.id, s, m, q, chunk);
    WriteGrows(ws, sock.id, s, chunk, Dials, 0, false);
    var o := sock.Write(chunk, Dials, 0, false);
    n := o.n;
  }

  lemma CurReadable(ws: seq<Wire>, cursor: nat, id: Id, k: Sock)
    requires SockOk(ws, cursor, id, k) && k.cur.Some?
    ensures k.cur.value < |ws| && ws[k.cur.value].read <= |Payload(ws[k.cur.value])|
  {
    assert k.got[|k.got| - 1] == k.cur.value;
  }

  lemma AdvanceOnlyReads(ws: seq<Wire>, i: nat, n: nat)
    requires i < |ws|
    ensures OnlyRead(ws, Advance(ws, i, n)) && Payload(Advance(ws, i, n)[i]) == Payload(ws[i])
  {
  }

  lemma OnlyReadTwice(us: seq<Wire>, vs: seq<Wire>, ws: seq<Wire>)
    requires OnlyRead(us, vs) && OnlyRead(vs, ws)
    ensures OnlyRead(us, ws)
  {
    forall j | 0 <= j < |us| ensures ReadFurther(us[j], ws[j]) {
      assert ReadFurther(us[j], vs[j]) && ReadFurther(vs[j], ws[j]);
    }
  }

  /** The accepting client: its socket table and the dispatcher's position. */
  class RelayClient {
    const relay: Relay
    const limit: int
    var connSockets: map<Id, RelaySocket>
    var cursor: nat
    var accepted: seq<RelaySocket>
    ghost var lost: set<Id>

    constructor (relay: Relay, limit: int)
      ensures this.relay == relay && this.limit == limit && Valid()
      ensures connSockets == map[] && cursor == 0 && accepted == [] && lost == {}
    {
      this.relay, this.limit := relay, limit;
      connSockets, cursor, accepted, lost := map[], 0, [], {};
    }

    ghost predicate Valid()
      reads this, connSockets.Values
    {
      forall x | x in connSockets :: connSockets[x].id == x
    }

    ghost function Socks(): map<Id, Sock>
      reads this, connSockets.Values
    {
      map x | x in connSockets :: connSockets[x].View()
    }

    /** The client's part of the state machine, with the connecting side as it is. */
    ghost function View(senders: map<Id, Sender>, log: map<Id, seq<Byte>>): Net
      reads this, relay, connSockets.Values
    {
      Net(relay.wires, senders, log, cursor, Socks(), lost)
    }

    /** `connSockets[id]` or a new socket, which is also handed to `Accept`. */
    method FindOrCreate(id: Id) returns (sock: RelaySocket)
      requires Valid()
      modifies this`connSockets, this`accepted
      ensures Valid() && id in connSockets && connSockets[id] == sock
      ensures id in old(connSockets) ==> connSockets == old(connSockets) && accepted == old(accepted)
      ensures id !in old(connSockets) ==>
        && fresh(sock) && sock.View() == NEW_SOCK
        && connSockets == old(connSockets)[id := sock] && accepted == old(accepted) + [sock]
    {
      if id in connSockets { return connSockets[id]; }
      sock := new RelaySocket(id, relay, limit);
      connSockets := connSockets[id := sock];
      accepted := accepted + [sock];
    }

    /** Hands a connection to its socket. */
    method Deliver(id: Id, conn: nat)
      requires Valid()
      modifies this`connSockets, this`accepted, this`lost, connSockets.Values
      ensures Valid()
      ensures var k := if id in old(Socks()) then old(Socks())[id] else NEW_SOCK;
        && Socks() == old(Socks())[id := if |k.ch| < QUEUE then k.(ch := k.ch + [conn]) else k]
        && lost == (if |k.ch| < QUEUE then old(lost) else old(lost) + {id})
    {
      ghost var before := Socks();
      var sock := FindOrCreate(id);
      assert sock.View() == if id in before then before[id] else NEW_SOCK;
      var queued := sock.DispatchIncoming(conn);
      if !queued { lost := lost + {id}; }
      assert Socks() == before[id := sock.View()];
    }

    method Signal(id: Id)
      requires Valid()
      modifies connSockets.Values
      ensures Valid()
      ensures Socks() ==
        if id in old(Socks()) then old(Socks())[id := old(Socks())[id].(signalled := true)] else old(Socks())
    {
      ghost var before := Socks();
      if id in connSockets {
        connSockets[id].SignalClose();
        assert Socks() == before[id := before[id].(signalled := true)];
      }
    }

    method RouteConnection(data: seq<Byte>, conn: nat, ghost senders: map<Id, Sender>, ghost log: map<Id, seq<Byte>>)
      requires Valid()
      modifies this`connSockets, this`accepted, this`lost, connSockets.Values
      ensures Valid() && View(senders, log) == RouteConn(old(View(senders, log)), data, conn)
    {
      match RouteOf(data)
      case CloseOf(id) => Signal(id);
      case To(id) => Deliver(id, conn);
    }

    /** One turn of `dispatchLoop`, on the next connection of the session. */
    method DispatchTurn(ghost senders: map<Id, Sender>, ghost log: map<Id, seq<Byte>>)
      requires Valid() && cursor < |relay.wires|
      modifies this, connSockets.Values
      ensures Valid() && View(senders, log) == Dispatch(old(View(senders, log)))
    {
      ghost var before := View(senders, log);
      var i := cursor;
      cursor := cursor + 1;
      assert View(senders, log) == before.(cursor := i + 1);
      var message := ReadOnePb(relay.wires[i].bytes);
      if message.Some? { RouteConnection(message.value.0, i, senders, log); }
    }
  }
}

/**
 The Tox TCP relay switchboard (mintox/tcp_server.go) as a state machine over values.

 A hub holds every connection the server ever accepted and the registry `Conns` from public
 key to connection. Each handler of the source is one function here; goroutines become steps
 that a scheduler interleaves. A result `None` stands for a Go panic, which ends the process.
 */
module Switchboard {
  import opened Bytes

  const NUM_RESERVED_PORTS := 16
  const NUM_CLIENT_CONNECTIONS := 240
  const CTRL_QUEUE_CAP := 64
  const DATA_QUEUE_CAP := 128
  const MAX_PAYLOAD := 2048

  const ROUTING_REQUEST: Byte := 0
  const ROUTING_RESPONSE: Byte := 1
  const CONNECTION_NOTIFICATION: Byte := 2
  const DISCONNECT_NOTIFICATION: Byte := 3
  const PING: Byte := 4
  const PONG: Byte := 5

  /** One `PeerConnInfo`: status 1 is "asked for", status 2 is "linked". */
  datatype Entry = Entry(connid: Byte, status: Byte, otherid: Byte)

  /** `NoStatus` has no key yet; `Closed` is a connection after `doClose`. */
  datatype Phase = NoStatus | Unconfirmed | Confirmed | Closed

  /** `table` is `ConnInfos`, `byId` is `ConnInfos2`, `used` the ids `ConnIds` maps to true. */
  datatype Conn = Conn(phase: Phase, key: Key, table: map<Key, Entry>, byId: map<Byte, Key>,
                       used: set<Byte>, ctrl: seq<seq<Byte>>, data: seq<seq<Byte>>)

  datatype Hub = Hub(conns: map<nat, Conn>, registry: map<Key, nat>)

  /** What the handlers need in order to follow their references. */
  ghost predicate Wf(h: Hub) {
    && (forall k <- h.registry :: h.registry[k] in h.conns)
    && (forall n <- h.conns :: forall i <- h.conns[n].byId :: h.conns[n].byId[i] in h.conns[n].table)
  }

  // ---------------------------------------------------------------- small updates

  function SetConn(h: Hub, n: nat, c: Conn): Hub {
    h.(conns := h.conns[n := c])
  }

  /** `SendCtrlPacket`: refused when too long, dropped when the queue is full. */
  function PushCtrl(h: Hub, n: nat, pkt: seq<Byte>): Hub
    requires n in h.conns
  {
    if |pkt| > MAX_PAYLOAD || |h.conns[n].ctrl| >= CTRL_QUEUE_CAP then h
    else SetConn(h, n, h.conns[n].(ctrl := h.conns[n].ctrl + [pkt]))
  }

  /** `SendDataPacket`: the payload is prefixed with the receiver's own id for the sender. */
  function PushData(h: Hub, n: nat, connid: Byte, payload: seq<Byte>): Hub
    requires n in h.conns
  {
    if |payload| > MAX_PAYLOAD || |h.conns[n].data| >= DATA_QUEUE_CAP then h
    else SetConn(h, n, h.conns[n].(data := h.conns[n].data + [[connid] + payload]))
  }

  function Relink(c: Conn, k: Key, status: Byte, otherid: Byte): Conn
    requires k in c.table
  {
    c.(table := c.table[k := Entry(c.table[k].connid, status, otherid)])
  }

  function SetLink(h: Hub, n: nat, k: Key, status: Byte, otherid: Byte): Hub
    requires n in h.conns && k in h.conns[n].table
  {
    SetConn(h, n, Relink(h.conns[n], k, status, otherid))
  }

  function FreeIds(c: Conn): set<Byte> {
    set i: Byte | 0 <= i < NUM_CLIENT_CONNECTIONS && i !in c.used
  }

  /** Go ranges over `ConnIds` in any order, so any free id may be the one taken. */
  ghost predicate PickOk(c: Conn, pick: Byte) {
    FreeIds(c) == {} || pick in FreeIds(c)
  }

  ghost function AnyPick(c: Conn): (pick: Byte)
    ensures PickOk(c, pick)
  {
    if FreeIds(c) == {} then 0 else var pick :| pick in FreeIds(c); pick
  }

  function WithEntry(c: Conn, peer: Key, pick: Byte): Conn
    requires pick < NUM_CLIENT_CONNECTIONS
  {
    var id := pick + NUM_RESERVED_PORTS;
    c.(table := c.table[peer := Entry(id, 1, 0)], byId := c.byId[id := peer], used := c.used + {pick})
  }

  function AddEntry(h: Hub, n: nat, peer: Key, pick: Byte): Hub
    requires n in h.conns && pick < NUM_CLIENT_CONNECTIONS
  {
    SetConn(h, n, WithEntry(h.conns[n], peer, pick))
  }

  // ---------------------------------------------------------------- handlers

  function RoutingResponse(connid: Byte, peer: Key): seq<Byte> {
    [ROUTING_RESPONSE, connid] + peer
  }

  /** Entries of `n` and `m` for each other become linked, and both sides are told. */
  function LinkUp(h: Hub, n: nat, peer: Key, m: nat): Hub
    requires n in h.conns && m in h.conns && peer in h.conns[n].table && h.conns[n].key in h.conns[m].table
  {
    var key := h.conns[n].key;
    var id, id2 := h.conns[n].table[peer].connid, h.conns[m].table[key].connid;
    var linked := SetLink(SetLink(h, n, peer, 2, id2), m, key, 2, id);
    PushCtrl(PushCtrl(linked, n, [CONNECTION_NOTIFICATION, id]), m, [CONNECTION_NOTIFICATION, id2])
  }

  /** The tail of `handleRoutingRequest`: link the two sides if the peer already asked for us. */
  function TryLink(h: Hub, n: nat, peer: Key): Hub
    requires Wf(h) && n in h.conns && peer in h.conns[n].table
  {
    if peer in h.registry && h.conns[n].key in h.conns[h.registry[peer]].table then LinkUp(h, n, peer, h.registry[peer])
    else h
  }

  /** `handleRoutingRequest`. */
  function RequestRoute(h: Hub, n: nat, peer: Key, pick: Byte): Hub
    requires Wf(h) && n in h.conns && PickOk(h.conns[n], pick)
  {
    var c := h.conns[n];
    if peer == c.key then PushCtrl(h, n, RoutingResponse(0, peer))
    else if peer in c.table && c.table[peer].status > 0 then
      PushCtrl(h, n, RoutingResponse(c.table[peer].connid, peer))
    else if FreeIds(c) == {} then PushCtrl(h, n, RoutingResponse(0, peer))
    else NewRoute(h, n, peer, pick)
  }

  /** The rest of `handleRoutingRequest` once id `pick` has been taken. */
  function NewRoute(h: Hub, n: nat, peer: Key, pick: Byte): Hub
    requires Wf(h) && n in h.conns && pick < NUM_CLIENT_CONNECTIONS
  {
    TryLink(Entered(h, n, peer, pick), n, peer)
  }

  /** The hub once the new peer has its id and the reply is queued. */
  function Entered(h: Hub, n: nat, peer: Key, pick: Byte): (g: Hub)
    requires n in h.conns && pick < NUM_CLIENT_CONNECTIONS
    ensures Wf(h) ==> Wf(g)
    ensures n in g.conns && peer in g.conns[n].table
  {
    PushCtrl(AddEntry(h, n, peer, pick), n, RoutingResponse(pick + NUM_RESERVED_PORTS, peer))
  }

  /** `HandleDisconnectNotification`: the assertion on an unknown id is a panic. */
  function Disconnect(h: Hub, n: nat, connid: Byte): Option<Hub>
    requires Wf(h) && n in h.conns
  {
    var c := h.conns[n];
    if connid !in c.byId then None
    else
      var k := c.byId[connid];
      if k !in h.registry then Some(h)
      else
        var m := h.registry[k];
        var other := c.table[k].otherid;
        if other !in h.conns[m].byId then Some(h)
        else
          Some(TakeDown(h, n, k, m, h.conns[m].byId[other]))
  }

  /** Both entries fall back to "asked for", and the other side is told. */
  function TakeDown(h: Hub, n: nat, k: Key, m: nat, k2: Key): Hub
    requires n in h.conns && m in h.conns && k in h.conns[n].table && k2 in h.conns[m].table
  {
    PushCtrl(SetLink(SetLink(h, m, k2, 1, 0), n, k, 1, 0), m, [DISCONNECT_NOTIFICATION, h.conns[m].table[k2].connid])
  }

  /** Where `HandleRoutingData` sends a packet that arrives on `connid`, and under which tag. */
  function RouteOf(h: Hub, n: nat, connid: Byte): Option<(nat, Byte)>
    requires Wf(h) && n in h.conns
  {
    var c := h.conns[n];
    if connid !in c.byId then None
    else
      var k := c.byId[connid];
      if k !in h.registry then None
      else
        var m := h.registry[k];
        if c.key !in h.conns[m].table then None else Some((m, h.conns[m].table[c.key].connid))
  }

  /** `HandleRoutingData`. */
  function RouteData(h: Hub, n: nat, plain: seq<Byte>): Hub
    requires Wf(h) && n in h.conns && plain != []
  {
    match RouteOf(h, n, plain[0])
    case None => h
    case Some((m, tag)) => PushData(h, m, tag, plain[1..])
  }

  /** The packet switch of `doReadPacket` for a confirmed connection. */
  function Dispatch(h: Hub, n: nat, plain: seq<Byte>, pick: Byte): Option<Hub>
    requires Wf(h) && n in h.conns && PickOk(h.conns[n], pick)
  {
    if plain == [] then None
    else if plain[0] == PING then Some(PushCtrl(h, n, [PONG] + plain[1..]))
    else if plain[0] == ROUTING_REQUEST then
      if |plain| < 33 then None else Some(RequestRoute(h, n, plain[1..33], pick))
    else if plain[0] == DISCONNECT_NOTIFICATION then
      if |plain| < 2 then None else Disconnect(h, n, plain[1])
    else if plain[0] >= NUM_RESERVED_PORTS then Some(RouteData(h, n, plain))
    else Some(h)
  }

  /** First packet after the handshake, then `onConnConfirmed`. */
  function Confirm(h: Hub, n: nat, plain: seq<Byte>): Option<Hub>
    requires Wf(h) && n in h.conns
  {
    if plain == [] then None else Some(TakeOver(Raise(h, n, plain), n))
  }

  /** The pong and the new status. */
  function Raise(h: Hub, n: nat, plain: seq<Byte>): (g: Hub)
    requires n in h.conns && plain != []
    ensures g.registry == h.registry && g.conns.Keys == h.conns.Keys
  {
    var ponged := PushCtrl(h, n, [PONG] + plain[1..]);
    SetConn(ponged, n, ponged.conns[n].(phase := Confirmed))
  }

  /** `onConnConfirmed`: a holder of the same key is closed without further ado. */
  function TakeOver(h: Hub, n: nat): Hub
    requires n in h.conns && forall k <- h.registry :: h.registry[k] in h.conns
  {
    var key := h.conns[n].key;
    var cleared :=
      if key in h.registry then SetConn(h, h.registry[key], h.conns[h.registry[key]].(phase := Closed)) else h;
    cleared.(registry := cleared.registry[key := n])
  }

  /** The entry for `k` falls back to "asked for", if there is one. */
  function Forgotten(c: Conn, k: Key): Conn {
    if k in c.table then Relink(c, k, 1, 0) else c
  }

  function Told(c: Conn, k: Key): Conn {
    if k in c.table && |c.ctrl| < CTRL_QUEUE_CAP then
      c.(ctrl := c.ctrl + [[DISCONNECT_NOTIFICATION, c.table[k].connid]])
    else c
  }

  /** The first loop of `killAccepted`, over the connections in `done`. */
  function ForgetIn(h: Hub, k: Key, done: set<nat>): Hub {
    h.(conns := map n | n in h.conns :: if n in done then Forgotten(h.conns[n], k) else h.conns[n])
  }

  /** The second loop of `killAccepted`. */
  function TellIn(h: Hub, k: Key, done: set<nat>): Hub {
    h.(conns := map n | n in h.conns :: if n in done then Told(h.conns[n], k) else h.conns[n])
  }

  /** `killAccepted`: every registered connection forgets its link to the vanished key. */
  function KillAccepted(h: Hub, k: Key): Hub {
    TellIn(ForgetIn(h, k, h.registry.Values), k, h.registry.Values)
  }

  /** `doClose` with `onConnClosed`; without a key the callback panics and is recovered. */
  function Close(h: Hub, n: nat): Hub
    requires n in h.conns
  {
    var c := h.conns[n];
    var down := SetConn(h, n, c.(phase := Closed));
    if c.phase == NoStatus || c.phase == Closed then down
    else KillAccepted(down.(registry := down.registry - {c.key}), c.key)
  }

  // ---------------------------------------------------------------- runs

  datatype Step =
    | Accept(n: nat)
    | Handshake(n: nat, key: Key)
    | First(n: nat, plain: seq<Byte>)
    | Packet(n: nat, plain: seq<Byte>, pick: Byte)
    | FlushCtrl(n: nat)
    | FlushData(n: nat)
    | Hangup(n: nat)

  const EMPTY_HUB := Hub(map[], map[])

  function NewConn(): Conn {
    Conn(NoStatus, seq(32, _ => 0), map[], map[], {}, [], [])
  }

  ghost predicate Enabled(h: Hub, s: Step) {
    match s
    case Accept(n) => n !in h.conns
    case Handshake(n, _) => n in h.conns && h.conns[n].phase == NoStatus
    case First(n, _) => n in h.conns && h.conns[n].phase == Unconfirmed
    case Packet(n, _, pick) => n in h.conns && h.conns[n].phase == Confirmed && PickOk(h.conns[n], pick)
    case FlushCtrl(n) => n in h.conns && h.conns[n].ctrl != []
    case FlushData(n) => n in h.conns && h.conns[n].data != []
    case Hangup(n) => n in h.conns && h.conns[n].phase != Closed
  }

  function Apply(h: Hub, s: Step): Option<Hub>
    requires Wf(h) && Enabled(h, s)
  {
    match s
    case Accept(n) => Some(SetConn(h, n, NewConn()))
    case Handshake(n, key) => Some(SetConn(h, n, h.conns[n].(phase := Unconfirmed, key := key)))
    case First(n, plain) => Confirm(h, n, plain)
    case Packet(n, plain, pick) => Dispatch(h, n, plain, pick)
    case FlushCtrl(n) => Some(SetConn(h, n, h.conns[n].(ctrl := h.conns[n].ctrl[1..])))
    case FlushData(n) => Some(SetConn(h, n, h.conns[n].(data := h.conns[n].data[1..])))
    case Hangup(n) => Some(Close(h, n))
  }
}

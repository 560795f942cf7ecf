/**
 What every step of every run does, told by the state before and after it instead of by the
 handlers: who is open and registered, which entries change, what is put into which queue, and
 when the server panics. Packet types and bounds are written as numbers.
 */
module SwitchboardLaws {
  import opened Bytes
  import opened Switchboard
  import opened SwitchboardShapes
  import opened SwitchboardInvariants
  import opened SwitchboardRuns
  import opened SwitchboardRouting
  import opened SwitchboardSymmetry

  // ---------------------------------------------------------------- packets and queues

  /** Packets offered one after the other to a queue of 64; those over 2048 bytes are refused. */
  function Offer(q: seq<seq<Byte>>, ps: seq<seq<Byte>>): seq<seq<Byte>>
    decreases |ps|
  {
    if ps == [] then q else Offer(if |q| < 64 && |ps[0]| <= 2048 then q + [ps[0]] else q, ps[1..])
  }

  lemma OfferOne(q: seq<seq<Byte>>, p: seq<Byte>)
    ensures Offer(q, [p]) == if |q| < 64 && |p| <= 2048 then q + [p] else q
  {
    assert [p][1..] == [];
  }

  lemma OfferTwo(q: seq<seq<Byte>>, p: seq<Byte>, r: seq<Byte>)
    ensures Offer(q, [p] + [r]) == Offer(Offer(q, [p]), [r])
  {
    assert ([p] + [r])[1..] == [r] && [p][1..] == [];
  }

  /** The peer is new to `n`, which has fewer than 240. */
  ghost predicate NewPeer(h: Hub, n: nat, peer: Key) {
    n in h.conns && peer != h.conns[n].key && peer !in h.conns[n].table && |h.conns[n].table| < 240
  }

  /** `n` drops the peer it has under `a`: `m` is registered for it and has the other end's id. */
  ghost predicate Cuts(h: Hub, n: nat, a: Byte, m: nat) {
    && n in h.conns && a in h.conns[n].byId && h.conns[n].byId[a] in h.conns[n].table
    && var k := h.conns[n].byId[a];
    && k in h.registry && h.registry[k] == m && m in h.conns && h.conns[n].table[k].otherid in h.conns[m].byId
  }

  /** `n` asks to drop what it has under `a`. */
  ghost predicate Drops(s: Step, n: nat, a: Byte) {
    s.Packet? && s.n == n && |s.plain| >= 2 && s.plain[0] == 3 && s.plain[1] == a
  }

  /** `x` is registered and knows the key of the closing connection `n`. */
  ghost predicate Bereaved(h: Hub, n: nat, x: nat) {
    && n in h.conns && h.conns[n].phase != NoStatus && Registered(h, x) && h.conns[n].key in h.conns[x].table
  }

  // ---------------------------------------------------------------- entries

  /** The table of `x` after the step. */
  ghost predicate TableLaw(h: Hub, s: Step, g: Hub, x: nat)
    requires x in h.conns && x in g.conns
  {
    var t, u := h.conns[x].table, g.conns[x].table;
    match s
    case Packet(n, plain, _) =>
      n in h.conns && n in g.conns &&
      if |plain| >= 33 && plain[0] == 0 && NewPeer(h, n, plain[1..33]) then Entering(h, g, n, plain[1..33], x)
      else if |plain| >= 2 && plain[0] == 3 then Cutting(h, g, n, plain[1], x)
      else u == t
    case Hangup(n) =>
      u == if Bereaved(h, n, x) then t[h.conns[n].key := Entry(t[h.conns[n].key].connid, 1, 0)] else t
    case _ => u == t
  }

  /** A new entry gets an unused id; it is linked at once, both ways, exactly when the peer has asked for `n`. */
  ghost predicate Entering(h: Hub, g: Hub, n: nat, peer: Key, x: nat)
    requires n in h.conns && n in g.conns && x in h.conns && x in g.conns
  {
    && peer in g.conns[n].table
    && var key, a := h.conns[n].key, g.conns[n].table[peer].connid;
    && 16 <= a && (forall k <- h.conns[n].table :: h.conns[n].table[k].connid != a)
    && var t, u := h.conns[x].table, g.conns[x].table;
    if HasAsked(h, n, peer) then
      var m := h.registry[peer];
      var b := h.conns[m].table[key].connid;
      u == if x == n then t[peer := Entry(a, 2, b)] else if x == m then t[key := Entry(b, 2, a)] else t
    else u == if x == n then t[peer := Entry(a, 1, 0)] else t
  }

  /** Both ends of the link fall back to "asked for". */
  ghost predicate Cutting(h: Hub, g: Hub, n: nat, a: Byte, x: nat)
    requires n in h.conns && x in h.conns && x in g.conns
  {
    var t, u := h.conns[x].table, g.conns[x].table;
    if exists m :: Cuts(h, n, a, m) then
      var k := h.conns[n].byId[a];
      var m, b := h.registry[k], h.conns[n].table[k].otherid;
      u == if x == n then t[k := Entry(a, 1, 0)] else if x == m then t[h.conns[m].byId[b] := Entry(b, 1, 0)] else t
    else u == t
  }

  // ---------------------------------------------------------------- what each connection is sent

  function OwnId(c: Conn, k: Key): Byte {
    if k in c.table then c.table[k].connid else 0
  }

  /** The control packets the step has for `x`; ids are those of `x` itself after the step. */
  ghost function Due(h: Hub, s: Step, g: Hub, x: nat): seq<seq<Byte>>
    requires x in h.conns && x in g.conns && (s.Packet? ==> s.n in h.conns)
  {
    match s
    case First(n, plain) => if x == n && plain != [] then [[5] + plain[1..]] else []
    case Packet(n, plain, _) =>
      if plain == [] then []
      else if plain[0] == 4 then if x == n then [[5] + plain[1..]] else []
      else if plain[0] == 0 && |plain| >= 33 then Replies(h, g, n, plain[1..33], x)
      else if plain[0] == 3 && |plain| >= 2 && Cuts(h, n, plain[1], x) then
        [[3, h.conns[n].table[h.conns[n].byId[plain[1]]].otherid]]
      else []
    case Hangup(n) => if Bereaved(h, n, x) then [[3, OwnId(g.conns[x], h.conns[n].key)]] else []
    case _ => []
  }

  /** The answer to `n`, 0 for a refusal, and the news of the link to both ends. */
  ghost function Replies(h: Hub, g: Hub, n: nat, peer: Key, x: nat): seq<seq<Byte>>
    requires n in h.conns && x in h.conns && x in g.conns
  {
    var linked := NewPeer(h, n, peer) && HasAsked(h, n, peer);
    if x == n then
      [[1, OwnId(g.conns[n], peer)] + peer] + if linked then [[2, OwnId(g.conns[n], peer)]] else []
    else if linked && x == h.registry[peer] then [[2, OwnId(g.conns[x], h.conns[n].key)]]
    else []
  }

  ghost predicate CtrlLaw(h: Hub, s: Step, g: Hub, x: nat)
    requires x in h.conns && x in g.conns && (s.Packet? ==> s.n in h.conns)
  {
    if s == FlushCtrl(x) then h.conns[x].ctrl != [] && g.conns[x].ctrl == h.conns[x].ctrl[1..]
    else g.conns[x].ctrl == Offer(h.conns[x].ctrl, Due(h, s, g, x))
  }

  /** `n` has id `a` for the key of `m`, `m` is registered and has id `b` for the key of `n`. */
  ghost predicate Addressed(h: Hub, n: nat, a: Byte, m: nat, b: Byte) {
    && n in h.conns && Registered(h, m)
    && h.conns[m].key in h.conns[n].table && h.conns[n].table[h.conns[m].key].connid == a
    && h.conns[n].key in h.conns[m].table && h.conns[m].table[h.conns[n].key].connid == b
  }

  /** Data of `n` on `a` is appended, under `b`, exactly where it is addressed to, if there is room. */
  ghost predicate DataLaw(h: Hub, s: Step, g: Hub, x: nat)
    requires x in h.conns && x in g.conns
  {
    var q, r := h.conns[x].data, g.conns[x].data;
    match s
    case FlushData(n) => if x == n then q != [] && r == q[1..] else r == q
    case Packet(n, plain, _) =>
      if plain != [] && plain[0] >= 16 && exists b :: Addressed(h, n, plain[0], x, b) then
        var b := OwnId(h.conns[x], h.conns[n].key);
        r == if |plain| <= 2049 && |q| < 128 then q + [[b] + plain[1..]] else q
      else r == q
    case _ => r == q
  }

  // ---------------------------------------------------------------- phases, keys and the registry

  ghost predicate RoleLaw(h: Hub, s: Step, g: Hub, x: nat)
    requires x in h.conns && x in g.conns && (s.First? ==> s.n in h.conns)
  {
    var c, d := h.conns[x], g.conns[x];
    match s
    case Handshake(n, key) => if x == n then d.phase == Unconfirmed && d.key == key else SameRole(c, d)
    case First(n, _) =>
      && d.key == c.key
      && d.phase == if x == n then Confirmed else if Holds(h, h.conns[n].key, x) then Closed else c.phase
    case Hangup(n) => d.key == c.key && d.phase == if x == n then Closed else c.phase
    case _ => SameRole(c, d)
  }

  ghost predicate SameRole(c: Conn, d: Conn) {
    d.phase == c.phase && d.key == c.key
  }

  ghost predicate Holds(h: Hub, key: Key, x: nat) {
    key in h.registry && h.registry[key] == x
  }

  ghost predicate RegistryLaw(h: Hub, s: Step, g: Hub) {
    match s
    case Accept(n) =>
      && n !in h.conns && g.conns.Keys == h.conns.Keys + {n} && g.registry == h.registry
      && g.conns[n] == Conn(NoStatus, g.conns[n].key, map[], map[], {}, [], [])
    case First(n, _) =>
      n in h.conns && g.conns.Keys == h.conns.Keys && g.registry == h.registry[h.conns[n].key := n]
    case Hangup(n) =>
      && n in h.conns && g.conns.Keys == h.conns.Keys
      && g.registry == if h.conns[n].phase == NoStatus then h.registry else h.registry - {h.conns[n].key}
    case _ => g.conns.Keys == h.conns.Keys && g.registry == h.registry
  }

  /** The packets on which the server panics: empty, too short for their type, or an unknown id dropped. */
  ghost predicate Panics(h: Hub, s: Step) {
    match s
    case First(_, plain) => plain == []
    case Packet(n, plain, _) =>
      || plain == []
      || (plain[0] == 0 && |plain| < 33)
      || (plain[0] == 3 && (|plain| < 2 || (n in h.conns && Unknown(h.conns[n], plain[1]))))
    case _ => false
  }

  ghost predicate Unknown(c: Conn, a: Byte) {
    forall k <- c.table :: c.table[k].connid != a
  }

  // ---------------------------------------------------------------- the queues after each small update

  lemma PushQueues(h: Hub, n: nat, pkt: seq<Byte>, x: nat)
    requires n in h.conns && x in h.conns
    ensures PushCtrl(h, n, pkt).conns[x].ctrl == if x == n then Offer(h.conns[x].ctrl, [pkt]) else h.conns[x].ctrl
    ensures PushCtrl(h, n, pkt).conns[x].data == h.conns[x].data
  {
    OfferOne(h.conns[x].ctrl, pkt);
  }

  lemma SetLinkQueues(h: Hub, n: nat, k: Key, status: Byte, otherid: Byte, x: nat)
    requires n in h.conns && k in h.conns[n].table && x in h.conns
    ensures SetLink(h, n, k, status, otherid).conns[x].ctrl == h.conns[x].ctrl
    ensures SetLink(h, n, k, status, otherid).conns[x].data == h.conns[x].data
  {
  }

  lemma LinkUpQueues(h: Hub, n: nat, peer: Key, m: nat, x: nat)
    requires n in h.conns && m in h.conns && n != m && peer in h.conns[n].table && h.conns[n].key in h.conns[m].table
    requires x in h.conns
    ensures var g, id, id2 := LinkUp(h, n, peer, m), h.conns[n].table[peer].connid,
                              h.conns[m].table[h.conns[n].key].connid;
      && x in g.conns && g.conns[x].data == h.conns[x].data
      && g.conns[x].ctrl ==
         if x == n then Offer(h.conns[x].ctrl, [[2, id]])
         else if x == m then Offer(h.conns[x].ctrl, [[2, id2]]) else h.conns[x].ctrl
  {
    var key, id, id2 := h.conns[n].key, h.conns[n].table[peer].connid, h.conns[m].table[h.conns[n].key].connid;
    var h1 := SetLink(h, n, peer, 2, id2);
    var h2 := SetLink(h1, m, key, 2, id);
    SetLinkQueues(h, n, peer, 2, id2, x);
    SetLinkQueues(h1, m, key, 2, id, x);
    PushQueues(h2, n, [2, id], x);
    PushQueues(PushCtrl(h2, n, [2, id]), m, [2, id2], x);
  }

  lemma EnteredQueues(h: Hub, n: nat, peer: Key, pick: Byte, x: nat)
    requires n in h.conns && pick < 240 && x in h.conns
    ensures var g := Entered(h, n, peer, pick);
      && x in g.conns && g.conns[x].data == h.conns[x].data
      && g.conns[x].ctrl == if x == n then Offer(h.conns[x].ctrl, [[1, pick + 16] + peer]) else h.conns[x].ctrl
  {
    PushQueues(AddEntry(h, n, peer, pick), n, RoutingResponse(pick + 16, peer), x);
  }

  lemma NewRouteQueues(h: Hub, n: nat, peer: Key, pick: Byte, x: nat)
    requires Wf(h) && n in h.conns && pick < 240 && h.conns[n].key !in h.conns[n].table && x in h.conns
    requires peer != h.conns[n].key && peer !in h.conns[n].table
    ensures var g, q, id := NewRoute(h, n, peer, pick), h.conns[x].ctrl, pick + 16;
      && x in g.conns && g.conns[x].data == h.conns[x].data
      && g.conns[x].ctrl ==
         if x == n then Offer(q, [[1, id] + peer] + if HasAsked(h, n, peer) then [[2, id]] else [])
         else if HasAsked(h, n, peer) && x == h.registry[peer]
         then Offer(q, [[2, h.conns[x].table[h.conns[n].key].connid]]) else q
  {
    var h1 := Entered(h, n, peer, pick);
    EnteredQueues(h, n, peer, pick, x);
    EnteredTables(h, n, peer, pick);
    if HasAsked(h, n, peer) {
      LinkUpQueues(h1, n, peer, h.registry[peer], x);
      OfferTwo(h.conns[x].ctrl, [1, pick + 16] + peer, [2, pick + 16]);
    } else {
      NotLinked(h, h1, n, peer, Entry(pick + 16, 1, 0));
      assert [[1, pick + 16] + peer] + [] == [[1, pick + 16] + peer];
    }
  }

  lemma NotLinked(h: Hub, h1: Hub, n: nat, peer: Key, e: Entry)
    requires Wf(h) && Wf(h1) && n in h.conns && peer != h.conns[n].key && h.conns[n].key !in h.conns[n].table
    requires var t := h.conns[n].table[peer := e]; TablesAs(h, h1, n, t, n, t)
    requires !HasAsked(h, n, peer)
    ensures TryLink(h1, n, peer) == h1
  {
  }

  // ---------------------------------------------------------------- requests

  /** A request for a known peer, for oneself, or beyond 240 peers is only answered. */
  lemma OldRequestQueues(h: Hub, n: nat, peer: Key, pick: Byte, x: nat)
    requires TablesOk(h) && n in h.conns && PickOk(h.conns[n], pick) && x in h.conns && !NewPeer(h, n, peer)
    ensures var g := RequestRoute(h, n, peer, pick);
      && x in g.conns && g.conns[x].data == h.conns[x].data && g.conns[x].table == h.conns[x].table
      && g.conns[x].ctrl ==
         if x == n then Offer(h.conns[x].ctrl, [[1, OwnId(h.conns[n], peer)] + peer]) else h.conns[x].ctrl
  {
    assert TableOk(h.conns[n]);
    AtMost240Peers(h.conns[n]);
    PushQueues(h, n, RoutingResponse(OwnId(h.conns[n], peer), peer), x);
  }

  lemma NewRequest(h: Hub, n: nat, peer: Key, pick: Byte)
    requires TablesOk(h) && n in h.conns && PickOk(h.conns[n], pick) && NewPeer(h, n, peer)
    ensures pick < 240 && pick !in h.conns[n].used && RequestRoute(h, n, peer, pick) == NewRoute(h, n, peer, pick)
  {
    assert TableOk(h.conns[n]);
    AtMost240Peers(h.conns[n]);
  }

  lemma NewRequestEnters(h: Hub, g: Hub, n: nat, peer: Key, pick: Byte, x: nat)
    requires n in h.conns && TableOk(h.conns[n]) && NewPeer(h, n, peer) && pick < 240 && pick !in h.conns[n].used
    requires NewRouteShape(h, g, n, peer, pick + 16) && x in h.conns
    requires HasAsked(h, n, peer) ==> h.registry[peer] != n
    ensures x in g.conns && Entering(h, g, n, peer, x)
    ensures OwnId(g.conns[n], peer) == pick + 16
    ensures HasAsked(h, n, peer) && x == h.registry[peer] ==>
      OwnId(g.conns[x], h.conns[n].key) == h.conns[x].table[h.conns[n].key].connid
  {
    var c := h.conns[n];
    assert forall k <- c.table :: c.table[k].connid != pick + 16;
  }

  lemma RequestLaws(h: Hub, n: nat, peer: Key, pick: Byte, x: nat)
    requires TablesOk(h) && Listed(h) && n in h.conns && PickOk(h.conns[n], pick) && x in h.conns
    ensures var g := RequestRoute(h, n, peer, pick);
      && x in g.conns && n in g.conns && g.conns[x].data == h.conns[x].data
      && g.conns[x].ctrl == Offer(h.conns[x].ctrl, Replies(h, g, n, peer, x))
      && if NewPeer(h, n, peer) then Entering(h, g, n, peer, x) else g.conns[x].table == h.conns[x].table
  {
    if NewPeer(h, n, peer) {
      NewRequest(h, n, peer, pick);
      assert TableOk(h.conns[n]);
      NewRouteHasShape(h, n, peer, pick);
      NewRequestEnters(h, NewRoute(h, n, peer, pick), n, peer, pick, x);
      NewRouteQueues(h, n, peer, pick, x);
    } else {
      OldRequestQueues(h, n, peer, pick, x);
      OldRequestQueues(h, n, peer, pick, n);
      assert [[1, OwnId(h.conns[n], peer)] + peer] + [] == [[1, OwnId(h.conns[n], peer)] + peer];
    }
  }

  // ---------------------------------------------------------------- disconnects and closes

  lemma TakeDownQueues(h: Hub, n: nat, k: Key, m: nat, k2: Key, x: nat)
    requires n in h.conns && m in h.conns && k in h.conns[n].table && k2 in h.conns[m].table && x in h.conns
    ensures var g := TakeDown(h, n, k, m, k2);
      && x in g.conns && g.conns[x].data == h.conns[x].data
      && g.conns[x].ctrl ==
         if x == m then Offer(h.conns[x].ctrl, [[3, h.conns[m].table[k2].connid]]) else h.conns[x].ctrl
  {
    var h1 := SetLink(h, m, k2, 1, 0);
    var h2 := SetLink(h1, n, k, 1, 0);
    SetLinkQueues(h, m, k2, 1, 0, x);
    SetLinkQueues(h1, n, k, 1, 0, x);
    PushQueues(h2, m, [3, h.conns[m].table[k2].connid], x);
  }

  lemma DisconnectLaws(h: Hub, n: nat, a: Byte, x: nat)
    requires TablesOk(h) && Listed(h) && n in h.conns && x in h.conns && Disconnect(h, n, a).Some?
    ensures var g := Disconnect(h, n, a).value;
      && x in g.conns && g.conns[x].data == h.conns[x].data && Cutting(h, g, n, a, x)
      && g.conns[x].ctrl ==
         if Cuts(h, n, a, x) then Offer(h.conns[x].ctrl, [[3, h.conns[n].table[h.conns[n].byId[a]].otherid]])
         else h.conns[x].ctrl
  {
    var k := h.conns[n].byId[a];
    assert TableOk(h.conns[n]);
    if k in h.registry && h.conns[n].table[k].otherid in h.conns[h.registry[k]].byId {
      var m, b := h.registry[k], h.conns[n].table[k].otherid;
      assert Cuts(h, n, a, m) && TableOk(h.conns[m]) && m != n;
      TakeDownQueues(h, n, k, m, h.conns[m].byId[b], x);
      TakeDownTables(h, n, k, m, h.conns[m].byId[b]);
    }
  }

  lemma CloseLaws(h: Hub, n: nat, x: nat)
    requires TablesOk(h) && Listed(h) && n in h.conns && h.conns[n].phase != Closed && x in h.conns
    ensures var g := Close(h, n);
      && x in g.conns && g.conns[x].data == h.conns[x].data && TableLaw(h, Hangup(n), g, x)
      && CtrlLaw(h, Hangup(n), g, x)
  {
    var g, key := Close(h, n), h.conns[n].key;
    assert TableOk(h.conns[x]);
    if h.conns[n].phase != NoStatus {
      var left := h.registry - {key};
      BereavedIs(h, n, x, left);
      KilledIs(SetConn(h, n, h.conns[n].(phase := Closed)).(registry := left), key, x);
      if Bereaved(h, n, x) { OfferOne(h.conns[x].ctrl, [3, h.conns[x].table[key].connid]); }
    }
  }

  lemma BereavedIs(h: Hub, n: nat, x: nat, left: map<Key, nat>)
    requires TablesOk(h) && Listed(h) && n in h.conns && h.conns[n].phase != NoStatus && x in h.conns
    requires left == h.registry - {h.conns[n].key}
    ensures Bereaved(h, n, x) <==> x in left.Values && h.conns[n].key in h.conns[x].table
  {
    assert TableOk(h.conns[x]);
    if Bereaved(h, n, x) { assert left[h.conns[x].key] == x; }
  }

  lemma KilledIs(h: Hub, key: Key, x: nat)
    requires x in h.conns
    ensures var c, d := h.conns[x], KillAccepted(h, key).conns[x];
      && d.data == c.data
      && if x in h.registry.Values && key in c.table
         then d.table == c.table[key := Entry(c.table[key].connid, 1, 0)]
              && d.ctrl == if |c.ctrl| < 64 then c.ctrl + [[3, c.table[key].connid]] else c.ctrl
         else d.table == c.table && d.ctrl == c.ctrl
  {
  }

  // ---------------------------------------------------------------- every step

  ghost predicate StepLaw(h: Hub, s: Step, g: Hub, x: nat)
    requires x in h.conns
  {
    && RegistryLaw(h, s, g) && x in g.conns && (s.First? || s.Packet? ==> s.n in h.conns)
    && RoleLaw(h, s, g, x) && TableLaw(h, s, g, x) && CtrlLaw(h, s, g, x) && DataLaw(h, s, g, x)
  }

  lemma ConfirmLaws(h: Hub, n: nat, plain: seq<Byte>, x: nat)
    requires TablesOk(h) && Listed(h) && n in h.conns && h.conns[n].phase == Unconfirmed && plain != [] && x in h.conns
    ensures StepLaw(h, First(n, plain), Confirm(h, n, plain).value, x)
  {
    var up, g := Raise(h, n, plain), Confirm(h, n, plain).value;
    ConfirmHasShape(h, n, plain);
    assert ConfirmedAs(h, g, n, x);
    PushQueues(h, n, [5] + plain[1..], x);
  }

  /** The three lookups succeed exactly when the two connections have ids for each other. */
  lemma RoutesExactly(h: Hub, n: nat, a: Byte, m: nat, b: Byte)
    requires TablesOk(h) && Listed(h) && n in h.conns
    ensures RouteOf(h, n, a) == Some((m, b)) <==> Addressed(h, n, a, m, b)
  {
    assert TableOk(h.conns[n]);
  }

  lemma DataLaws(h: Hub, n: nat, plain: seq<Byte>, pick: Byte, x: nat)
    requires TablesOk(h) && Listed(h) && n in h.conns && plain != [] && plain[0] >= 16 && x in h.conns
    ensures var g := RouteData(h, n, plain);
      && x in g.conns && g.conns[x].table == h.conns[x].table && g.conns[x].ctrl == h.conns[x].ctrl
      && DataLaw(h, Packet(n, plain, pick), g, x)
  {
    if exists b :: Addressed(h, n, plain[0], x, b) {
      RoutesExactly(h, n, plain[0], x, OwnId(h.conns[x], h.conns[n].key));
    } else {
      match RouteOf(h, n, plain[0])
      case None =>
      case Some((m, b)) =>
        RoutesExactly(h, n, plain[0], m, b);
        assert m != x;
    }
  }

  lemma RequestPacket(h: Hub, n: nat, plain: seq<Byte>, pick: Byte, x: nat)
    requires TablesOk(h) && Listed(h) && n in h.conns && PickOk(h.conns[n], pick) && x in h.conns
    requires |plain| >= 33 && plain[0] == 0
    ensures StepLaw(h, Packet(n, plain, pick), RequestRoute(h, n, plain[1..33], pick), x)
  {
    RequestSameRoles(h, n, plain[1..33], pick);
    RequestLaws(h, n, plain[1..33], pick, x);
  }

  lemma DropPacket(h: Hub, n: nat, plain: seq<Byte>, pick: Byte, x: nat)
    requires TablesOk(h) && Listed(h) && n in h.conns && x in h.conns
    requires |plain| >= 2 && plain[0] == 3 && Disconnect(h, n, plain[1]).Some?
    ensures StepLaw(h, Packet(n, plain, pick), Disconnect(h, n, plain[1]).value, x)
  {
    DisconnectSameRoles(h, n, plain[1]);
    DisconnectLaws(h, n, plain[1], x);
  }

  lemma PingPacket(h: Hub, n: nat, plain: seq<Byte>, pick: Byte, x: nat)
    requires n in h.conns && x in h.conns && plain != [] && plain[0] == 4
    ensures StepLaw(h, Packet(n, plain, pick), PushCtrl(h, n, [5] + plain[1..]), x)
  {
    PushSameRoles(h, n, [5] + plain[1..]);
    PushQueues(h, n, [5] + plain[1..], x);
  }

  lemma DataPacket(h: Hub, n: nat, plain: seq<Byte>, pick: Byte, x: nat)
    requires TablesOk(h) && Listed(h) && n in h.conns && x in h.conns && plain != [] && plain[0] >= 16
    ensures StepLaw(h, Packet(n, plain, pick), RouteData(h, n, plain), x)
  {
    DataSameRoles(h, n, plain);
    DataLaws(h, n, plain, pick, x);
  }

  lemma DataSameRoles(h: Hub, n: nat, plain: seq<Byte>)
    requires Wf(h) && n in h.conns && plain != []
    ensures SameRoles(h, RouteData(h, n, plain))
  {
  }

  lemma IdlePacket(h: Hub, n: nat, plain: seq<Byte>, pick: Byte, x: nat)
    requires n in h.conns && x in h.conns && plain != [] && plain[0] < 16 && plain[0] !in {0, 3, 4}
    ensures StepLaw(h, Packet(n, plain, pick), h, x)
  {
  }

  lemma PacketLaws(h: Hub, n: nat, plain: seq<Byte>, pick: Byte, x: nat)
    requires TablesOk(h) && Listed(h) && n in h.conns && PickOk(h.conns[n], pick)
    requires Dispatch(h, n, plain, pick).Some? && x in h.conns
    ensures StepLaw(h, Packet(n, plain, pick), Dispatch(h, n, plain, pick).value, x)
  {
    if plain[0] == 0 {
      RequestPacket(h, n, plain, pick, x);
    } else if plain[0] == 3 {
      DropPacket(h, n, plain, pick, x);
    } else if plain[0] == 4 {
      PingPacket(h, n, plain, pick, x);
    } else if plain[0] >= 16 {
      DataPacket(h, n, plain, pick, x);
    } else {
      IdlePacket(h, n, plain, pick, x);
    }
  }

  lemma HangupLaws(h: Hub, n: nat, x: nat)
    requires TablesOk(h) && Listed(h) && n in h.conns && h.conns[n].phase != Closed && x in h.conns
    ensures StepLaw(h, Hangup(n), Close(h, n), x)
  {
    CloseLaws(h, n, x);
    if h.conns[n].phase != NoStatus {
      CloseHasShape(h, n);
      assert ClosedAs(h.conns[x], Close(h, n).conns[x], h.conns[n].key, x == n, x in Close(h, n).registry.Values);
    }
  }

  /** A step of a reachable state obeys the laws at every connection. */
  lemma StepObeys(h: Hub, s: Step, g: Hub, x: nat)
    requires TablesOk(h) && Listed(h) && Next(h, s, g) && x in h.conns
    ensures StepLaw(h, s, g, x)
  {
    match s
    case First(n, plain) => ConfirmLaws(h, n, plain, x);
    case Packet(n, plain, pick) => PacketLaws(h, n, plain, pick, x);
    case Hangup(n) => HangupLaws(h, n, x);
    case _ => QuietLaws(h, s, g, x);
  }

  lemma QuietLaws(h: Hub, s: Step, g: Hub, x: nat)
    requires Next(h, s, g) && x in h.conns && !s.First? && !s.Packet? && !s.Hangup?
    ensures StepLaw(h, s, g, x)
  {
  }

  /** Every step of every run does to every connection exactly what the laws say. */
  lemma EveryStepObeys(states: seq<Hub>, steps: seq<Step>, i: nat, x: nat)
    requires IsRun(states, steps) && i < |steps| && x in states[i].conns
    ensures StepLaw(states[i], steps[i], states[i + 1], x)
  {
    TablesInEveryState(states, steps, i);
    ListedInEveryState(states, steps, i);
    assert StepAt(states, steps, i);
    StepObeys(states[i], steps[i], states[i + 1], x);
  }

  /** In every reachable state the server panics on exactly the packets named. */
  lemma PanicsExactly(h: Hub, s: Step)
    requires TablesOk(h) && Enabled(h, s)
    ensures Apply(h, s).None? <==> Panics(h, s)
  {
    match s
    case Packet(n, plain, pick) => assert TableOk(h.conns[n]);
    case _ =>
  }

  // ---------------------------------------------------------------- what follows

  /** An entry becomes linked. */
  ghost predicate Rises(c: Conn, d: Conn, k: Key) {
    k in d.table && d.table[k].status == 2 && !(k in c.table && c.table[k].status == 2)
  }

  /** Whoever gets a link is told of it last in the step, under the id of that very entry. */
  lemma RiseIsTold(states: seq<Hub>, steps: seq<Step>, i: nat, x: nat, k: Key)
    requires IsRun(states, steps) && i < |steps| && x in states[i].conns
    requires x in states[i + 1].conns && Rises(states[i].conns[x], states[i + 1].conns[x], k)
    ensures StepLaw(states[i], steps[i], states[i + 1], x) && steps[i] != FlushCtrl(x)
    ensures var due := Due(states[i], steps[i], states[i + 1], x);
      due != [] && due[|due| - 1] == [2, states[i + 1].conns[x].table[k].connid]
  {
    EveryStepObeys(states, steps, i, x);
  }

  /** The packet names the id under which `c` has the peer concerned. */
  ghost predicate NamesOwnId(c: Conn, pkt: seq<Byte>) {
    || (|pkt| == 34 && pkt[0] == 1 && pkt[1] == OwnId(c, pkt[2..]))
    || (|pkt| == 2 && pkt[0] == 2 && exists k :: k in c.table && c.table[k].connid == pkt[1] && c.table[k].status == 2)
    || (|pkt| == 2 && pkt[0] == 3 && exists k :: k in c.table && c.table[k] == Entry(pkt[1], 1, 0))
    || (|pkt| >= 1 && pkt[0] == 5)
  }

  lemma RepliesNameOwnIds(h: Hub, g: Hub, n: nat, peer: Key, x: nat, pkt: seq<Byte>)
    requires n in h.conns && n in g.conns && x in h.conns && x in g.conns && pkt in Replies(h, g, n, peer, x)
    requires NewPeer(h, n, peer) ==> Entering(h, g, n, peer, x)
    ensures NamesOwnId(g.conns[x], pkt)
  {
    if pkt == [1, OwnId(g.conns[n], peer)] + peer {
      assert pkt[2..] == peer;
    }
  }

  lemma DropNamesOwnId(h: Hub, g: Hub, n: nat, a: Byte, x: nat)
    requires x in h.conns && x in g.conns && TableOk(h.conns[x]) && Listed(h)
    requires Cuts(h, n, a, x) && Cutting(h, g, n, a, x)
    requires h.conns[n].key !in h.conns[n].table
    ensures NamesOwnId(g.conns[x], [3, h.conns[n].table[h.conns[n].byId[a]].otherid])
  {
    var b := h.conns[n].table[h.conns[n].byId[a]].otherid;
    var k2 := h.conns[x].byId[b];
    assert x != n && k2 in g.conns[x].table && g.conns[x].table[k2] == Entry(b, 1, 0);
  }

  lemma DueNamesOwnIds(h: Hub, s: Step, g: Hub, x: nat, pkt: seq<Byte>)
    requires TablesOk(h) && Listed(h) && x in h.conns && StepLaw(h, s, g, x) && pkt in Due(h, s, g, x)
    ensures NamesOwnId(g.conns[x], pkt)
  {
    assert TableOk(h.conns[x]);
    match s
    case First(n, plain) =>
    case Packet(n, plain, _) =>
      if plain[0] == 0 {
        RepliesNameOwnIds(h, g, n, plain[1..33], x, pkt);
      } else if plain[0] == 3 {
        assert TableOk(h.conns[n]);
        DropNamesOwnId(h, g, n, plain[1], x);
      }
    case Hangup(n) =>
      var key := h.conns[n].key;
      assert key in g.conns[x].table && g.conns[x].table[key] == Entry(pkt[1], 1, 0);
  }

  /** Everything a connection is ever told about its peers is in terms of its own ids for them. */
  lemma OwnIdsOnly(states: seq<Hub>, steps: seq<Step>, i: nat, x: nat, pkt: seq<Byte>)
    requires IsRun(states, steps) && i < |steps| && x in states[i].conns
    ensures StepLaw(states[i], steps[i], states[i + 1], x)
    ensures pkt in Due(states[i], steps[i], states[i + 1], x) ==> NamesOwnId(states[i + 1].conns[x], pkt)
  {
    EveryStepObeys(states, steps, i, x);
    TablesInEveryState(states, steps, i);
    ListedInEveryState(states, steps, i);
    if pkt in Due(states[i], steps[i], states[i + 1], x) {
      DueNamesOwnIds(states[i], steps[i], states[i + 1], x, pkt);
    }
  }

  lemma MirrorIsAddressed(h: Hub, n: nat, k: Key) returns (m: nat)
    requires TablesOk(h) && Listed(h) && LinksOk(h) && LinkedTo(h, n, k)
    ensures k in h.registry && m == h.registry[k] && m in h.conns && m != n && 16 <= h.conns[n].table[k].connid
    ensures Addressed(h, n, h.conns[n].table[k].connid, m, h.conns[n].table[k].otherid)
    ensures Cuts(h, n, h.conns[n].table[k].connid, m)
  {
    m := MirrorOf(h, n, k);
    assert TableOk(h.conns[n]) && TableOk(h.conns[m]);
  }

  /** In symmetric states data on a linked id arrives at the other end, under the other end's id. */
  lemma LinkedDataArrives(states: seq<Hub>, steps: seq<Step>, i: nat, n: nat, k: Key, p: seq<Byte>, pick: Byte)
    requires IsRun(states, steps) && i < |steps| && LinksOk(states[i]) && LinkedTo(states[i], n, k)
    requires steps[i] == Packet(n, [states[i].conns[n].table[k].connid] + p, pick)
    ensures k in states[i].registry && states[i].registry[k] in states[i].conns
    ensures var m := states[i].registry[k];
      var q, b := states[i].conns[m].data, states[i].conns[n].table[k].otherid;
      && m in states[i + 1].conns
      && states[i + 1].conns[m].data == if |p| <= 2048 && |q| < 128 then q + [[b] + p] else q
  {
    var a := states[i].conns[n].table[k].connid;
    TablesInEveryState(states, steps, i);
    ListedInEveryState(states, steps, i);
    var m := MirrorIsAddressed(states[i], n, k);
    EveryStepObeys(states, steps, i, m);
    AddressedArrives(states[i], steps[i], states[i + 1], n, a, p, m, states[i].conns[n].table[k].otherid);
  }

  lemma AddressedArrives(h: Hub, s: Step, g: Hub, n: nat, a: Byte, p: seq<Byte>, m: nat, b: Byte)
    requires s.Packet? && s.n == n && s.plain == [a] + p && a >= 16 && Addressed(h, n, a, m, b)
    requires m in g.conns && DataLaw(h, s, g, m)
    ensures var q := h.conns[m].data;
      g.conns[m].data == if |p| <= 2048 && |q| < 128 then q + [[b] + p] else q
  {
    assert s.plain[1..] == p;
  }

  /** In symmetric states the other end of a dropped link is told under its own id for the one that drops it. */
  lemma LinkedDropIsTold(states: seq<Hub>, steps: seq<Step>, i: nat, n: nat, k: Key)
    requires IsRun(states, steps) && i < |steps| && LinksOk(states[i]) && LinkedTo(states[i], n, k)
    requires Drops(steps[i], n, states[i].conns[n].table[k].connid)
    ensures k in states[i].registry && states[i].registry[k] in states[i].conns
    ensures var m := states[i].registry[k];
      var id := OwnId(states[i].conns[m], states[i].conns[n].key);
      && m in states[i + 1].conns && states[i + 1].conns[m].ctrl == Offer(states[i].conns[m].ctrl, [[3, id]])
      && states[i + 1].conns[m].table == states[i].conns[m].table[states[i].conns[n].key := Entry(id, 1, 0)]
  {
    TablesInEveryState(states, steps, i);
    ListedInEveryState(states, steps, i);
    var m := MirrorIsAddressed(states[i], n, k);
    EveryStepObeys(states, steps, i, m);
    DroppedIsTold(states[i], steps[i], states[i + 1], n, k, m);
  }

  lemma DroppedIsTold(h: Hub, s: Step, g: Hub, n: nat, k: Key, m: nat)
    requires TablesOk(h) && n in h.conns && k in h.conns[n].table && m != n && m in h.conns && m in g.conns
    requires var a := h.conns[n].table[k].connid;
      Drops(s, n, a) && Cuts(h, n, a, m) && Addressed(h, n, a, m, h.conns[n].table[k].otherid)
    requires CtrlLaw(h, s, g, m) && TableLaw(h, s, g, m)
    ensures var id := OwnId(h.conns[m], h.conns[n].key);
      && g.conns[m].ctrl == Offer(h.conns[m].ctrl, [[3, id]])
      && g.conns[m].table == h.conns[m].table[h.conns[n].key := Entry(id, 1, 0)]
  {
    assert TableOk(h.conns[n]) && TableOk(h.conns[m]);
  }
}

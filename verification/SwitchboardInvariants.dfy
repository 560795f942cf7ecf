/**
 What every step of the switchboard keeps, and exactly which steps do not keep it.
 */
module SwitchboardInvariants {
  import opened Bytes
  import opened Switchboard
  import opened SwitchboardShapes

  // ---------------------------------------------------------------- the invariants

  /**
   The id table of one connection: `table` and `byId` are inverse views of one injective map
   from peers to ids 16..255, `used` marks exactly the allotted ids, and the own key is absent.
   */
  ghost predicate TableOk(c: Conn) {
    && Inverse(c.table, c.byId)
    && Marked(c.byId, c.used)
    && c.key !in c.table
    && (c.phase == NoStatus || c.phase == Unconfirmed ==> c.table == map[])
    && (forall k <- c.table :: c.table[k].status == 1 || c.table[k].status == 2)
  }

  ghost predicate Inverse(t: map<Key, Entry>, b: map<Byte, Key>) {
    && (forall k <- t :: t[k].connid in b && b[t[k].connid] == k)
    && (forall i <- b :: b[i] in t && t[b[i]].connid == i)
  }

  ghost predicate Marked(b: map<Byte, Key>, used: set<Byte>) {
    && (forall i <- b :: NUM_RESERVED_PORTS <= i && i - NUM_RESERVED_PORTS in used)
    && (forall u <- used :: u < NUM_CLIENT_CONNECTIONS && u + NUM_RESERVED_PORTS in b)
  }

  ghost predicate TablesOk(h: Hub) {
    && (forall k <- h.registry :: h.registry[k] in h.conns)
    && (forall n <- h.conns :: TableOk(h.conns[n]))
  }

  /** The registry is exactly the set of confirmed connections, each under its own key. */
  ghost predicate RegistryOk(h: Hub) {
    && (forall k <- h.registry ::
          var n := h.registry[k]; n in h.conns && h.conns[n].phase == Confirmed && h.conns[n].key == k)
    && (forall n <- h.conns ::
          h.conns[n].phase == Confirmed ==> h.conns[n].key in h.registry && h.registry[h.conns[n].key] == n)
  }

  /** Entry `e` of a connection with key `key` is idle, or mirrored by the peer's entry. */
  ghost predicate EntryOk(h: Hub, key: Key, k: Key, e: Entry) {
    || (e.status == 1 && e.otherid == 0)
    || (&& e.status == 2
        && k in h.registry && h.registry[k] in h.conns
        && var t := h.conns[h.registry[k]].table;
           key in t && t[key] == Entry(e.otherid, 2, e.connid))
  }

  /** Link symmetry. */
  ghost predicate LinksOk(h: Hub) {
    forall n, k | n in h.conns && h.conns[n].phase == Confirmed && k in h.conns[n].table ::
      EntryOk(h, h.conns[n].key, k, h.conns[n].table[k])
  }

  ghost predicate Good(h: Hub) {
    TablesOk(h) && RegistryOk(h) && LinksOk(h)
  }

  // ---------------------------------------------------------------- queues do not matter

  ghost predicate SameButQueues(c: Conn, d: Conn) {
    c.(ctrl := [], data := []) == d.(ctrl := [], data := [])
  }

  ghost predicate QueueStep(h: Hub, g: Hub) {
    && g.registry == h.registry
    && g.conns.Keys == h.conns.Keys
    && (forall n <- h.conns :: SameButQueues(h.conns[n], g.conns[n]))
  }

  lemma QueueStepKeepsGood(h: Hub, g: Hub)
    requires QueueStep(h, g)
    ensures TablesOk(h) <==> TablesOk(g)
    ensures RegistryOk(h) <==> RegistryOk(g)
    ensures LinksOk(h) <==> LinksOk(g)
  {
    assert forall n <- h.conns :: SameButQueues(h.conns[n], g.conns[n]);
    assert forall n <- g.conns :: SameButQueues(h.conns[n], g.conns[n]);
    forall n, k | n in h.conns && k in h.conns[n].table
      ensures EntryOk(h, h.conns[n].key, k, h.conns[n].table[k]) <==> EntryOk(g, g.conns[n].key, k, g.conns[n].table[k])
    {
      assert SameButQueues(h.conns[n], g.conns[n]);
      if k in h.registry && h.registry[k] in h.conns {
        assert SameButQueues(h.conns[h.registry[k]], g.conns[h.registry[k]]);
      }
    }
  }

  lemma PushCtrlIsQueueStep(h: Hub, n: nat, pkt: seq<Byte>)
    requires n in h.conns
    ensures QueueStep(h, PushCtrl(h, n, pkt))
  {
  }

  lemma PushDataIsQueueStep(h: Hub, n: nat, connid: Byte, payload: seq<Byte>)
    requires n in h.conns
    ensures QueueStep(h, PushData(h, n, connid, payload))
  {
  }

  lemma OtherPacketQueues(h: Hub, n: nat, plain: seq<Byte>, pick: Byte)
    requires Wf(h) && n in h.conns && PickOk(h.conns[n], pick) && Dispatch(h, n, plain, pick).Some?
    requires plain[0] != ROUTING_REQUEST && plain[0] != DISCONNECT_NOTIFICATION
    ensures QueueStep(h, Dispatch(h, n, plain, pick).value)
  {
  }

  lemma FlushIsQueueStep(h: Hub, n: nat)
    requires n in h.conns
    ensures h.conns[n].ctrl != [] ==> QueueStep(h, SetConn(h, n, h.conns[n].(ctrl := h.conns[n].ctrl[1..])))
    ensures h.conns[n].data != [] ==> QueueStep(h, SetConn(h, n, h.conns[n].(data := h.conns[n].data[1..])))
  {
  }

  // ---------------------------------------------------------------- id tables survive every step

  lemma PutKeepsTables(h: Hub, n: nat, c: Conn)
    requires TablesOk(h) && TableOk(c)
    ensures TablesOk(SetConn(h, n, c))
  {
  }

  lemma AddEntryKeepsTable(h: Hub, n: nat, peer: Key, pick: Byte)
    requires TablesOk(h) && n in h.conns && h.conns[n].phase == Confirmed
    requires pick in FreeIds(h.conns[n]) && peer != h.conns[n].key && peer !in h.conns[n].table
    ensures TablesOk(AddEntry(h, n, peer, pick))
  {
    WithEntryKeepsTable(h.conns[n], peer, pick);
  }

  lemma InverseExtended(t: map<Key, Entry>, b: map<Byte, Key>, k: Key, e: Entry)
    requires Inverse(t, b) && k !in t && e.connid !in b
    ensures Inverse(t[k := e], b[e.connid := k])
  {
  }

  lemma MarkedExtended(b: map<Byte, Key>, used: set<Byte>, k: Key, pick: Byte)
    requires Marked(b, used) && pick < NUM_CLIENT_CONNECTIONS && pick !in used
    ensures pick + NUM_RESERVED_PORTS !in b
    ensures Marked(b[pick + NUM_RESERVED_PORTS := k], used + {pick})
  {
  }

  lemma WithEntryKeepsTable(c: Conn, peer: Key, pick: Byte)
    requires TableOk(c) && c.phase == Confirmed && pick in FreeIds(c) && peer != c.key && peer !in c.table
    ensures TableOk(WithEntry(c, peer, pick))
  {
    MarkedExtended(c.byId, c.used, peer, pick);
    InverseExtended(c.table, c.byId, peer, Entry(pick + NUM_RESERVED_PORTS, 1, 0));
  }

  lemma SetLinkKeepsTables(h: Hub, n: nat, k: Key, status: Byte, otherid: Byte)
    requires TablesOk(h) && n in h.conns && k in h.conns[n].table && (status == 1 || status == 2)
    ensures TablesOk(SetLink(h, n, k, status, otherid))
  {
    RelinkKeepsTable(h.conns[n], k, status, otherid);
  }

  lemma RelinkKeepsTable(c: Conn, k: Key, status: Byte, otherid: Byte)
    requires TableOk(c) && k in c.table && (status == 1 || status == 2)
    ensures TableOk(Relink(c, k, status, otherid))
  {
    var d := Relink(c, k, status, otherid);
    assert d.table.Keys == c.table.Keys;
    assert forall x <- c.table :: d.table[x].connid == c.table[x].connid;
    SameIdsKeepTable(c, d);
  }

  lemma SameIdsKeepTable(c: Conn, d: Conn)
    requires TableOk(c) && d.key == c.key && d.byId == c.byId && d.used == c.used && d.phase == c.phase
    requires d.table.Keys == c.table.Keys
    requires forall x <- c.table :: d.table[x].connid == c.table[x].connid
    requires forall x <- d.table :: d.table[x].status == 1 || d.table[x].status == 2
    ensures TableOk(d)
  {
    assert forall x <- d.table :: x in c.table;
  }

  lemma TryLinkKeepsTables(h: Hub, n: nat, peer: Key)
    requires TablesOk(h) && n in h.conns && peer in h.conns[n].table
    ensures TablesOk(TryLink(h, n, peer))
  {
    var key, id := h.conns[n].key, h.conns[n].table[peer].connid;
    if peer in h.registry && key in h.conns[h.registry[peer]].table {
      var m := h.registry[peer];
      var id2 := h.conns[m].table[key].connid;
      SetLinkKeepsTables(h, n, peer, 2, id2);
      var h1 := SetLink(h, n, peer, 2, id2);
      SetLinkKeepsTables(h1, m, key, 2, id);
      var h2 := SetLink(h1, m, key, 2, id);
      PushesKeepGood(h2, n, [CONNECTION_NOTIFICATION, id], m, [CONNECTION_NOTIFICATION, id2]);
    }
  }

  lemma PushKeepsGood(h: Hub, n: nat, pkt: seq<Byte>)
    requires n in h.conns
    ensures TablesOk(h) <==> TablesOk(PushCtrl(h, n, pkt))
    ensures Good(h) <==> Good(PushCtrl(h, n, pkt))
  {
    PushCtrlIsQueueStep(h, n, pkt);
    QueueStepKeepsGood(h, PushCtrl(h, n, pkt));
  }

  lemma PushesKeepGood(h: Hub, n: nat, p: seq<Byte>, m: nat, q: seq<Byte>)
    requires n in h.conns && m in h.conns
    ensures TablesOk(h) <==> TablesOk(PushCtrl(PushCtrl(h, n, p), m, q))
    ensures Good(h) <==> Good(PushCtrl(PushCtrl(h, n, p), m, q))
  {
    PushKeepsGood(h, n, p);
    PushKeepsGood(PushCtrl(h, n, p), m, q);
  }

  lemma RequestKeepsTables(h: Hub, n: nat, peer: Key, pick: Byte)
    requires TablesOk(h) && n in h.conns && h.conns[n].phase == Confirmed && PickOk(h.conns[n], pick)
    ensures TablesOk(RequestRoute(h, n, peer, pick))
  {
    var c := h.conns[n];
    if peer == c.key {
      PushKeepsGood(h, n, RoutingResponse(0, peer));
    } else if peer in c.table {
      PushKeepsGood(h, n, RoutingResponse(c.table[peer].connid, peer));
    } else if FreeIds(c) == {} {
      PushKeepsGood(h, n, RoutingResponse(0, peer));
    } else {
      AddEntryKeepsTable(h, n, peer, pick);
      var h1 := AddEntry(h, n, peer, pick);
      var reply := RoutingResponse(pick + NUM_RESERVED_PORTS, peer);
      PushKeepsGood(h1, n, reply);
      TryLinkKeepsTables(PushCtrl(h1, n, reply), n, peer);
    }
  }

  lemma DisconnectKeepsTables(h: Hub, n: nat, connid: Byte)
    requires TablesOk(h) && n in h.conns && Disconnect(h, n, connid).Some?
    ensures TablesOk(Disconnect(h, n, connid).value)
  {
    var k := h.conns[n].byId[connid];
    if k in h.registry {
      var m := h.registry[k];
      var other := h.conns[n].table[k].otherid;
      if other in h.conns[m].byId {
        var k2 := h.conns[m].byId[other];
        SetLinkKeepsTables(h, m, k2, 1, 0);
        SetLinkKeepsTables(SetLink(h, m, k2, 1, 0), n, k, 1, 0);
        PushKeepsGood(SetLink(SetLink(h, m, k2, 1, 0), n, k, 1, 0), m,
          [DISCONNECT_NOTIFICATION, h.conns[m].table[k2].connid]);
      }
    }
  }

  lemma DispatchKeepsTables(h: Hub, n: nat, plain: seq<Byte>, pick: Byte)
    requires TablesOk(h) && n in h.conns && h.conns[n].phase == Confirmed && PickOk(h.conns[n], pick)
    requires Dispatch(h, n, plain, pick).Some?
    ensures TablesOk(Dispatch(h, n, plain, pick).value)
  {
    if plain[0] == ROUTING_REQUEST {
      RequestKeepsTables(h, n, plain[1..33], pick);
    } else if plain[0] == DISCONNECT_NOTIFICATION {
      DisconnectKeepsTables(h, n, plain[1]);
    } else {
      OtherPacketQueues(h, n, plain, pick);
      QueueStepKeepsGood(h, Dispatch(h, n, plain, pick).value);
    }
  }

  lemma DataKeepsGood(h: Hub, n: nat, plain: seq<Byte>)
    requires Wf(h) && n in h.conns && plain != []
    ensures TablesOk(h) <==> TablesOk(RouteData(h, n, plain))
    ensures Good(h) <==> Good(RouteData(h, n, plain))
  {
    match RouteOf(h, n, plain[0])
    case None =>
    case Some((m, tag)) =>
      PushDataIsQueueStep(h, m, tag, plain[1..]);
      QueueStepKeepsGood(h, RouteData(h, n, plain));
  }

  lemma LaterPhaseKeepsTable(c: Conn, p: Phase)
    requires TableOk(c) && (p == Confirmed || p == Closed)
    ensures TableOk(c.(phase := p))
  {
  }

  lemma ForgottenKeepsTable(c: Conn, k: Key)
    requires TableOk(c)
    ensures TableOk(Told(Forgotten(c, k), k))
  {
    if k in c.table { RelinkKeepsTable(c, k, 1, 0); }
    QueuesKeepTable(Forgotten(c, k), Told(Forgotten(c, k), k));
  }

  lemma QueuesKeepTable(c: Conn, d: Conn)
    requires TableOk(c) && SameButQueues(c, d)
    ensures TableOk(d)
  {
  }

  lemma KillKeepsTables(h: Hub, k: Key)
    requires TablesOk(h)
    ensures TablesOk(KillAccepted(h, k))
  {
    forall n | n in h.conns ensures TableOk(KillAccepted(h, k).conns[n]) {
      ForgottenKeepsTable(h.conns[n], k);
    }
  }

  lemma CloseKeepsTables(h: Hub, n: nat)
    requires TablesOk(h) && n in h.conns
    ensures TablesOk(Close(h, n))
  {
    var c := h.conns[n];
    LaterPhaseKeepsTable(c, Closed);
    var down := SetConn(h, n, c.(phase := Closed));
    KillKeepsTables(down.(registry := down.registry - {c.key}), c.key);
  }

  lemma ConfirmKeepsTables(h: Hub, n: nat, plain: seq<Byte>)
    requires TablesOk(h) && n in h.conns && plain != []
    ensures TablesOk(Confirm(h, n, plain).value)
  {
    RaiseKeepsTables(h, n, plain);
    TakeOverKeepsTables(Raise(h, n, plain), n);
  }

  lemma RaiseKeepsTables(h: Hub, n: nat, plain: seq<Byte>)
    requires TablesOk(h) && n in h.conns && plain != []
    ensures TablesOk(Raise(h, n, plain))
  {
    PushKeepsGood(h, n, [PONG] + plain[1..]);
    LaterPhaseKeepsTable(PushCtrl(h, n, [PONG] + plain[1..]).conns[n], Confirmed);
  }

  lemma TakeOverKeepsTables(h: Hub, n: nat)
    requires TablesOk(h) && n in h.conns
    ensures TablesOk(TakeOver(h, n))
  {
    var key := h.conns[n].key;
    if key in h.registry { LaterPhaseKeepsTable(h.conns[h.registry[key]], Closed); }
  }

  /** Every step of every run keeps every id table in order, replacements included. */
  lemma StepKeepsTables(h: Hub, s: Step)
    requires TablesOk(h) && Enabled(h, s) && Apply(h, s).Some?
    ensures TablesOk(Apply(h, s).value)
  {
    match s
    case Accept(n) => PutKeepsTables(h, n, NewConn());
    case Handshake(n, key) => PutKeepsTables(h, n, h.conns[n].(phase := Unconfirmed, key := key));
    case First(n, plain) => ConfirmKeepsTables(h, n, plain);
    case Packet(n, plain, pick) => DispatchKeepsTables(h, n, plain, pick);
    case FlushCtrl(n) =>
      FlushIsQueueStep(h, n);
      QueueStepKeepsGood(h, Apply(h, s).value);
    case FlushData(n) =>
      FlushIsQueueStep(h, n);
      QueueStepKeepsGood(h, Apply(h, s).value);
    case Hangup(n) => CloseKeepsTables(h, n);
  }

  // ---------------------------------------------------------------- link symmetry

  lemma AddEntryKeepsLinks(h: Hub, n: nat, peer: Key, pick: Byte)
    requires RegistryOk(h) && LinksOk(h) && n in h.conns && pick < NUM_CLIENT_CONNECTIONS && peer !in h.conns[n].table
    ensures RegistryOk(AddEntry(h, n, peer, pick)) && LinksOk(AddEntry(h, n, peer, pick))
  {
    var g := AddEntry(h, n, peer, pick);
    forall x, k | x in g.conns && g.conns[x].phase == Confirmed && k in g.conns[x].table
      ensures EntryOk(g, g.conns[x].key, k, g.conns[x].table[k])
    {
      if x != n || k != peer { assert EntryOk(h, h.conns[x].key, k, h.conns[x].table[k]); }
    }
  }

  /** The two entries that `TryLink` and `Disconnect` overwrite mirror each other. */
  ghost predicate Mirrored(h: Hub, n: nat, m: nat) {
    && n in h.conns && m in h.conns && n != m
    && h.conns[n].phase == Confirmed && h.conns[m].phase == Confirmed
    && h.conns[m].key in h.conns[n].table && h.conns[n].key in h.conns[m].table
  }

  function SetBoth(h: Hub, n: nat, m: nat, e: (Byte, Byte), f: (Byte, Byte)): Hub
    requires Mirrored(h, n, m)
  {
    SetLink(SetLink(h, n, h.conns[m].key, e.0, e.1), m, h.conns[n].key, f.0, f.1)
  }

  ghost predicate PairedValues(h: Hub, n: nat, m: nat, e: (Byte, Byte), f: (Byte, Byte))
    requires Mirrored(h, n, m)
  {
    || (e == (1, 0) && f == (1, 0))
    || (&& e == (2, h.conns[m].table[h.conns[n].key].connid)
        && f == (2, h.conns[n].table[h.conns[m].key].connid))
  }

  /** Overwriting both halves of a pair keeps the pair and every other entry symmetric. */
  lemma SetBothKeepsLinks(h: Hub, n: nat, m: nat, e: (Byte, Byte), f: (Byte, Byte))
    requires RegistryOk(h) && LinksOk(h) && Mirrored(h, n, m) && PairedValues(h, n, m, e, f)
    ensures RegistryOk(SetBoth(h, n, m, e, f)) && LinksOk(SetBoth(h, n, m, e, f))
  {
    var g, key, k2 := SetBoth(h, n, m, e, f), h.conns[n].key, h.conns[m].key;
    SetPairTables(h, n, k2, m, key, e, f);
    SameRolesKeepsRegistry(h, g);
    PairKeepsLinks(h, g, n, m, Entry(h.conns[n].table[k2].connid, e.0, e.1),
      Entry(h.conns[m].table[key].connid, f.0, f.1));
  }

  lemma SameRolesKeepsRegistry(h: Hub, g: Hub)
    requires RegistryOk(h) && SameRoles(h, g)
    ensures RegistryOk(g)
  {
  }

  lemma PairKeepsLinks(h: Hub, g: Hub, n: nat, m: nat, e: Entry, f: Entry)
    requires RegistryOk(h) && LinksOk(h) && Mirrored(h, n, m)
    requires TablesAs(h, g, n, h.conns[n].table[h.conns[m].key := e], m, h.conns[m].table[h.conns[n].key := f])
    requires (e.status == 1 && e.otherid == 0 && f.status == 1 && f.otherid == 0)
          || (e.status == 2 && f == Entry(e.otherid, 2, e.connid))
    ensures LinksOk(g)
  {
    forall x, k | x in g.conns && g.conns[x].phase == Confirmed && k in g.conns[x].table
      ensures EntryOk(g, g.conns[x].key, k, g.conns[x].table[k])
    {
      assert h.registry[h.conns[x].key] == x && h.registry[h.conns[n].key] == n && h.registry[h.conns[m].key] == m;
      if (x == n && k == h.conns[m].key) || (x == m && k == h.conns[n].key) {
      } else {
        assert EntryOk(h, h.conns[x].key, k, h.conns[x].table[k]);
        assert g.conns[x].table[k] == h.conns[x].table[k];
      }
    }
  }

  lemma SetBothKeepsGood(h: Hub, n: nat, m: nat, e: (Byte, Byte), f: (Byte, Byte))
    requires Good(h) && Mirrored(h, n, m) && PairedValues(h, n, m, e, f)
    ensures Good(SetBoth(h, n, m, e, f))
  {
    SetBothKeepsLinks(h, n, m, e, f);
    SetLinkKeepsTables(h, n, h.conns[m].key, e.0, e.1);
    SetLinkKeepsTables(SetLink(h, n, h.conns[m].key, e.0, e.1), m, h.conns[n].key, f.0, f.1);
  }

  lemma TryLinkKeepsGood(h: Hub, n: nat, peer: Key)
    requires Good(h) && n in h.conns && h.conns[n].phase == Confirmed && peer in h.conns[n].table
    ensures Good(TryLink(h, n, peer))
  {
    var key, id := h.conns[n].key, h.conns[n].table[peer].connid;
    if peer in h.registry && key in h.conns[h.registry[peer]].table {
      var m := h.registry[peer];
      var id2 := h.conns[m].table[key].connid;
      SetBothKeepsGood(h, n, m, (2, id2), (2, id));
      PushesKeepGood(SetBoth(h, n, m, (2, id2), (2, id)), n, [CONNECTION_NOTIFICATION, id], m,
        [CONNECTION_NOTIFICATION, id2]);
    }
  }

  lemma RequestKeepsGood(h: Hub, n: nat, peer: Key, pick: Byte)
    requires Good(h) && n in h.conns && h.conns[n].phase == Confirmed && PickOk(h.conns[n], pick)
    ensures Good(RequestRoute(h, n, peer, pick))
  {
    var c := h.conns[n];
    if peer == c.key {
      PushKeepsGood(h, n, RoutingResponse(0, peer));
    } else if peer in c.table {
      PushKeepsGood(h, n, RoutingResponse(c.table[peer].connid, peer));
    } else if FreeIds(c) == {} {
      PushKeepsGood(h, n, RoutingResponse(0, peer));
    } else {
      AddEntryKeepsTable(h, n, peer, pick);
      AddEntryKeepsLinks(h, n, peer, pick);
      var h1 := AddEntry(h, n, peer, pick);
      var reply := RoutingResponse(pick + NUM_RESERVED_PORTS, peer);
      PushKeepsGood(h1, n, reply);
      TryLinkKeepsGood(PushCtrl(h1, n, reply), n, peer);
    }
  }

  lemma DisconnectKeepsGood(h: Hub, n: nat, connid: Byte)
    requires Good(h) && n in h.conns && h.conns[n].phase == Confirmed && Disconnect(h, n, connid).Some?
    ensures Good(Disconnect(h, n, connid).value)
  {
    var k := h.conns[n].byId[connid];
    assert EntryOk(h, h.conns[n].key, k, h.conns[n].table[k]);
    if k in h.registry && h.conns[n].table[k].otherid in h.conns[h.registry[k]].byId {
      var m := h.registry[k];
      assert Mirrored(h, m, n);
      SetBothKeepsGood(h, m, n, (1, 0), (1, 0));
      PushKeepsGood(SetBoth(h, m, n, (1, 0), (1, 0)), m, [DISCONNECT_NOTIFICATION, h.conns[n].table[k].otherid]);
    }
  }

  lemma DispatchKeepsGood(h: Hub, n: nat, plain: seq<Byte>, pick: Byte)
    requires Good(h) && n in h.conns && h.conns[n].phase == Confirmed && PickOk(h.conns[n], pick)
    requires Dispatch(h, n, plain, pick).Some?
    ensures Good(Dispatch(h, n, plain, pick).value)
  {
    if plain[0] == PING {
      PushKeepsGood(h, n, [PONG] + plain[1..]);
    } else if plain[0] == ROUTING_REQUEST {
      RequestKeepsGood(h, n, plain[1..33], pick);
    } else if plain[0] == DISCONNECT_NOTIFICATION {
      DisconnectKeepsGood(h, n, plain[1]);
    } else if plain[0] >= NUM_RESERVED_PORTS {
      DataKeepsGood(h, n, plain);
    }
  }

  // ---------------------------------------------------------------- confirming and closing

  ghost predicate HasLink(c: Conn) {
    exists k <- c.table :: c.table[k].status == 2
  }

  lemma ConfirmKeepsRegistry(h: Hub, g: Hub, n: nat)
    requires RegistryOk(h) && ConfirmShape(h, g, n) && h.conns[n].phase == Unconfirmed
    ensures RegistryOk(g)
  {
  }

  /** A confirmation keeps symmetry exactly when it does not push out a holder that had a link. */
  lemma ConfirmLinksExactly(h: Hub, g: Hub, n: nat)
    requires RegistryOk(h) && LinksOk(h) && ConfirmShape(h, g, n)
    requires h.conns[n].phase == Unconfirmed && h.conns[n].table == map[]
    requires forall x <- h.conns :: h.conns[x].key !in h.conns[x].table
    ensures LinksOk(g) <==> !(h.conns[n].key in h.registry && HasLink(h.conns[h.registry[h.conns[n].key]]))
  {
    var key := h.conns[n].key;
    if key in h.registry && HasLink(h.conns[h.registry[key]]) {
      var prior := h.registry[key];
      var k :| k in h.conns[prior].table && h.conns[prior].table[k].status == 2;
      assert EntryOk(h, key, k, h.conns[prior].table[k]);
      var m := h.registry[k];
      assert !EntryOk(g, k, key, g.conns[m].table[key]);
    } else {
      forall x, k | x in g.conns && g.conns[x].phase == Confirmed && k in g.conns[x].table
        ensures EntryOk(g, g.conns[x].key, k, g.conns[x].table[k])
      {
        assert EntryOk(h, h.conns[x].key, k, h.conns[x].table[k]);
      }
    }
  }

  lemma ConfirmGoodExactly(h: Hub, n: nat, plain: seq<Byte>)
    requires Good(h) && n in h.conns && h.conns[n].phase == Unconfirmed && plain != []
    ensures Good(Confirm(h, n, plain).value) <==>
            !(h.conns[n].key in h.registry && HasLink(h.conns[h.registry[h.conns[n].key]]))
  {
    var g := Confirm(h, n, plain).value;
    ConfirmKeepsTables(h, n, plain);
    ConfirmHasShape(h, n, plain);
    ConfirmKeepsRegistry(h, g, n);
    assert forall x <- h.conns :: TableOk(h.conns[x]);
    ConfirmLinksExactly(h, g, n);
  }

  /** What closing changes in one connection. */
  ghost predicate ClosedAs(c: Conn, d: Conn, key: Key, down: bool, listed: bool) {
    && d.key == c.key
    && d.phase == (if down then Closed else c.phase)
    && d.table == if listed && key in c.table then c.table[key := Entry(c.table[key].connid, 1, 0)] else c.table
  }

  ghost predicate CloseShape(h: Hub, g: Hub, n: nat) {
    && n in h.conns
    && g.registry == h.registry - {h.conns[n].key}
    && g.conns.Keys == h.conns.Keys
    && (forall x <- h.conns :: ClosedAs(h.conns[x], g.conns[x], h.conns[n].key, x == n, x in g.registry.Values))
  }

  lemma CloseHasShape(h: Hub, n: nat)
    requires n in h.conns && (h.conns[n].phase == Unconfirmed || h.conns[n].phase == Confirmed)
    ensures CloseShape(h, Close(h, n), n)
  {
    var g := Close(h, n);
    forall x | x in h.conns ensures ClosedAs(h.conns[x], g.conns[x], h.conns[n].key, x == n, x in g.registry.Values) {
    }
  }

  lemma CloseKeepsRegistry(h: Hub, g: Hub, n: nat)
    requires RegistryOk(h) && CloseShape(h, g, n)
    requires h.conns[n].key in h.registry ==> h.registry[h.conns[n].key] == n
    requires h.conns[n].phase == Unconfirmed || h.conns[n].phase == Confirmed
    ensures RegistryOk(g)
  {
    assert forall x <- h.conns :: ClosedAs(h.conns[x], g.conns[x], h.conns[n].key, x == n, x in g.registry.Values);
  }

  lemma CloseKeepsLinks(h: Hub, g: Hub, n: nat)
    requires RegistryOk(h) && LinksOk(h) && CloseShape(h, g, n) && RegistryOk(g)
    ensures LinksOk(g)
  {
    forall x, k | x in g.conns && g.conns[x].phase == Confirmed && k in g.conns[x].table
      ensures EntryOk(g, g.conns[x].key, k, g.conns[x].table[k])
    {
      assert ClosedAs(h.conns[x], g.conns[x], h.conns[n].key, x == n, x in g.registry.Values);
      assert EntryOk(h, h.conns[x].key, k, h.conns[x].table[k]);
      assert g.registry[g.conns[x].key] == x;
      if k != h.conns[n].key && k in h.registry {
        var y := h.registry[k];
        assert ClosedAs(h.conns[y], g.conns[y], h.conns[n].key, y == n, y in g.registry.Values);
      }
    }
  }

  /** A close keeps symmetry exactly when no other connection is registered under its key. */
  lemma CloseGoodExactly(h: Hub, n: nat)
    requires Good(h) && n in h.conns && (h.conns[n].phase == Unconfirmed || h.conns[n].phase == Confirmed)
    ensures Good(Close(h, n)) <==> !(h.conns[n].phase == Unconfirmed && h.conns[n].key in h.registry)
  {
    var g, key := Close(h, n), h.conns[n].key;
    CloseHasShape(h, n);
    if h.conns[n].phase == Unconfirmed && key in h.registry {
      var y := h.registry[key];
      assert ClosedAs(h.conns[y], g.conns[y], key, false, y in g.registry.Values);
      assert !RegistryOk(g);
    } else {
      CloseKeepsTables(h, n);
      CloseKeepsRegistry(h, g, n);
      CloseKeepsLinks(h, g, n);
    }
  }

  // ---------------------------------------------------------------- one step, exactly

  /** The two ways two connections under one key can collide. */
  ghost predicate Clash(h: Hub, s: Step) {
    match s
    case First(n, _) =>
      && n in h.conns && h.conns[n].key in h.registry && h.registry[h.conns[n].key] in h.conns
      && HasLink(h.conns[h.registry[h.conns[n].key]])
    case Hangup(n) => n in h.conns && h.conns[n].phase == Unconfirmed && h.conns[n].key in h.registry
    case _ => false
  }

  /** From a good state a step leads to a good state exactly when it is no clash. */
  lemma StepGoodExactly(h: Hub, s: Step)
    requires Good(h) && Enabled(h, s) && Apply(h, s).Some?
    ensures Good(Apply(h, s).value) <==> !Clash(h, s)
  {
    match s
    case Accept(n) => FreshConnKeepsGood(h, n, NewConn());
    case Handshake(n, key) =>
      assert TableOk(h.conns[n]);
      FreshConnKeepsGood(h, n, h.conns[n].(phase := Unconfirmed, key := key));
    case First(n, plain) => ConfirmGoodExactly(h, n, plain);
    case Packet(n, plain, pick) => DispatchKeepsGood(h, n, plain, pick);
    case FlushCtrl(n) => QueueStepKeepsGood(h, Apply(h, s).value);
    case FlushData(n) => QueueStepKeepsGood(h, Apply(h, s).value);
    case Hangup(n) =>
      if h.conns[n].phase == NoStatus {
        assert TableOk(h.conns[n]);
        FreshConnKeepsGood(h, n, h.conns[n].(phase := Closed));
      } else {
        CloseGoodExactly(h, n);
      }
  }

  lemma FreshConnKeepsLinks(h: Hub, n: nat, c: Conn)
    requires RegistryOk(h) && LinksOk(h) && (n in h.conns ==> h.conns[n].phase == NoStatus) && c.phase != Confirmed
    ensures RegistryOk(SetConn(h, n, c)) && LinksOk(SetConn(h, n, c))
  {
    var g := SetConn(h, n, c);
    forall x, k | x in g.conns && g.conns[x].phase == Confirmed && k in g.conns[x].table
      ensures EntryOk(g, g.conns[x].key, k, g.conns[x].table[k])
    {
      assert EntryOk(h, h.conns[x].key, k, h.conns[x].table[k]);
    }
  }

  lemma FreshConnKeepsGood(h: Hub, n: nat, c: Conn)
    requires Good(h) && (n in h.conns ==> h.conns[n].phase == NoStatus) && c.phase != Confirmed
    requires c.table == map[] && c.byId == map[] && c.used == {}
    ensures Good(SetConn(h, n, c))
  {
    FreshConnKeepsLinks(h, n, c);
    assert TableOk(c);
  }
}

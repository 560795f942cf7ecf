/**
 What the handlers of the switchboard change, connection by connection: the shapes of their
 results, without the queues. The invariants are proved from these.
 */
module SwitchboardShapes {
  import opened Bytes
  import opened Switchboard

  ghost predicate SameRoles(h: Hub, g: Hub) {
    && g.registry == h.registry && g.conns.Keys == h.conns.Keys
    && (forall x <- h.conns :: g.conns[x].phase == h.conns[x].phase && g.conns[x].key == h.conns[x].key)
  }

  /** Only the tables of `n` and `m` differ, and become `t` and `u`. */
  ghost predicate TablesAs(h: Hub, g: Hub, n: nat, t: map<Key, Entry>, m: nat, u: map<Key, Entry>) {
    && n in h.conns && m in h.conns && SameRoles(h, g)
    && g.conns[n].table == t && g.conns[m].table == u
    && (forall x <- h.conns :: x != n && x != m ==> g.conns[x].table == h.conns[x].table)
  }

  lemma PushKeepsTablesAs(h: Hub, g: Hub, n: nat, t: map<Key, Entry>, m: nat, u: map<Key, Entry>,
    x: nat, pkt: seq<Byte>)
    requires TablesAs(h, g, n, t, m, u) && x in g.conns
    ensures TablesAs(h, PushCtrl(g, x, pkt), n, t, m, u)
  {
  }

  lemma SetLinkTables(h: Hub, n: nat, k: Key, status: Byte, otherid: Byte)
    requires n in h.conns && k in h.conns[n].table
    ensures var t := h.conns[n].table[k := Entry(h.conns[n].table[k].connid, status, otherid)];
      TablesAs(h, SetLink(h, n, k, status, otherid), n, t, n, t)
  {
  }

  /** Two single changes make one change of a pair. */
  lemma TablesThen(h: Hub, h1: Hub, g: Hub, n: nat, t: map<Key, Entry>, m: nat, u: map<Key, Entry>)
    requires TablesAs(h, h1, n, t, n, t) && n != m && TablesAs(h1, g, m, u, m, u)
    ensures TablesAs(h, g, n, t, m, u)
  {
  }

  lemma SetPairTables(h: Hub, n: nat, k: Key, m: nat, k2: Key, e: (Byte, Byte), f: (Byte, Byte))
    requires n in h.conns && m in h.conns && n != m && k in h.conns[n].table && k2 in h.conns[m].table
    ensures var h1 := SetLink(h, n, k, e.0, e.1);
      && k2 in h1.conns[m].table
      && TablesAs(h, SetLink(h1, m, k2, f.0, f.1), n,
        h.conns[n].table[k := Entry(h.conns[n].table[k].connid, e.0, e.1)],
                  m, h.conns[m].table[k2 := Entry(h.conns[m].table[k2].connid, f.0, f.1)])
  {
    var h1 := SetLink(h, n, k, e.0, e.1);
    SetLinkTables(h, n, k, e.0, e.1);
    SetLinkTables(h1, m, k2, f.0, f.1);
    TablesThen(h, h1, SetLink(h1, m, k2, f.0, f.1), n, h1.conns[n].table, m,
      SetLink(h1, m, k2, f.0, f.1).conns[m].table);
  }

  lemma LinkUpTables(h: Hub, n: nat, peer: Key, m: nat)
    requires n in h.conns && m in h.conns && n != m && peer in h.conns[n].table && h.conns[n].key in h.conns[m].table
    ensures var key, id, id2 := h.conns[n].key, h.conns[n].table[peer].connid, h.conns[m].table[h.conns[n].key].connid;
      TablesAs(h, LinkUp(h, n, peer, m), n, h.conns[n].table[peer := Entry(id, 2, id2)],
               m, h.conns[m].table[key := Entry(id2, 2, id)])
  {
    var key, id, id2 := h.conns[n].key, h.conns[n].table[peer].connid, h.conns[m].table[h.conns[n].key].connid;
    var h1 := SetLink(SetLink(h, n, peer, 2, id2), m, key, 2, id);
    var t, u := h.conns[n].table[peer := Entry(id, 2, id2)], h.conns[m].table[key := Entry(id2, 2, id)];
    SetPairTables(h, n, peer, m, key, (2, id2), (2, id));
    PushKeepsTablesAs(h, h1, n, t, m, u, n, [CONNECTION_NOTIFICATION, id]);
    PushKeepsTablesAs(h, PushCtrl(h1, n, [CONNECTION_NOTIFICATION, id]), n, t, m, u, m, [CONNECTION_NOTIFICATION, id2]);
  }

  lemma TakeDownTables(h: Hub, n: nat, k: Key, m: nat, k2: Key)
    requires n in h.conns && m in h.conns && n != m && k in h.conns[n].table && k2 in h.conns[m].table
    ensures TablesAs(h, TakeDown(h, n, k, m, k2), m, h.conns[m].table[k2 := Entry(h.conns[m].table[k2].connid, 1, 0)],
                     n, h.conns[n].table[k := Entry(h.conns[n].table[k].connid, 1, 0)])
  {
    var h1 := SetLink(SetLink(h, m, k2, 1, 0), n, k, 1, 0);
    var t, u := h.conns[m].table[k2 := Entry(h.conns[m].table[k2].connid, 1, 0)],
                h.conns[n].table[k := Entry(h.conns[n].table[k].connid, 1, 0)];
    SetPairTables(h, m, k2, n, k, (1, 0), (1, 0));
    PushKeepsTablesAs(h, h1, m, t, n, u, m, [DISCONNECT_NOTIFICATION, h.conns[m].table[k2].connid]);
  }

  /** A new peer is entered, and idle when nothing links it. */
  lemma EnteredTables(h: Hub, n: nat, peer: Key, pick: Byte)
    requires n in h.conns && pick < NUM_CLIENT_CONNECTIONS
    ensures var t := h.conns[n].table[peer := Entry(pick + NUM_RESERVED_PORTS, 1, 0)];
      TablesAs(h, Entered(h, n, peer, pick), n, t, n, t)
  {
    var h1, t := AddEntry(h, n, peer, pick), h.conns[n].table[peer := Entry(pick + NUM_RESERVED_PORTS, 1, 0)];
    assert TablesAs(h, h1, n, t, n, t);
    PushKeepsTablesAs(h, h1, n, t, n, t, n, RoutingResponse(pick + NUM_RESERVED_PORTS, peer));
  }

  /** The registered connection of `peer` has asked for the key of `n`. */
  ghost predicate HasAsked(h: Hub, n: nat, peer: Key) {
    && n in h.conns && peer in h.registry && h.registry[peer] in h.conns
    && h.conns[n].key in h.conns[h.registry[peer]].table
  }

  /** What `TryLink` does: it links the two entries, or nothing. */
  lemma TryLinkShape(h: Hub, n: nat, peer: Key)
    requires Wf(h) && n in h.conns && peer in h.conns[n].table && h.conns[n].key !in h.conns[n].table
    ensures if HasAsked(h, n, peer) then LinkedShape(h, TryLink(h, n, peer), n, peer) else TryLink(h, n, peer) == h
  {
    if peer in h.registry && h.conns[n].key in h.conns[h.registry[peer]].table {
      LinkUpTables(h, n, peer, h.registry[peer]);
    }
  }

  ghost predicate LinkedShape(h: Hub, g: Hub, n: nat, peer: Key) {
    && n in h.conns && peer in h.registry && h.registry[peer] in h.conns && h.registry[peer] != n
    && var m, key := h.registry[peer], h.conns[n].key;
    && peer in h.conns[n].table && key in h.conns[m].table
    && var id, id2 := h.conns[n].table[peer].connid, h.conns[m].table[key].connid;
    && TablesAs(h, g, n, h.conns[n].table[peer := Entry(id, 2, id2)], m, h.conns[m].table[key := Entry(id2, 2, id)])
  }

  // ---------------------------------------------------------------- phases, keys and the registry

  lemma SetLinkSameRoles(h: Hub, n: nat, k: Key, status: Byte, otherid: Byte)
    requires n in h.conns && k in h.conns[n].table
    ensures SameRoles(h, SetLink(h, n, k, status, otherid))
  {
  }

  lemma PushSameRoles(h: Hub, n: nat, pkt: seq<Byte>)
    requires n in h.conns
    ensures SameRoles(h, PushCtrl(h, n, pkt))
  {
  }

  lemma SameRolesThen(h: Hub, h1: Hub, g: Hub)
    requires SameRoles(h, h1) && SameRoles(h1, g)
    ensures SameRoles(h, g)
  {
  }

  lemma SetPairSameRoles(h: Hub, n: nat, k: Key, m: nat, k2: Key, e: (Byte, Byte), f: (Byte, Byte))
    requires n in h.conns && m in h.conns && k in h.conns[n].table && k2 in h.conns[m].table
    ensures var h1 := SetLink(h, n, k, e.0, e.1); k2 in h1.conns[m].table && SameRoles(h, SetLink(h1, m, k2, f.0, f.1))
  {
    var h1 := SetLink(h, n, k, e.0, e.1);
    SetLinkSameRoles(h, n, k, e.0, e.1);
    SetLinkSameRoles(h1, m, k2, f.0, f.1);
    SameRolesThen(h, h1, SetLink(h1, m, k2, f.0, f.1));
  }

  lemma LinkUpSameRoles(h: Hub, n: nat, peer: Key, m: nat)
    requires n in h.conns && m in h.conns && peer in h.conns[n].table && h.conns[n].key in h.conns[m].table
    ensures SameRoles(h, LinkUp(h, n, peer, m))
  {
    var key, id, id2 := h.conns[n].key, h.conns[n].table[peer].connid, h.conns[m].table[h.conns[n].key].connid;
    var h1 := SetLink(SetLink(h, n, peer, 2, id2), m, key, 2, id);
    var h2 := PushCtrl(h1, n, [CONNECTION_NOTIFICATION, id]);
    SetPairSameRoles(h, n, peer, m, key, (2, id2), (2, id));
    PushSameRoles(h1, n, [CONNECTION_NOTIFICATION, id]);
    PushSameRoles(h2, m, [CONNECTION_NOTIFICATION, id2]);
    SameRolesThen(h, h1, h2);
    SameRolesThen(h, h2, LinkUp(h, n, peer, m));
  }

  lemma TakeDownSameRoles(h: Hub, n: nat, k: Key, m: nat, k2: Key)
    requires n in h.conns && m in h.conns && k in h.conns[n].table && k2 in h.conns[m].table
    ensures SameRoles(h, TakeDown(h, n, k, m, k2))
  {
    var h1, pkt := SetLink(SetLink(h, m, k2, 1, 0), n, k, 1, 0), [DISCONNECT_NOTIFICATION, h.conns[m].table[k2].connid];
    SetPairSameRoles(h, m, k2, n, k, (1, 0), (1, 0));
    PushSameRoles(h1, m, pkt);
    SameRolesThen(h, h1, PushCtrl(h1, m, pkt));
  }

  lemma RequestSameRoles(h: Hub, n: nat, peer: Key, pick: Byte)
    requires Wf(h) && n in h.conns && PickOk(h.conns[n], pick)
    ensures SameRoles(h, RequestRoute(h, n, peer, pick))
  {
    var c := h.conns[n];
    if peer != c.key && !(peer in c.table && c.table[peer].status > 0) && FreeIds(c) != {} {
      NewRouteSameRoles(h, n, peer, pick);
    }
  }

  lemma NewRouteSameRoles(h: Hub, n: nat, peer: Key, pick: Byte)
    requires Wf(h) && n in h.conns && pick < NUM_CLIENT_CONNECTIONS
    ensures SameRoles(h, NewRoute(h, n, peer, pick))
  {
    var h1 := Entered(h, n, peer, pick);
    EnteredTables(h, n, peer, pick);
    TryLinkSameRoles(h1, n, peer);
    SameRolesThen(h, h1, TryLink(h1, n, peer));
  }

  lemma TryLinkSameRoles(h: Hub, n: nat, peer: Key)
    requires Wf(h) && n in h.conns && peer in h.conns[n].table
    ensures SameRoles(h, TryLink(h, n, peer))
  {
    if peer in h.registry && h.conns[n].key in h.conns[h.registry[peer]].table {
      LinkUpSameRoles(h, n, peer, h.registry[peer]);
    }
  }

  lemma DisconnectSameRoles(h: Hub, n: nat, connid: Byte)
    requires Wf(h) && n in h.conns && Disconnect(h, n, connid).Some?
    ensures SameRoles(h, Disconnect(h, n, connid).value)
  {
    var k := h.conns[n].byId[connid];
    if k in h.registry && h.conns[n].table[k].otherid in h.conns[h.registry[k]].byId {
      var m := h.registry[k];
      TakeDownSameRoles(h, n, k, m, h.conns[m].byId[h.conns[n].table[k].otherid]);
    }
  }

  lemma DispatchSameRoles(h: Hub, n: nat, plain: seq<Byte>, pick: Byte)
    requires Wf(h) && n in h.conns && PickOk(h.conns[n], pick) && Dispatch(h, n, plain, pick).Some?
    ensures SameRoles(h, Dispatch(h, n, plain, pick).value)
  {
    if plain[0] == ROUTING_REQUEST {
      RequestSameRoles(h, n, plain[1..33], pick);
    } else if plain[0] == DISCONNECT_NOTIFICATION {
      DisconnectSameRoles(h, n, plain[1]);
    }
  }

  // ---------------------------------------------------------------- confirmation

  /** Connection `x` once `n` has its pong and its new status. */
  lemma RaisedConn(h: Hub, n: nat, plain: seq<Byte>, x: nat)
    requires n in h.conns && plain != [] && x in h.conns
    ensures Raise(h, n, plain).conns[x].(ctrl := []) ==
      h.conns[x].(ctrl := [], phase := if x == n then Confirmed else h.conns[x].phase)
  {
  }

  /** What confirming changes, connection by connection. */
  ghost predicate ConfirmShape(h: Hub, g: Hub, n: nat) {
    && n in h.conns
    && var key := h.conns[n].key;
    && (key in h.registry ==> h.registry[key] in h.conns && h.registry[key] != n)
    && g.registry == h.registry[key := n]
    && g.conns.Keys == h.conns.Keys
    && (forall x <- h.conns :: ConfirmedAs(h, g, n, x))
  }

  ghost predicate ConfirmedAs(h: Hub, g: Hub, n: nat, x: nat)
    requires n in h.conns && x in h.conns && x in g.conns
  {
    var key := h.conns[n].key;
    && g.conns[x].table == h.conns[x].table && g.conns[x].key == h.conns[x].key
    && g.conns[x].phase ==
       (if x == n then Confirmed else if key in h.registry && x == h.registry[key] then Closed else h.conns[x].phase)
  }

  lemma ConfirmHasShape(h: Hub, n: nat, plain: seq<Byte>)
    requires Wf(h) && n in h.conns && plain != []
    requires h.conns[n].key in h.registry ==> h.registry[h.conns[n].key] != n
    ensures ConfirmShape(h, Confirm(h, n, plain).value, n)
  {
    var up, g := Raise(h, n, plain), Confirm(h, n, plain).value;
    RaisedConn(h, n, plain, n);
    forall x | x in h.conns ensures x in g.conns && ConfirmedAs(h, g, n, x) {
      RaisedConn(h, n, plain, x);
    }
  }
}

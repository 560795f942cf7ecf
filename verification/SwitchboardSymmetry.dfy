/**
 Link symmetry by itself: exactly which steps break it, and over which runs it holds throughout.
 Of the registry only the half that survives every step is used, so the condition covers runs
 in which two connections have collided under one key.
 */
module SwitchboardSymmetry {
  import opened Bytes
  import opened Switchboard
  import opened SwitchboardShapes
  import opened SwitchboardInvariants
  import opened SwitchboardRuns
  import opened SwitchboardRouting

  /** What holds in every state while links are symmetric, whether or not the registry is exact. */
  ghost predicate Core(h: Hub) {
    TablesOk(h) && Listed(h) && LinksOk(h)
  }

  /** An open connection has a link to `k`. */
  ghost predicate LinkedTo(h: Hub, x: nat, k: Key) {
    x in h.conns && h.conns[x].phase == Confirmed && k in h.conns[x].table && h.conns[x].table[k].status == 2
  }

  ghost predicate Registered(h: Hub, x: nat) {
    x in h.conns && h.conns[x].key in h.registry && h.registry[h.conns[x].key] == x
  }

  // ---------------------------------------------------------------- the steps that break symmetry

  /** The connection pushed out by a confirmation has a link. */
  ghost predicate ConfirmBreaks(h: Hub, n: nat) {
    && n in h.conns && h.conns[n].key in h.registry && h.registry[h.conns[n].key] in h.conns
    && HasLink(h.conns[h.registry[h.conns[n].key]])
  }

  /**
   A close takes the key out of the registry and resets entries of registered connections only:
   another holder of the key keeps its links, and so does an unregistered peer of the key.
   */
  ghost predicate CloseBreaks(h: Hub, n: nat) {
    && n in h.conns && h.conns[n].phase != NoStatus
    && exists x, k :: x != n && LinkedTo(h, x, k) && Touched(h, x, k, h.conns[n].key)
  }

  ghost predicate Touched(h: Hub, x: nat, k: Key, key: Key)
    requires x in h.conns
  {
    h.conns[x].key == key || (k == key && !Registered(h, x))
  }

  /** The registered connection of the key of `n` has a link to `peer` under the ids a new link would get. */
  ghost predicate Twin(h: Hub, n: nat, peer: Key, id: Byte, id2: Byte)
    requires n in h.conns
  {
    && h.conns[n].key in h.registry && h.registry[h.conns[n].key] in h.conns
    && peer in h.conns[h.registry[h.conns[n].key]].table
    && h.conns[h.registry[h.conns[n].key]].table[peer] == Entry(id, 2, id2)
  }

  /**
   An open connection that is not the registered one of its key asks for a peer that has asked
   for the key, unless the registered one already has that very link under the same id.
   */
  ghost predicate RequestBreaks(h: Hub, n: nat, peer: Key, pick: Byte) {
    && n in h.conns && pick < NUM_CLIENT_CONNECTIONS
    && var c := h.conns[n];
    && peer != c.key && peer !in c.table && FreeIds(c) != {}
    && peer in h.registry && h.registry[peer] in h.conns
    && var t := h.conns[h.registry[peer]].table;
    && c.key in t && !Registered(h, n) && !Twin(h, n, peer, pick + NUM_RESERVED_PORTS, t[c.key].connid)
  }

  /** Another connection under one of the two keys has a copy of the link between `n` and `m`. */
  ghost predicate Copied(h: Hub, n: nat, m: nat, x: nat)
    requires n in h.conns && m in h.conns
  {
    || (x != n && LinkedTo(h, x, h.conns[m].key) && h.conns[x].key == h.conns[n].key)
    || (x != m && LinkedTo(h, x, h.conns[n].key) && h.conns[x].key == h.conns[m].key)
  }

  /** A link is taken down of which another connection has a copy. */
  ghost predicate DisconnectBreaks(h: Hub, n: nat, connid: Byte) {
    && n in h.conns && connid in h.conns[n].byId
    && var k := h.conns[n].byId[connid];
    && LinkedTo(h, n, k) && k in h.registry && h.registry[k] in h.conns
    && exists x :: Copied(h, n, h.registry[k], x)
  }

  /** The guards of the steps that leave a link without its mirror image. */
  ghost predicate Breaks(h: Hub, s: Step) {
    match s
    case First(n, _) => ConfirmBreaks(h, n)
    case Hangup(n) => CloseBreaks(h, n)
    case Packet(n, plain, pick) =>
      || (|plain| >= 33 && plain[0] == ROUTING_REQUEST && RequestBreaks(h, n, plain[1..33], pick))
      || (|plain| >= 2 && plain[0] == DISCONNECT_NOTIFICATION && DisconnectBreaks(h, n, plain[1]))
    case _ => false
  }

  // ---------------------------------------------------------------- confirmation and close

  /** No connection has an entry for its own key. */
  ghost predicate NoSelf(h: Hub) {
    forall x <- h.conns :: h.conns[x].key !in h.conns[x].table
  }

  /** Where a linked entry finds its mirror image. */
  lemma MirrorOf(h: Hub, x: nat, k: Key) returns (m: nat)
    requires LinksOk(h) && Listed(h) && LinkedTo(h, x, k)
    ensures k in h.registry && m == h.registry[k] && LinkedTo(h, m, h.conns[x].key) && h.conns[m].key == k
    ensures h.conns[m].table[h.conns[x].key] == Entry(h.conns[x].table[k].otherid, 2, h.conns[x].table[k].connid)
  {
    assert EntryOk(h, h.conns[x].key, k, h.conns[x].table[k]);
    m := h.registry[k];
  }

  /** Symmetry holds when every link has its mirror image and every other entry is idle. */
  lemma LinksOkFrom(g: Hub)
    requires forall x, k | x in g.conns && g.conns[x].phase == Confirmed && k in g.conns[x].table ::
      SymmetricAt(g, x, k)
    ensures LinksOk(g)
  {
  }

  ghost predicate SymmetricAt(h: Hub, x: nat, k: Key)
    requires x in h.conns && k in h.conns[x].table
  {
    EntryOk(h, h.conns[x].key, k, h.conns[x].table[k])
  }

  lemma BrokenAt(g: Hub, x: nat, k: Key)
    requires x in g.conns && g.conns[x].phase == Confirmed && k in g.conns[x].table && !SymmetricAt(g, x, k)
    ensures !LinksOk(g)
  {
  }

  lemma ConfirmExactly(h: Hub, g: Hub, n: nat)
    requires NoSelf(h) && Listed(h) && LinksOk(h) && ConfirmShape(h, g, n)
    requires h.conns[n].phase == Unconfirmed && h.conns[n].table == map[]
    ensures LinksOk(g) <==> !ConfirmBreaks(h, n)
  {
    if ConfirmBreaks(h, n) {
      ConfirmCuts(h, g, n);
    } else {
      forall x, k | x in g.conns && g.conns[x].phase == Confirmed && k in g.conns[x].table
        ensures SymmetricAt(g, x, k)
      {
        assert SymmetricAt(h, x, k);
        if k == h.conns[n].key && LinkedTo(h, x, k) { var m := MirrorOf(h, x, k); }
      }
      LinksOkFrom(g);
    }
  }

  lemma ConfirmCuts(h: Hub, g: Hub, n: nat)
    requires NoSelf(h) && Listed(h) && LinksOk(h) && ConfirmShape(h, g, n) && ConfirmBreaks(h, n)
    requires h.conns[n].phase == Unconfirmed && h.conns[n].table == map[]
    ensures !LinksOk(g)
  {
    var key := h.conns[n].key;
    var prior := h.registry[key];
    var k :| k in h.conns[prior].table && h.conns[prior].table[k].status == 2;
    var m := MirrorOf(h, prior, k);
    BrokenAt(g, m, key);
  }

  lemma CloseExactly(h: Hub, g: Hub, n: nat)
    requires NoSelf(h) && Listed(h) && LinksOk(h) && CloseShape(h, g, n)
    requires h.conns[n].phase == Unconfirmed || h.conns[n].phase == Confirmed
    ensures LinksOk(g) <==> !CloseBreaks(h, n)
  {
    var key := h.conns[n].key;
    if CloseBreaks(h, n) {
      var x, k :| x != n && LinkedTo(h, x, k) && Touched(h, x, k, key);
      CloseCuts(h, g, n, x, k);
    } else {
      forall x, k | x in g.conns && g.conns[x].phase == Confirmed && k in g.conns[x].table
        ensures SymmetricAt(g, x, k)
      {
        CloseSpares(h, g, n, x, k);
      }
      LinksOkFrom(g);
    }
  }

  lemma CloseCuts(h: Hub, g: Hub, n: nat, x: nat, k: Key)
    requires NoSelf(h) && Listed(h) && LinksOk(h) && CloseShape(h, g, n)
    requires x != n && LinkedTo(h, x, k) && Touched(h, x, k, h.conns[n].key)
    ensures !LinksOk(g)
  {
    var key := h.conns[n].key;
    var m := MirrorOf(h, x, k);
    assert ClosedAs(h.conns[x], g.conns[x], key, false, x in g.registry.Values);
    assert ClosedAs(h.conns[m], g.conns[m], key, m == n, m in g.registry.Values);
    assert x !in g.registry.Values;
    if k != key { assert g.registry[k] == m; }
    BrokenAt(g, x, k);
  }

  lemma CloseSpares(h: Hub, g: Hub, n: nat, x: nat, k: Key)
    requires NoSelf(h) && Listed(h) && LinksOk(h) && CloseShape(h, g, n) && !CloseBreaks(h, n)
    requires h.conns[n].phase == Unconfirmed || h.conns[n].phase == Confirmed
    requires x in g.conns && g.conns[x].phase == Confirmed && k in g.conns[x].table
    ensures SymmetricAt(g, x, k)
  {
    var key := h.conns[n].key;
    assert ClosedAs(h.conns[x], g.conns[x], key, x == n, x in g.registry.Values);
    assert SymmetricAt(h, x, k);
    if h.conns[x].table[k].status == 2 {
      assert LinkedTo(h, x, k) && !Touched(h, x, k, key);
      var m := MirrorOf(h, x, k);
      assert ClosedAs(h.conns[m], g.conns[m], key, m == n, m in g.registry.Values);
      if k == key {
        assert g.registry[h.conns[x].key] == x;
      } else {
        assert g.registry[k] == m;
      }
    }
  }

  // ---------------------------------------------------------------- requests

  /** The tables after a request that takes a new id and finds that the peer has asked before. */
  lemma RequestLinks(h: Hub, n: nat, peer: Key, pick: Byte, m: nat)
    requires Wf(h) && n in h.conns && pick < NUM_CLIENT_CONNECTIONS && h.conns[n].key !in h.conns[n].table
    requires peer != h.conns[n].key && peer !in h.conns[n].table
    requires peer in h.registry && m == h.registry[peer] && n != m && h.conns[n].key in h.conns[m].table
    ensures var key, id, id2 := h.conns[n].key, pick + NUM_RESERVED_PORTS, h.conns[m].table[h.conns[n].key].connid;
      TablesAs(h, NewRoute(h, n, peer, pick), n, h.conns[n].table[peer := Entry(id, 2, id2)],
               m, h.conns[m].table[key := Entry(id2, 2, id)])
  {
    var h1, id2 := Entered(h, n, peer, pick), h.conns[m].table[h.conns[n].key].connid;
    EnteredTables(h, n, peer, pick);
    LinkUpTables(h1, n, peer, m);
    LinkedAfter(h, h1, LinkUp(h1, n, peer, m), n, peer, m, pick + NUM_RESERVED_PORTS, id2);
  }

  lemma LinkedAfter(h: Hub, h1: Hub, g: Hub, n: nat, peer: Key, m: nat, id: Byte, id2: Byte)
    requires n in h.conns && m in h.conns && n != m && h.conns[n].key in h.conns[m].table
    requires var t := h.conns[n].table[peer := Entry(id, 1, 0)]; TablesAs(h, h1, n, t, n, t)
    requires TablesAs(h1, g, n, h1.conns[n].table[peer := Entry(id, 2, id2)],
                      m, h1.conns[m].table[h.conns[n].key := Entry(id2, 2, id)])
    ensures TablesAs(h, g, n, h.conns[n].table[peer := Entry(id, 2, id2)],
                     m, h.conns[m].table[h.conns[n].key := Entry(id2, 2, id)])
  {
    Overwritten(h.conns[n].table, peer, Entry(id, 1, 0), Entry(id, 2, id2));
  }

  lemma Overwritten(t: map<Key, Entry>, k: Key, e: Entry, f: Entry)
    ensures t[k := e][k := f] == t[k := f]
  {
  }

  lemma RequestAdds(h: Hub, n: nat, peer: Key, pick: Byte)
    requires Wf(h) && n in h.conns && pick < NUM_CLIENT_CONNECTIONS && h.conns[n].key !in h.conns[n].table
    requires peer != h.conns[n].key && peer !in h.conns[n].table
    requires !(peer in h.registry && h.conns[n].key in h.conns[h.registry[peer]].table)
    ensures var t := h.conns[n].table[peer := Entry(pick + NUM_RESERVED_PORTS, 1, 0)];
      TablesAs(h, NewRoute(h, n, peer, pick), n, t, n, t)
  {
    EnteredTables(h, n, peer, pick);
  }

  /** An idle entry more is symmetric. */
  lemma AddedIsSymmetric(h: Hub, g: Hub, n: nat, peer: Key, id: Byte)
    requires LinksOk(h) && n in h.conns && peer !in h.conns[n].table
    requires var t := h.conns[n].table[peer := Entry(id, 1, 0)]; TablesAs(h, g, n, t, n, t)
    ensures LinksOk(g)
  {
    forall x, k | x in g.conns && g.conns[x].phase == Confirmed && k in g.conns[x].table ensures SymmetricAt(g, x, k) {
      if x != n || k != peer { assert SymmetricAt(h, x, k); }
    }
    LinksOkFrom(g);
  }

  /** What linking a new entry of `n` with the entry of `m` starts from and ends in. */
  ghost predicate Linking(h: Hub, g: Hub, n: nat, peer: Key, m: nat, id: Byte, id2: Byte) {
    && NoSelf(h) && Listed(h) && LinksOk(h) && n in h.conns && n != m
    && peer != h.conns[n].key && peer !in h.conns[n].table
    && peer in h.registry && m == h.registry[peer] && m in h.conns && h.conns[n].key in h.conns[m].table
    && h.conns[m].table[h.conns[n].key].connid == id2
    && TablesAs(h, g, n, h.conns[n].table[peer := Entry(id, 2, id2)], m,
      h.conns[m].table[h.conns[n].key := Entry(id2, 2, id)])
  }

  lemma LinkCuts(h: Hub, g: Hub, n: nat, peer: Key, m: nat, id: Byte, id2: Byte)
    requires Linking(h, g, n, peer, m, id, id2) && !Registered(h, n) && !Twin(h, n, peer, id, id2)
    ensures !LinksOk(g)
  {
    var key := h.conns[n].key;
    assert g.conns[m].phase == Confirmed && g.conns[m].table[key] == Entry(id2, 2, id);
    BrokenAt(g, m, key);
  }

  lemma LinkSpares(h: Hub, g: Hub, n: nat, peer: Key, m: nat, id: Byte, id2: Byte, x: nat, k: Key)
    requires Linking(h, g, n, peer, m, id, id2) && (Registered(h, n) || Twin(h, n, peer, id, id2))
    requires x in g.conns && g.conns[x].phase == Confirmed && k in g.conns[x].table
    ensures SymmetricAt(g, x, k)
  {
    var key := h.conns[n].key;
    if (x == n && k == peer) || (x == m && k == key) {
      assert g.conns[m].table[key] == Entry(id2, 2, id);
    } else {
      assert k in h.conns[x].table && g.conns[x].table[k] == h.conns[x].table[k];
      assert SymmetricAt(h, x, k);
      if LinkedTo(h, x, k) {
        var y := MirrorOf(h, x, k);
        MirrorStays(h, g, n, peer, m, id, id2, x, k, y);
      }
    }
  }

  /** The mirror image of an old link is still there. */
  lemma MirrorStays(h: Hub, g: Hub, n: nat, peer: Key, m: nat, id: Byte, id2: Byte, x: nat, k: Key, y: nat)
    requires Linking(h, g, n, peer, m, id, id2) && (Registered(h, n) || Twin(h, n, peer, id, id2))
    requires LinkedTo(h, x, k) && k in h.registry && y == h.registry[k] && LinkedTo(h, y, h.conns[x].key)
    requires !(x == m && k == h.conns[n].key)
    ensures g.conns[y].table[h.conns[x].key] == h.conns[y].table[h.conns[x].key]
  {
    var key := h.conns[n].key;
    if y == m && h.conns[x].key == key {
      var z := MirrorOf(h, m, key);
      assert z == h.registry[key];
    }
  }

  lemma RequestExactly(h: Hub, n: nat, peer: Key, pick: Byte)
    requires Wf(h) && NoSelf(h) && Listed(h) && LinksOk(h) && n in h.conns && PickOk(h.conns[n], pick)
    requires forall k <- h.conns[n].table :: h.conns[n].table[k].status > 0
    ensures LinksOk(RequestRoute(h, n, peer, pick)) <==> !RequestBreaks(h, n, peer, pick)
  {
    var c := h.conns[n];
    if peer == c.key || peer in c.table || FreeIds(c) == {} {
      KnownPeerQueueStep(h, n, peer, pick);
      QueueStepKeepsGood(h, RequestRoute(h, n, peer, pick));
    } else {
      RequestIsNew(h, n, peer, pick);
      NewRouteHasShape(h, n, peer, pick);
      NewRouteExactly(h, NewRoute(h, n, peer, pick), n, peer, pick);
    }
  }

  lemma RequestIsNew(h: Hub, n: nat, peer: Key, pick: Byte)
    requires Wf(h) && n in h.conns && pick in FreeIds(h.conns[n])
    requires peer != h.conns[n].key && peer !in h.conns[n].table
    ensures RequestRoute(h, n, peer, pick) == NewRoute(h, n, peer, pick)
  {
  }

  /** The tables after a request that takes a new id. */
  ghost predicate NewRouteShape(h: Hub, g: Hub, n: nat, peer: Key, id: Byte)
    requires n in h.conns
  {
    var key, t := h.conns[n].key, h.conns[n].table;
    if HasAsked(h, n, peer) then
      var m := h.registry[peer];
      var id2 := h.conns[m].table[key].connid;
      TablesAs(h, g, n, t[peer := Entry(id, 2, id2)], m, h.conns[m].table[key := Entry(id2, 2, id)])
    else TablesAs(h, g, n, t[peer := Entry(id, 1, 0)], n, t[peer := Entry(id, 1, 0)])
  }

  lemma NewRouteHasShape(h: Hub, n: nat, peer: Key, pick: Byte)
    requires Wf(h) && n in h.conns && pick < NUM_CLIENT_CONNECTIONS && h.conns[n].key !in h.conns[n].table
    requires peer != h.conns[n].key && peer !in h.conns[n].table
    ensures NewRouteShape(h, NewRoute(h, n, peer, pick), n, peer, pick + NUM_RESERVED_PORTS)
  {
    if HasAsked(h, n, peer) {
      RequestLinks(h, n, peer, pick, h.registry[peer]);
    } else {
      RequestAdds(h, n, peer, pick);
    }
  }

  lemma NewRouteExactly(h: Hub, g: Hub, n: nat, peer: Key, pick: Byte)
    requires NoSelf(h) && Listed(h) && LinksOk(h) && n in h.conns && pick in FreeIds(h.conns[n])
    requires peer != h.conns[n].key && peer !in h.conns[n].table
    requires NewRouteShape(h, g, n, peer, pick + NUM_RESERVED_PORTS)
    ensures LinksOk(g) <==> !RequestBreaks(h, n, peer, pick)
  {
    if HasAsked(h, n, peer) {
      var m := h.registry[peer];
      LinkExactly(h, g, n, peer, m, pick + NUM_RESERVED_PORTS, h.conns[m].table[h.conns[n].key].connid);
    } else {
      AddedIsSymmetric(h, g, n, peer, pick + NUM_RESERVED_PORTS);
    }
  }

  lemma LinkExactly(h: Hub, g: Hub, n: nat, peer: Key, m: nat, id: Byte, id2: Byte)
    requires Linking(h, g, n, peer, m, id, id2)
    ensures LinksOk(g) <==> Registered(h, n) || Twin(h, n, peer, id, id2)
  {
    if Registered(h, n) || Twin(h, n, peer, id, id2) {
      forall x, k | x in g.conns && g.conns[x].phase == Confirmed && k in g.conns[x].table
        ensures SymmetricAt(g, x, k)
      {
        LinkSpares(h, g, n, peer, m, id, id2, x, k);
      }
      LinksOkFrom(g);
    } else {
      LinkCuts(h, g, n, peer, m, id, id2);
    }
  }

  // ---------------------------------------------------------------- disconnects

  /** What taking down the link between `n` and `m` starts from and ends in. */
  ghost predicate Parting(h: Hub, g: Hub, n: nat, m: nat) {
    && NoSelf(h) && Listed(h) && LinksOk(h) && n in h.conns && m in h.conns && n != m
    && var key, k := h.conns[n].key, h.conns[m].key;
    && LinkedTo(h, n, k) && k in h.registry && h.registry[k] == m && LinkedTo(h, m, key)
    && TablesAs(h, g, n, h.conns[n].table[k := Entry(h.conns[n].table[k].connid, 1, 0)],
                m, h.conns[m].table[key := Entry(h.conns[m].table[key].connid, 1, 0)])
  }

  lemma PartingCuts(h: Hub, g: Hub, n: nat, m: nat, x: nat)
    requires Parting(h, g, n, m) && Copied(h, n, m, x)
    ensures !LinksOk(g)
  {
    var key, k := h.conns[n].key, h.conns[m].key;
    var y := MirrorOf(h, m, key);
    if x != n && h.conns[x].key == key && LinkedTo(h, x, k) {
      BrokenAt(g, x, k);
    } else if y == n {
      BrokenAt(g, x, key);
    } else {
      BrokenAt(g, y, k);
    }
  }

  lemma PartingSpares(h: Hub, g: Hub, n: nat, m: nat, x: nat, k: Key)
    requires Parting(h, g, n, m) && !Copied(h, n, m, x)
    requires x in g.conns && g.conns[x].phase == Confirmed && k in g.conns[x].table
    ensures SymmetricAt(g, x, k)
  {
    if !(x == n && k == h.conns[m].key) && !(x == m && k == h.conns[n].key) {
      assert SymmetricAt(h, x, k);
      if LinkedTo(h, x, k) {
        var y := MirrorOf(h, x, k);
        MirrorUntouched(h, g, n, m, x, k, y);
      }
    }
  }

  /** The mirror image of a link that is no copy of the one taken down is not that one either. */
  lemma MirrorUntouched(h: Hub, g: Hub, n: nat, m: nat, x: nat, k: Key, y: nat)
    requires n in h.conns && m in h.conns && !Copied(h, n, m, x) && n != m
    requires LinkedTo(h, x, k) && LinkedTo(h, y, h.conns[x].key) && h.conns[y].key == k
    requires !(x == n && k == h.conns[m].key) && !(x == m && k == h.conns[n].key)
    requires n in g.conns && m in g.conns && h.conns[m].key in g.conns[n].table && h.conns[n].key in g.conns[m].table
    requires TablesAs(h, g, n, h.conns[n].table[h.conns[m].key := g.conns[n].table[h.conns[m].key]],
                      m, h.conns[m].table[h.conns[n].key := g.conns[m].table[h.conns[n].key]])
    ensures g.conns[y].table[h.conns[x].key] == h.conns[y].table[h.conns[x].key]
  {
  }

  lemma PartingExactly(h: Hub, g: Hub, n: nat, m: nat)
    requires Parting(h, g, n, m)
    ensures LinksOk(g) <==> !exists x :: Copied(h, n, m, x)
  {
    if x :| Copied(h, n, m, x) {
      PartingCuts(h, g, n, m, x);
    } else {
      forall x, k | x in g.conns && g.conns[x].phase == Confirmed && k in g.conns[x].table
        ensures SymmetricAt(g, x, k)
      {
        PartingSpares(h, g, n, m, x, k);
      }
      LinksOkFrom(g);
    }
  }

  /** A disconnect of an entry that is not linked changes nothing, for 0 is nobody's id. */
  lemma IdleDisconnect(h: Hub, n: nat, connid: Byte)
    requires Wf(h) && LinksOk(h) && n in h.conns && h.conns[n].phase == Confirmed && connid in h.conns[n].byId
    requires forall x <- h.conns :: 0 !in h.conns[x].byId
    requires !LinkedTo(h, n, h.conns[n].byId[connid]) || h.conns[n].byId[connid] !in h.registry
    ensures Disconnect(h, n, connid) == Some(h)
  {
    var k := h.conns[n].byId[connid];
    assert SymmetricAt(h, n, k);
  }

  lemma LinkedDisconnect(h: Hub, n: nat, connid: Byte) returns (m: nat, g: Hub)
    requires Wf(h) && NoSelf(h) && Listed(h) && LinksOk(h) && n in h.conns && connid in h.conns[n].byId
    requires forall x <- h.conns :: forall k <- h.conns[x].table :: InverseAt(h.conns[x], k)
    requires LinkedTo(h, n, h.conns[n].byId[connid])
    ensures m in h.conns && h.conns[m].key == h.conns[n].byId[connid]
    ensures Parting(h, g, n, m) && Disconnect(h, n, connid) == Some(g)
  {
    var k := h.conns[n].byId[connid];
    m := MirrorOf(h, n, k);
    var key := h.conns[n].key;
    assert InverseAt(h.conns[m], key);
    g := TakeDown(h, n, k, m, key);
    TakeDownTables(h, n, k, m, key);
  }

  /** The id of an entry leads back to its key. */
  ghost predicate InverseAt(c: Conn, k: Key)
    requires k in c.table
  {
    c.table[k].connid in c.byId && c.byId[c.table[k].connid] == k
  }

  lemma TablesGive(h: Hub)
    requires TablesOk(h)
    ensures Wf(h) && NoSelf(h)
    ensures forall x <- h.conns :: 0 !in h.conns[x].byId
    ensures forall x <- h.conns :: forall k <- h.conns[x].table :: InverseAt(h.conns[x], k)
    ensures forall x <- h.conns :: forall k <- h.conns[x].table :: h.conns[x].table[k].status > 0
    ensures forall x <- h.conns :: h.conns[x].phase == Unconfirmed ==> h.conns[x].table == map[]
  {
    assert forall x <- h.conns :: TableOk(h.conns[x]);
  }

  lemma DisconnectExactly(h: Hub, n: nat, connid: Byte)
    requires Wf(h) && NoSelf(h) && Listed(h) && LinksOk(h) && n in h.conns && h.conns[n].phase == Confirmed
    requires forall x <- h.conns :: 0 !in h.conns[x].byId
    requires forall x <- h.conns :: forall k <- h.conns[x].table :: InverseAt(h.conns[x], k)
    requires Disconnect(h, n, connid).Some?
    ensures LinksOk(Disconnect(h, n, connid).value) <==> !DisconnectBreaks(h, n, connid)
  {
    var k := h.conns[n].byId[connid];
    if LinkedTo(h, n, k) {
      var m, g := LinkedDisconnect(h, n, connid);
      PartingExactly(h, g, n, m);
    } else {
      IdleDisconnect(h, n, connid);
    }
  }

  // ---------------------------------------------------------------- one step, exactly

  lemma FreshIsSymmetric(h: Hub, n: nat, c: Conn)
    requires Listed(h) && LinksOk(h) && (n in h.conns ==> h.conns[n].phase == NoStatus) && c.phase != Confirmed
    ensures LinksOk(SetConn(h, n, c))
  {
    var g := SetConn(h, n, c);
    forall x, k | x in g.conns && g.conns[x].phase == Confirmed && k in g.conns[x].table ensures SymmetricAt(g, x, k) {
      assert SymmetricAt(h, x, k);
    }
    LinksOkFrom(g);
  }

  lemma RequestPacketExactly(h: Hub, n: nat, plain: seq<Byte>, pick: Byte)
    requires Core(h) && n in h.conns && PickOk(h.conns[n], pick) && |plain| >= 33 && plain[0] == ROUTING_REQUEST
    ensures LinksOk(RequestRoute(h, n, plain[1..33], pick)) <==> !RequestBreaks(h, n, plain[1..33], pick)
  {
    TablesGive(h);
    RequestExactly(h, n, plain[1..33], pick);
  }

  lemma DisconnectPacketExactly(h: Hub, n: nat, connid: Byte)
    requires Core(h) && n in h.conns && h.conns[n].phase == Confirmed && Disconnect(h, n, connid).Some?
    ensures LinksOk(Disconnect(h, n, connid).value) <==> !DisconnectBreaks(h, n, connid)
  {
    TablesGive(h);
    DisconnectExactly(h, n, connid);
  }

  lemma PacketExactly(h: Hub, n: nat, plain: seq<Byte>, pick: Byte)
    requires Core(h) && n in h.conns && h.conns[n].phase == Confirmed && PickOk(h.conns[n], pick)
    requires Dispatch(h, n, plain, pick).Some?
    ensures LinksOk(Dispatch(h, n, plain, pick).value) <==> !Breaks(h, Packet(n, plain, pick))
  {
    if plain[0] == ROUTING_REQUEST {
      RequestPacketExactly(h, n, plain, pick);
    } else if plain[0] == DISCONNECT_NOTIFICATION {
      DisconnectPacketExactly(h, n, plain[1]);
    } else {
      OtherPacketQueues(h, n, plain, pick);
      QueueStepKeepsGood(h, Dispatch(h, n, plain, pick).value);
    }
  }

  /** While links are symmetric, a step leaves them symmetric if and only if it is none of those named in `Breaks`. */
  lemma StepSymmetricExactly(h: Hub, s: Step)
    requires Core(h) && Enabled(h, s) && Apply(h, s).Some?
    ensures LinksOk(Apply(h, s).value) <==> !Breaks(h, s)
  {
    match s
    case Accept(n) => FreshIsSymmetric(h, n, NewConn());
    case Handshake(n, key) => FreshIsSymmetric(h, n, h.conns[n].(phase := Unconfirmed, key := key));
    case First(n, plain) =>
      TablesGive(h);
      ConfirmHasShape(h, n, plain);
      ConfirmExactly(h, Confirm(h, n, plain).value, n);
    case Packet(n, plain, pick) => PacketExactly(h, n, plain, pick);
    case FlushCtrl(n) =>
      FlushIsQueueStep(h, n);
      QueueStepKeepsGood(h, Apply(h, s).value);
    case FlushData(n) =>
      FlushIsQueueStep(h, n);
      QueueStepKeepsGood(h, Apply(h, s).value);
    case Hangup(n) =>
      if h.conns[n].phase == NoStatus {
        FreshIsSymmetric(h, n, h.conns[n].(phase := Closed));
      } else {
        TablesGive(h);
        CloseHasShape(h, n);
        CloseExactly(h, Close(h, n), n);
      }
  }

  // ---------------------------------------------------------------- whole runs, exactly

  ghost predicate SymmetricIn(states: seq<Hub>, i: nat)
    requires i < |states|
  {
    LinksOk(states[i])
  }

  ghost predicate BreaksAt(states: seq<Hub>, steps: seq<Step>, i: nat)
    requires i < |steps| < |states|
  {
    Breaks(states[i], steps[i])
  }

  lemma BreakDecides(states: seq<Hub>, steps: seq<Step>, i: nat)
    requires IsRun(states, steps) && i < |steps| && SymmetricIn(states, i)
    ensures SymmetricIn(states, i + 1) <==> !BreaksAt(states, steps, i)
  {
    TablesInEveryState(states, steps, i);
    ListedInEveryState(states, steps, i);
    assert StepAt(states, steps, i);
    StepSymmetricExactly(states[i], steps[i]);
  }

  lemma {:induction false} SymmetricUntilFirstBreak(states: seq<Hub>, steps: seq<Step>, i: nat)
    requires IsRun(states, steps) && i < |states|
    ensures (forall j: nat | j <= i :: SymmetricIn(states, j)) <==>
      (forall j: nat | j < i :: !BreaksAt(states, steps, j))
  {
    if i == 0 {
      assert SymmetricIn(states, 0);
    } else {
      SymmetricUntilFirstBreak(states, steps, i - 1);
      if SymmetricIn(states, i - 1) { BreakDecides(states, steps, i - 1); }
    }
  }

  /** Over every run: links are symmetric in all its states if and only if none of its steps is a break. */
  lemma SymmetricRunsExactly(states: seq<Hub>, steps: seq<Step>)
    requires IsRun(states, steps)
    ensures (forall j: nat | j < |states| :: SymmetricIn(states, j)) <==>
            (forall j: nat | j < |steps| :: !BreaksAt(states, steps, j))
  {
    SymmetricUntilFirstBreak(states, steps, |steps|);
  }

  // ---------------------------------------------------------------- while the registry is exact

  /** While every open connection is registered, only a clash with a linked holder breaks symmetry. */
  lemma BreaksWhileExact(h: Hub, s: Step)
    requires Good(h) && Enabled(h, s) && Apply(h, s).Some?
    ensures Breaks(h, s) <==> Clash(h, s) && HasLink(h.conns[h.registry[h.conns[s.n].key]])
  {
    match s
    case Hangup(n) => StrayCloseExactly(h, n);
    case Packet(n, plain, pick) =>
    case _ =>
  }

  lemma StrayCloseExactly(h: Hub, n: nat)
    requires RegistryOk(h) && n in h.conns && h.conns[n].phase != Closed
    requires h.conns[n].phase == NoStatus ==> h.conns[n].table == map[]
    ensures CloseBreaks(h, n) <==>
      && h.conns[n].phase == Unconfirmed && h.conns[n].key in h.registry
      && HasLink(h.conns[h.registry[h.conns[n].key]])
  {
    var key := h.conns[n].key;
    if h.conns[n].phase == Unconfirmed && key in h.registry && HasLink(h.conns[h.registry[key]]) {
      var y := h.registry[key];
      var k :| k in h.conns[y].table && h.conns[y].table[k].status == 2;
      assert y != n && LinkedTo(h, y, k) && Touched(h, y, k, key);
    }
  }

  // ---------------------------------------------------------------- both halves are reachable

  /** A stray close over a holder without links: the registry is no longer exact, links are still symmetric. */
  lemma UnlinkedStrayClose() returns (h: Hub)
    ensures Reachable(h) && Wf(h) && LinksOk(h) && !RegistryOk(h)
    ensures AskedFor(h) && h.registry == map[ExampleKey(2) := 1]
  {
    var k1, k2 := ExampleKey(1), ExampleKey(2);
    ExampleKeysDiffer();
    EmptyReachable();
    var c := OneHasAsked();
    var d := SetConn(c, 2, NewConn());
    Extend(c, Accept(2), d);
    var e := SetConn(d, 2, d.conns[2].(phase := Unconfirmed, key := k1));
    Extend(d, Handshake(2, k1), e);
    h := Close(e, 2);
    StrayCloseOf(e, h);
    Extend(e, Hangup(2), h);
    AskedForIs(h);
    ReachableIsWf(h);
  }

  /** Connections 0 and 1 of the example, with `k1` registered or not. */
  ghost predicate AskedFor(h: Hub) {
    && h.conns.Keys == {0, 1, 2}
    && h.conns[0] == Conn(Confirmed, ExampleKey(1), map[], map[], {}, [[PONG]], [])
    && h.conns[1].phase == Confirmed && h.conns[1].key == ExampleKey(2)
    && h.conns[1].table == map[ExampleKey(1) := Entry(16, 1, 0)]
    && h.conns[2].phase != Confirmed && h.conns[2].table == map[]
  }

  lemma StrayCloseOf(e: Hub, h: Hub)
    requires AskedFor(e) && e.registry == map[ExampleKey(1) := 0, ExampleKey(2) := 1]
    requires e.conns[2].phase == Unconfirmed && e.conns[2].key == ExampleKey(1) && h == Close(e, 2)
    ensures AskedFor(h) && h.registry == map[ExampleKey(2) := 1]
  {
    ExampleKeysDiffer();
    CloseHasShape(e, 2);
    assert h.registry[ExampleKey(2)] == 1;
    assert ClosedAs(e.conns[1], h.conns[1], ExampleKey(1), false, 1 in h.registry.Values);
    assert ClosedAs(e.conns[2], h.conns[2], ExampleKey(1), true, 2 in h.registry.Values);
    assert 0 !in h.registry.Values;
  }

  lemma AskedForIs(h: Hub)
    requires AskedFor(h) && h.registry == map[ExampleKey(2) := 1]
    ensures LinksOk(h) && !RegistryOk(h)
  {
    ExampleKeysDiffer();
    assert h.conns[0].phase == Confirmed && h.conns[0].key !in h.registry;
  }

  lemma AskedForBreaks(h: Hub)
    requires AskedFor(h) && h.registry == map[ExampleKey(2) := 1]
    ensures RequestBreaks(h, 0, ExampleKey(2), 0)
  {
    ExampleKeysDiffer();
    assert 0 in FreeIds(h.conns[0]);
  }

  /** Later a connection that lost its place in the registry asks for a peer that had asked for its key. */
  lemma LateRequestBreaks() returns (h: Hub, s: Step, g: Hub)
    ensures Reachable(h) && LinksOk(h) && Next(h, s, g) && !Clash(h, s) && Breaks(h, s) && !LinksOk(g)
  {
    var k2 := ExampleKey(2);
    h := UnlinkedStrayClose();
    AskedForBreaks(h);
    s := RequestStep(h, 0, k2);
    g := Apply(h, s).value;
    ReachableIsCore(h);
    StepSymmetricExactly(h, s);
  }

  lemma RequestStep(h: Hub, n: nat, peer: Key) returns (s: Step)
    requires Wf(h) && n in h.conns && h.conns[n].phase == Confirmed
    requires h.conns[n].used == {} && RequestBreaks(h, n, peer, 0)
    ensures Enabled(h, s) && Apply(h, s).Some? && Breaks(h, s) && !Clash(h, s)
  {
    var plain := [ROUTING_REQUEST] + peer;
    assert plain[1..33] == peer;
    assert 0 in FreeIds(h.conns[n]);
    s := Packet(n, plain, 0);
  }

  lemma ReachableIsCore(h: Hub)
    requires Reachable(h) && LinksOk(h)
    ensures Core(h)
  {
    var states: seq<Hub>, steps: seq<Step> :| IsRun(states, steps) && states[|steps|] == h;
    TablesInEveryState(states, steps, |steps|);
    ListedInEveryState(states, steps, |steps|);
  }

  // ---------------------------------------------------------------- closed connections are left alone

  /** Nothing was put into the queues of a connection. */
  ghost predicate NothingSent(c: Conn, d: Conn) {
    && (d.ctrl == c.ctrl || (c.ctrl != [] && d.ctrl == c.ctrl[1..]))
    && (d.data == c.data || (c.data != [] && d.data == c.data[1..]))
  }

  /** No step sends to a connection that is closed or that it closes: the source panics on a closed channel. */
  lemma StepSparesClosed(h: Hub, s: Step, g: Hub, x: nat)
    requires Listed(h) && Next(h, s, g) && x in h.conns && x in g.conns && g.conns[x].phase == Closed
    ensures NothingSent(h.conns[x], g.conns[x])
  {
    match s
    case Accept(n) =>
    case Handshake(n, key) =>
    case First(n, plain) =>
    case Packet(n, plain, pick) =>
      DispatchSameRoles(h, n, plain, pick);
      PacketSparesClosed(h, n, plain, pick, g, x);
    case FlushCtrl(n) =>
    case FlushData(n) =>
    case Hangup(n) =>
      if h.conns[n].phase != NoStatus { CloseSparesClosed(h, n, x); }
  }

  lemma CloseSparesClosed(h: Hub, n: nat, x: nat)
    requires Listed(h) && n in h.conns && x in h.conns && Close(h, n).conns[x].phase == Closed
    ensures NothingSent(h.conns[x], Close(h, n).conns[x])
  {
    assert x == n || h.conns[x].phase == Closed;
    assert forall k <- h.registry - {h.conns[n].key} :: h.registry[k] != x;
  }

  /** A step of an open connection touches itself and registered connections only. */
  lemma RequestTouches(h: Hub, n: nat, peer: Key, pick: Byte, x: nat)
    requires Wf(h) && n in h.conns && PickOk(h.conns[n], pick) && x in h.conns && x != n
    requires forall k <- h.registry :: h.registry[k] != x
    ensures x in RequestRoute(h, n, peer, pick).conns && RequestRoute(h, n, peer, pick).conns[x] == h.conns[x]
  {
    var c := h.conns[n];
    if peer != c.key && !(peer in c.table && c.table[peer].status > 0) && FreeIds(c) != {} {
      TryLinkTouches(Entered(h, n, peer, pick), n, peer, x);
    }
  }

  lemma TryLinkTouches(h: Hub, n: nat, peer: Key, x: nat)
    requires Wf(h) && n in h.conns && peer in h.conns[n].table && x in h.conns && x != n
    requires forall k <- h.registry :: h.registry[k] != x
    ensures x in TryLink(h, n, peer).conns && TryLink(h, n, peer).conns[x] == h.conns[x]
  {
  }

  lemma DisconnectTouches(h: Hub, n: nat, connid: Byte, x: nat)
    requires Wf(h) && n in h.conns && Disconnect(h, n, connid).Some? && x in h.conns && x != n
    requires forall k <- h.registry :: h.registry[k] != x
    ensures x in Disconnect(h, n, connid).value.conns && Disconnect(h, n, connid).value.conns[x] == h.conns[x]
  {
  }

  lemma PacketSparesClosed(h: Hub, n: nat, plain: seq<Byte>, pick: Byte, g: Hub, x: nat)
    requires Wf(h) && Listed(h) && n in h.conns && h.conns[n].phase == Confirmed && PickOk(h.conns[n], pick)
    requires Dispatch(h, n, plain, pick) == Some(g) && x in h.conns && h.conns[x].phase == Closed
    ensures x in g.conns && g.conns[x] == h.conns[x]
  {
    if plain[0] == ROUTING_REQUEST {
      RequestTouches(h, n, plain[1..33], pick, x);
    } else if plain[0] == DISCONNECT_NOTIFICATION {
      DisconnectTouches(h, n, plain[1], x);
    }
  }

  lemma ClosedNeverSentTo(states: seq<Hub>, steps: seq<Step>, i: nat, x: nat)
    requires IsRun(states, steps) && i < |steps| && x in states[i].conns
    ensures x in states[i + 1].conns
    ensures states[i + 1].conns[x].phase == Closed ==> NothingSent(states[i].conns[x], states[i + 1].conns[x])
  {
    ListedInEveryState(states, steps, i);
    KeptOnce(states, steps, i, x);
    assert StepAt(states, steps, i);
    if states[i + 1].conns[x].phase == Closed { StepSparesClosed(states[i], steps[i], states[i + 1], x); }
  }
}

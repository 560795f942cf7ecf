/**
 The switchboard as the source runs it: connection objects, `PeerConnInfo` objects shared
 between the two maps of a connection, and handlers that update them in place. Each method is
 proved to carry the view of the heap along the matching function of `Switchboard`, so every
 theorem about runs of that state machine is a theorem about these handlers.
 */
module SwitchboardServer {
  import opened Bytes
  import opened Switchboard

  /** Every `PeerConnInfo` is born with status 1 and only ever set to 1 or 2. */
  type LinkStatus = x: Byte | 1 <= x <= 2 witness 1

  class PeerConnInfo {
    const pubkey: Key
    const connid: Byte
    ghost const owner: nat
    var status: LinkStatus
    var otherid: Byte

    constructor (pubkey: Key, connid: Byte, ghost owner: nat)
      ensures this.pubkey == pubkey && this.connid == connid && this.owner == owner && status == 1 && otherid == 0
    {
      this.pubkey, this.connid, this.owner := pubkey, connid, owner;
      status, otherid := 1, 0;
    }
  }

  class SecureConn {
    ghost const ident: nat
    var pubkey: Key
    var phase: Phase
    var connInfos: map<Key, PeerConnInfo>
    var connInfos2: map<Byte, PeerConnInfo>
    var connIds: map<Byte, bool>
    var ctrlq: seq<seq<Byte>>
    var dataq: seq<seq<Byte>>

    constructor (ghost ident: nat)
      ensures this.ident == ident && Valid() && View() == NewConn() && connInfos == map[]
    {
      this.ident := ident;
      pubkey, phase := seq(32, _ => 0), NoStatus;
      connInfos, connInfos2 := map[], map[];
      var ids := InitConnids();
      connIds := ids;
      ctrlq, dataq := [], [];
    }

    static method InitConnids() returns (ids: map<Byte, bool>)
      ensures forall i: Byte :: i in ids <==> i < NUM_CLIENT_CONNECTIONS
      ensures forall i <- ids :: !ids[i]
    {
      ids := map[];
      for n := 0 to NUM_CLIENT_CONNECTIONS
        invariant forall i: Byte :: i in ids <==> i < n
        invariant forall i <- ids :: !ids[i]
      {
        ids := ids[n := false];
      }
    }

    ghost predicate Owns(p: PeerConnInfo)
      reads this
    {
      p.owner == ident && p.pubkey in connInfos && connInfos[p.pubkey] == p
    }

    /** Both maps hold the same objects, and these belong to this connection alone. */
    ghost predicate Valid()
      reads this
    {
      && (forall k <- connInfos :: connInfos[k].owner == ident && connInfos[k].pubkey == k)
      && (forall i <- connInfos2 ::
            connInfos2[i].pubkey in connInfos && connInfos[connInfos2[i].pubkey] == connInfos2[i])
      && (forall i: Byte :: i in connIds <==> i < NUM_CLIENT_CONNECTIONS)
    }

    ghost function View(): Conn
      reads this, connInfos.Values
    {
      Conn(phase, pubkey,
           map k | k in connInfos :: Entry(connInfos[k].connid, connInfos[k].status, connInfos[k].otherid),
           map i | i in connInfos2 :: connInfos2[i].pubkey,
           (set i | i in connIds && connIds[i]),
           ctrlq, dataq)
    }

    /** A fresh entry, shared between both maps. */
    method AddPeer(peer: Key, connid: Byte) returns (pci: PeerConnInfo)
      requires Valid() && peer !in connInfos
      modifies this`connInfos, this`connInfos2
      ensures Valid() && fresh(pci) && Owns(pci) && pci.pubkey == peer && pci.connid == connid
      ensures connInfos == old(connInfos)[peer := pci]
      ensures View() == old(View()).(table := old(View()).table[peer := Entry(connid, 1, 0)],
        byId := old(View()).byId[connid := peer])
    {
      pci := new PeerConnInfo(peer, connid, ident);
      connInfos := connInfos[peer := pci];
      connInfos2 := connInfos2[connid := pci];
      assert View().table == old(View()).table[peer := Entry(connid, 1, 0)];
      assert View().byId == old(View()).byId[connid := peer];
    }

    /** `nextConnid`: marks some free id; 0 when none is left. */
    method NextConnid() returns (connid: Byte)
      requires Valid()
      modifies this`connIds
      ensures Valid()
      ensures connid == 0 <==> FreeIds(old(View())) == {}
      ensures connid == 0 ==> connIds == old(connIds)
      ensures connid != 0 ==>
        && connid >= NUM_RESERVED_PORTS && connid - NUM_RESERVED_PORTS in FreeIds(old(View()))
        && connIds == old(connIds)[connid - NUM_RESERVED_PORTS := true]
    {
      var rest := connIds.Keys;
      while rest != {}
        invariant rest <= connIds.Keys && connIds == old(connIds)
        invariant forall i: Byte | i in connIds && i !in rest :: connIds[i]
        decreases rest
      {
        var i: Byte :| i in rest;
        if !connIds[i] {
          assert i in FreeIds(old(View()));
          connIds := connIds[i := true];
          return i + NUM_RESERVED_PORTS;
        }
        rest := rest - {i};
      }
      return 0;
    }

    method Allot(peer: Key) returns (pci: PeerConnInfo?)
      requires Valid() && peer !in connInfos
      modifies this`connIds, this`connInfos, this`connInfos2
      ensures Valid()
      ensures pci == null <==> FreeIds(old(View())) == {}
      ensures pci == null ==> View() == old(View()) && connInfos == old(connInfos)
      ensures pci != null ==>
        && fresh(pci) && Owns(pci) && pci.pubkey == peer && connInfos == old(connInfos)[peer := pci]
        && NUM_RESERVED_PORTS <= pci.connid && pci.connid - NUM_RESERVED_PORTS in FreeIds(old(View()))
        && View() == WithEntry(old(View()), peer, pci.connid - NUM_RESERVED_PORTS)
    {
      var connid := NextConnid();
      if connid == 0 {
        return null;
      }
      assert View() == old(View()).(used := old(View()).used + {connid - NUM_RESERVED_PORTS});
      pci := AddPeer(peer, connid);
    }
  }

  class Server {
    var conns: map<Key, SecureConn>
    ghost var all: map<nat, SecureConn>

    constructor ()
      ensures Valid() && View() == EMPTY_HUB
    {
      conns, all := map[], map[];
    }

    ghost function Infos(): set<PeerConnInfo>
      reads this`all, all.Values`connInfos
    {
      set n, k | n in all && k in all[n].connInfos :: all[n].connInfos[k]
    }

    ghost predicate Knows(c: SecureConn)
      reads this
    {
      c.ident in all && all[c.ident] == c
    }

    ghost predicate Valid()
      reads this, all.Values
    {
      && (forall n <- all :: all[n].ident == n && all[n].Valid())
      && (forall k <- conns :: Knows(conns[k]))
    }

    ghost function View(): Hub
      reads this, all.Values, Infos()
    {
      Hub(map n | n in all :: all[n].View(), Index(conns))
    }

    static ghost function Index(cs: map<Key, SecureConn>): map<Key, nat> {
      map k | k in cs :: cs[k].ident
    }

    static lemma IndexUpdate(cs: map<Key, SecureConn>, key: Key, c: SecureConn)
      ensures Index(cs[key := c]) == Index(cs)[key := c.ident]
      ensures Index(cs - {key}) == Index(cs) - {key}
    {
      var ds := cs[key := c];
      assert forall k <- ds :: Index(ds)[k] == if k == key then c.ident else cs[k].ident;
    }

    lemma InfoIn(c: SecureConn, k: Key)
      requires Valid() && Knows(c) && k in c.connInfos
      ensures c in all.Values && c.connInfos[k] in Infos()
    {
    }

    lemma ViewIsWf()
      requires Valid()
      ensures Wf(View())
    {
    }

    /** Only `c` and objects it owns changed: the hub differs from the old one in that place only. */
    twostate lemma OthersUnchanged(c: SecureConn)
      requires old(Valid()) && old(Knows(c)) && Valid() && all == old(all) && conns == old(conns)
      requires forall n | n in all && n != c.ident :: unchanged(all[n])
      requires forall n, k | n in all && n != c.ident && k in all[n].connInfos :: unchanged(all[n].connInfos[k])
      ensures View() == SetConn(old(View()), c.ident, c.View())
    {
      forall n | n in all && n != c.ident ensures all[n].View() == old(all[n].View()) {
        assert all[n].View().table == old(all[n].View()).table;
      }
      assert View().conns == SetConn(old(View()), c.ident, c.View()).conns;
    }

    /** `SendCtrlPacket`. */
    method SendCtrlPacket(c: SecureConn, pkt: seq<Byte>)
      requires Valid() && Knows(c)
      modifies c`ctrlq
      ensures Valid()
      ensures View() == PushCtrl(old(View()), c.ident, pkt)
    {
      if |pkt| <= MAX_PAYLOAD && |c.ctrlq| < CTRL_QUEUE_CAP {
        c.ctrlq := c.ctrlq + [pkt];
      }
      assert c.View() == old(c.View()).(ctrl := c.ctrlq);
      OthersUnchanged(c);
    }

    /** `SendDataPacket`. */
    method SendDataPacket(c: SecureConn, connid: Byte, payload: seq<Byte>)
      requires Valid() && Knows(c)
      modifies c`dataq
      ensures Valid()
      ensures View() == PushData(old(View()), c.ident, connid, payload)
    {
      if |payload| <= MAX_PAYLOAD && |c.dataq| < DATA_QUEUE_CAP {
        c.dataq := c.dataq + [[connid] + payload];
      }
      assert c.View() == old(c.View()).(data := c.dataq);
      OthersUnchanged(c);
    }

    /** Writing the link fields of one shared `PeerConnInfo`. */
    method WriteLink(c: SecureConn, p: PeerConnInfo, status: LinkStatus, otherid: Byte)
      requires Valid() && Knows(c) && c.Owns(p)
      modifies p
      ensures Valid()
      ensures View() == SetLink(old(View()), c.ident, p.pubkey, status, otherid)
    {
      p.status, p.otherid := status, otherid;
      assert c.View() == Relink(old(c.View()), p.pubkey, status, otherid);
      OthersUnchanged(c);
    }

    /** Link two entries that name each other's connections, and tell both sides. */
    method LinkPair(c: SecureConn, pci: PeerConnInfo, peerco: SecureConn, pci2: PeerConnInfo)
      requires Valid() && Knows(c) && c.Owns(pci) && Knows(peerco) && peerco.Owns(pci2)
      modifies pci, pci2
      ensures Valid()
      ensures View() == SetLink(SetLink(old(View()), c.ident, pci.pubkey, 2, pci2.connid),
        peerco.ident, pci2.pubkey, 2, pci.connid)
    {
      WriteLink(c, pci, 2, pci2.connid);
      WriteLink(peerco, pci2, 2, pci.connid);
    }

    method SendBoth(c: SecureConn, pkt: seq<Byte>, d: SecureConn, pkt2: seq<Byte>)
      requires Valid() && Knows(c) && Knows(d)
      modifies c`ctrlq, d`ctrlq
      ensures Valid()
      ensures View() == PushCtrl(PushCtrl(old(View()), c.ident, pkt), d.ident, pkt2)
    {
      SendCtrlPacket(c, pkt);
      SendCtrlPacket(d, pkt2);
    }

    method LinkUpPair(c: SecureConn, pci: PeerConnInfo, peerco: SecureConn, pci2: PeerConnInfo)
      requires Valid() && Knows(c) && c.Owns(pci) && Knows(peerco) && peerco.Owns(pci2) && pci2.pubkey == c.pubkey
      modifies c`ctrlq, peerco`ctrlq, pci, pci2
      ensures Valid()
      ensures View() == LinkUp(old(View()), c.ident, pci.pubkey, peerco.ident)
    {
      LinkPair(c, pci, peerco, pci2);
      SendBoth(c, [CONNECTION_NOTIFICATION, pci.connid], peerco, [CONNECTION_NOTIFICATION, pci2.connid]);
    }

    /** The tail of `handleRoutingRequest`. */
    method LinkIfAsked(c: SecureConn, pci: PeerConnInfo)
      requires Valid() && Knows(c) && c.Owns(pci)
      modifies all.Values, Infos()
      ensures Valid() && all == old(all) && conns == old(conns)
      ensures Wf(old(View())) && View() == TryLink(old(View()), c.ident, pci.pubkey)
    {
      ViewIsWf();
      ghost var h := View();
      InfoIn(c, pci.pubkey);
      if pci.pubkey in conns {
        var peerco := conns[pci.pubkey];
        if c.pubkey in peerco.connInfos {
          InfoIn(peerco, c.pubkey);
          assert TryLink(h, c.ident, pci.pubkey) == LinkUp(h, c.ident, pci.pubkey, peerco.ident);
          LinkUpPair(c, pci, peerco, peerco.connInfos[c.pubkey]);
        }
      }
    }

    /** Takes a free id and enters the peer under it; null when all ids are taken. */
    method Allot(c: SecureConn, peer: Key) returns (pci: PeerConnInfo?, ghost pick: Byte)
      requires Valid() && Knows(c) && peer !in c.connInfos
      modifies c`connIds, c`connInfos, c`connInfos2
      ensures Valid() && PickOk(old(View()).conns[c.ident], pick)
      ensures pci == null <==> FreeIds(old(View()).conns[c.ident]) == {}
      ensures pci == null ==> View() == old(View())
      ensures pci != null ==>
        && fresh(pci) && c.Owns(pci) && pci.pubkey == peer && c.connInfos == old(c.connInfos)[peer := pci]
        && pick < NUM_CLIENT_CONNECTIONS && pci.connid == pick + NUM_RESERVED_PORTS
        && View() == AddEntry(old(View()), c.ident, peer, pick)
        && Infos() <= old(Infos()) + {pci}
    {
      ghost var h, before := View(), c.View();
      assert h.conns[c.ident] == before;
      pci := c.Allot(peer);
      OthersUnchanged(c);
      ghost var after := c.View();
      pick := if pci == null then 0 else pci.connid - NUM_RESERVED_PORTS;
      SetSame(h, c.ident);
      if pci != null { InfosGrow(c, pci); }
    }

    static lemma SetSame(h: Hub, n: nat)
      requires n in h.conns
      ensures SetConn(h, n, h.conns[n]) == h
    {
      assert SetConn(h, n, h.conns[n]).conns == h.conns;
    }

    twostate lemma InfosGrow(c: SecureConn, new pci: PeerConnInfo)
      requires old(Valid()) && old(Knows(c)) && all == old(all) && c.connInfos == old(c.connInfos)[pci.pubkey := pci]
      requires forall n | n in all && n != c.ident :: all[n].connInfos == old(all[n].connInfos)
      ensures Infos() <= old(Infos()) + {pci}
    {
      forall o | o in Infos() ensures o in old(Infos()) + {pci} {
        var n, k :| n in all && k in all[n].connInfos && o == all[n].connInfos[k];
        if o != pci { assert k in old(all[n].connInfos) && old(all[n].connInfos[k]) == o; }
      }
    }

    /** `handleRoutingRequest`. */
    method HandleRoutingRequest(c: SecureConn, peer: Key) returns (ghost pick: Byte)
      requires Valid() && Knows(c)
      modifies all.Values, Infos()
      ensures Valid() && all == old(all) && conns == old(conns)
      ensures Wf(old(View())) && PickOk(old(View()).conns[c.ident], pick)
      ensures View() == RequestRoute(old(View()), c.ident, peer, pick)
    {
      ViewIsWf();
      pick := AnyPick(View().conns[c.ident]);
      if peer == c.pubkey {
        SendCtrlPacket(c, RoutingResponse(0, peer));
        return;
      }
      if peer in c.connInfos && c.connInfos[peer].status > 0 {
        SendCtrlPacket(c, RoutingResponse(c.connInfos[peer].connid, peer));
        return;
      }
      pick := HandleNewPeer(c, peer);
    }

    /** The rest of `handleRoutingRequest`, for a peer the connection has not asked for before. */
    method HandleNewPeer(c: SecureConn, peer: Key) returns (ghost pick: Byte)
      requires Valid() && Knows(c) && peer !in c.connInfos
      modifies all.Values, Infos()
      ensures Valid() && all == old(all) && conns == old(conns)
      ensures Wf(old(View())) && PickOk(old(View()).conns[c.ident], pick)
      ensures View() ==
        if FreeIds(old(View()).conns[c.ident]) == {} then PushCtrl(old(View()), c.ident, RoutingResponse(0, peer))
                        else NewRoute(old(View()), c.ident, peer, pick)
    {
      ViewIsWf();
      ghost var h := View();
      var pci;
      pci, pick := Allot(c, peer);
      if pci == null {
        SendCtrlPacket(c, RoutingResponse(0, peer));
      } else {
        ReplyAndLink(c, pci, h, pick);
      }
    }

    static lemma NewRouteIs(h: Hub, g: Hub, n: nat, peer: Key, pick: Byte)
      requires Wf(h) && n in h.conns && pick < NUM_CLIENT_CONNECTIONS && g == AddEntry(h, n, peer, pick)
      ensures var replied := PushCtrl(g, n, RoutingResponse(pick + NUM_RESERVED_PORTS, peer));
        Wf(replied) && peer in replied.conns[n].table && NewRoute(h, n, peer, pick) == TryLink(replied, n, peer)
    {
      assert PushCtrl(g, n, RoutingResponse(pick + NUM_RESERVED_PORTS, peer)) == Entered(h, n, peer, pick);
    }

    method ReplyAndLink(c: SecureConn, pci: PeerConnInfo, ghost h: Hub, ghost pick: Byte)
      requires Valid() && Knows(c) && c.Owns(pci) && Wf(h) && c.ident in h.conns
      requires pick < NUM_CLIENT_CONNECTIONS && pci.connid == pick + NUM_RESERVED_PORTS
      requires View() == AddEntry(h, c.ident, pci.pubkey, pick)
      modifies all.Values, Infos()
      ensures Valid() && all == old(all) && conns == old(conns)
      ensures View() == NewRoute(h, c.ident, pci.pubkey, pick)
    {
      ghost var g := View();
      SendCtrlPacket(c, RoutingResponse(pci.connid, pci.pubkey));
      NewRouteIs(h, g, c.ident, pci.pubkey, pick);
      LinkIfAsked(c, pci);
    }

    /** `HandleDisconnectNotification`; false stands for the failed assertion. */
    method HandleDisconnectNotification(c: SecureConn, connid: Byte) returns (ok: bool)
      requires Valid() && Knows(c)
      modifies all.Values, Infos()
      ensures Valid() && all == old(all) && conns == old(conns)
      ensures Wf(old(View()))
      ensures Disconnect(old(View()), c.ident, connid) == if ok then Some(View()) else None
    {
      ViewIsWf();
      if connid !in c.connInfos2 {
        return false;
      }
      ok := true;
      ghost var h := View();
      var pci0 := c.connInfos2[connid];
      InfoIn(c, pci0.pubkey);
      if pci0.pubkey in conns {
        var peerco := conns[pci0.pubkey];
        if pci0.otherid in peerco.connInfos2 {
          var pci2 := peerco.connInfos2[pci0.otherid];
          InfoIn(peerco, pci2.pubkey);
          assert Disconnect(h, c.ident, connid) == Some(TakeDown(h, c.ident, pci0.pubkey, peerco.ident, pci2.pubkey));
          Unlink(c, pci0, peerco, pci2);
        }
      }
    }

    method Unlink(c: SecureConn, pci0: PeerConnInfo, peerco: SecureConn, pci2: PeerConnInfo)
      requires Valid() && Knows(c) && c.Owns(pci0) && Knows(peerco) && peerco.Owns(pci2)
      modifies peerco`ctrlq, pci0, pci2
      ensures Valid()
      ensures View() == TakeDown(old(View()), c.ident, pci0.pubkey, peerco.ident, pci2.pubkey)
    {
      WriteLink(peerco, pci2, 1, 0);
      WriteLink(c, pci0, 1, 0);
      SendCtrlPacket(peerco, [DISCONNECT_NOTIFICATION, pci2.connid]);
    }

    /** `HandleRoutingData`. */
    method HandleRoutingData(c: SecureConn, plain: seq<Byte>)
      requires Valid() && Knows(c) && plain != []
      modifies all.Values
      ensures Valid() && all == old(all) && conns == old(conns)
      ensures Wf(old(View())) && View() == RouteData(old(View()), c.ident, plain)
    {
      ViewIsWf();
      if plain[0] !in c.connInfos2 {
        return;
      }
      var pci := c.connInfos2[plain[0]];
      if pci.pubkey !in conns {
        return;
      }
      var peerco := conns[pci.pubkey];
      if c.pubkey !in peerco.connInfos {
        return;
      }
      SendDataPacket(peerco, peerco.connInfos[c.pubkey].connid, plain[1..]);
    }

    /** The packet switch of `doReadPacket` for a confirmed connection; false stands for a panic. */
    method HandlePacket(c: SecureConn, plain: seq<Byte>) returns (ok: bool, ghost pick: Byte)
      requires Valid() && Knows(c)
      modifies all.Values, Infos()
      ensures Valid() && all == old(all) && conns == old(conns)
      ensures Wf(old(View())) && PickOk(old(View()).conns[c.ident], pick)
      ensures Dispatch(old(View()), c.ident, plain, pick) == if ok then Some(View()) else None
    {
      ViewIsWf();
      pick := AnyPick(View().conns[c.ident]);
      ok := true;
      if plain == [] {
        ok := false;
      } else if plain[0] == PING {
        SendCtrlPacket(c, [PONG] + plain[1..]);
      } else if plain[0] == ROUTING_REQUEST {
        if |plain| < 33 {
          ok := false;
        } else {
          pick := HandleRoutingRequest(c, plain[1..33]);
        }
      } else if plain[0] == DISCONNECT_NOTIFICATION {
        if |plain| < 2 {
          ok := false;
        } else {
          ok := HandleDisconnectNotification(c, plain[1]);
        }
      } else if plain[0] >= NUM_RESERVED_PORTS {
        HandleRoutingData(c, plain);
      }
    }

    static ghost function Idents(seen: set<SecureConn>): set<nat> {
      set c | c in seen :: c.ident
    }

    static ghost function Notes(seen: set<SecureConn>, key: Key): map<SecureConn, Byte>
      reads seen
    {
      map c | c in seen && key in c.connInfos :: c.connInfos[key].connid
    }

    static lemma ForgetStep(h: Hub, key: Key, done: set<nat>, n: nat)
      requires n in h.conns
      ensures var g := ForgetIn(h, key, done);
        SetConn(g, n, Forgotten(g.conns[n], key)) == ForgetIn(h, key, done + {n})
    {
      var g := ForgetIn(h, key, done);
      assert Forgotten(Forgotten(h.conns[n], key), key) == Forgotten(h.conns[n], key) by {
        assert Forgotten(Forgotten(h.conns[n], key), key).table == Forgotten(h.conns[n], key).table;
      }
      assert SetConn(g, n, Forgotten(g.conns[n], key)).conns == ForgetIn(h, key, done + {n}).conns;
    }

    static lemma NotesStep(ids: map<SecureConn, Byte>, seen: set<SecureConn>, c: SecureConn)
      ensures Noted(ids, seen + {c}) == if c in ids then Noted(ids, seen)[c := ids[c]] else Noted(ids, seen)
      ensures Idents(seen + {c}) == Idents(seen) + {c.ident}
    {
    }

    static ghost function Noted(ids: map<SecureConn, Byte>, seen: set<SecureConn>): map<SecureConn, Byte> {
      map c | c in ids && c in seen :: ids[c]
    }

    /** The connections whose keys a loop over the registry has already visited. */
    static ghost function Values(cs: map<Key, SecureConn>, rest: set<Key>): set<SecureConn> {
      set k | k in cs && k !in rest :: cs[k]
    }

    static lemma ValuesStep(cs: map<Key, SecureConn>, rest: set<Key>, k: Key)
      requires k in cs && k in rest
      ensures Values(cs, rest - {k}) == Values(cs, rest) + {cs[k]}
    {
      assert cs[k] in Values(cs, rest - {k});
    }

    method Forget(c: SecureConn, key: Key)
      requires Valid() && Knows(c)
      modifies if key in c.connInfos then {c.connInfos[key]} else {}
      ensures Valid()
      ensures View() == SetConn(old(View()), c.ident, Forgotten(old(View()).conns[c.ident], key))
    {
      if key in c.connInfos {
        WriteLink(c, c.connInfos[key], 1, 0);
      } else {
        assert View().conns == SetConn(View(), c.ident, c.View()).conns;
      }
    }

    /** One turn of the first loop of `killAccepted`. */
    method ForgetOne(c: SecureConn, key: Key, notifys: map<SecureConn, Byte>,
                     ghost h: Hub, ghost ids: map<SecureConn, Byte>, ghost seen: set<SecureConn>)
      returns (more: map<SecureConn, Byte>)
      requires Valid() && Knows(c) && c.ident in h.conns
      requires if key in c.connInfos then c in ids && ids[c] == c.connInfos[key].connid else c !in ids
      requires View() == ForgetIn(h, key, Idents(seen)) && notifys == Noted(ids, seen)
      modifies Infos()
      ensures Valid()
      ensures View() == ForgetIn(h, key, Idents(seen + {c})) && more == Noted(ids, seen + {c})
    {
      if key in c.connInfos { InfoIn(c, key); }
      NotesStep(ids, seen, c);
      ForgetStep(h, key, Idents(seen), c.ident);
      more := notifys;
      if key in c.connInfos {
        more := more[c := c.connInfos[key].connid];
      }
      Forget(c, key);
    }

    /** The first loop of `killAccepted`: reset every entry for the key and note whom to tell. */
    method ForgetAll(key: Key) returns (notifys: map<SecureConn, Byte>)
      requires Valid()
      modifies Infos()
      ensures Valid()
      ensures View() == ForgetIn(old(View()), key, Idents(conns.Values)) && notifys == old(Notes(conns.Values, key))
    {
      ghost var h := View();
      var cs := conns;
      ghost var ids := Notes(cs.Values, key);
      notifys := map[];
      var rest := cs.Keys;
      ghost var seen: set<SecureConn> := {};
      assert h == ForgetIn(h, key, {}) by { assert h.conns == ForgetIn(h, key, {}).conns; }
      while rest != {}
        invariant rest <= cs.Keys && seen == Values(cs, rest)
        invariant Valid()
        invariant View() == ForgetIn(h, key, Idents(seen)) && notifys == Noted(ids, seen)
        decreases rest
        modifies Infos()
      {
        var k :| k in rest;
        var ctmp := cs[k];
        assert ctmp in cs.Values && Knows(ctmp) && ctmp.connInfos == old(ctmp.connInfos);
        notifys := ForgetOne(ctmp, key, notifys, h, ids, seen);
        ValuesStep(cs, rest, k);
        rest, seen := rest - {k}, seen + {ctmp};
      }
      assert seen == cs.Values;
    }

    static lemma TellStep(h: Hub, key: Key, done: set<nat>, n: nat)
      requires n in h.conns && n !in done && key in h.conns[n].table
      ensures PushCtrl(TellIn(h, key, done), n, [DISCONNECT_NOTIFICATION, h.conns[n].table[key].connid]) ==
        TellIn(h, key, done + {n})
    {
      var g := PushCtrl(TellIn(h, key, done), n, [DISCONNECT_NOTIFICATION, h.conns[n].table[key].connid]);
      assert g.conns == TellIn(h, key, done + {n}).conns;
    }

    /** One turn of the second loop of `killAccepted`. */
    method TellOne(c: SecureConn, key: Key, connid: Byte, ghost h: Hub, ghost told: set<SecureConn>)
      requires Valid() && Knows(c) && told <= conns.Values && c !in told
      requires c.ident in h.conns && key in h.conns[c.ident].table && h.conns[c.ident].table[key].connid == connid
      requires View() == TellIn(h, key, Idents(told))
      modifies c`ctrlq
      ensures Valid()
      ensures View() == TellIn(h, key, Idents(told + {c}))
    {
      assert c.ident !in Idents(told) by { assert forall d <- told :: Knows(d); }
      TellStep(h, key, Idents(told), c.ident);
      assert Idents(told + {c}) == Idents(told) + {c.ident};
      SendCtrlPacket(c, [DISCONNECT_NOTIFICATION, connid]);
    }

    /** The second loop of `killAccepted`. */
    method TellAll(key: Key, notifys: map<SecureConn, Byte>, ghost h: Hub)
      requires Valid() && h == View() && notifys.Keys <= conns.Values
      requires forall c <- notifys :: Notable(c, key, notifys[c], h)
      modifies notifys.Keys`ctrlq
      ensures Valid()
      ensures View() == TellIn(h, key, Idents(notifys.Keys))
    {
      var rest := notifys.Keys;
      ghost var told: set<SecureConn> := {};
      TellNobody(h, key, told);
      while rest != {}
        invariant Parts(told, rest, notifys.Keys) && Valid()
        invariant View() == TellIn(h, key, Idents(told))
        decreases rest
        modifies notifys.Keys`ctrlq
      {
        var c := TellNext(key, notifys, rest, h, told);
        MoveOne(told, rest, notifys.Keys, c);
        rest, told := rest - {c}, told + {c};
      }
      assert told == notifys.Keys;
    }

    /** Those already told and those still to be told make up the whole. */
    static ghost predicate Parts(told: set<SecureConn>, rest: set<SecureConn>, whole: set<SecureConn>) {
      told + rest == whole && told !! rest
    }

    static lemma MoveOne(told: set<SecureConn>, rest: set<SecureConn>, whole: set<SecureConn>, c: SecureConn)
      requires Parts(told, rest, whole) && c in rest
      ensures Parts(told + {c}, rest - {c}, whole)
    {
    }

    method TellNext(key: Key, notifys: map<SecureConn, Byte>, rest: set<SecureConn>, ghost h: Hub,
      ghost told: set<SecureConn>)
      returns (c: SecureConn)
      requires Valid() && rest != {} && notifys.Keys <= conns.Values && Parts(told, rest, notifys.Keys)
      requires forall c <- notifys :: Notable(c, key, notifys[c], h)
      requires View() == TellIn(h, key, Idents(told))
      modifies notifys.Keys`ctrlq
      ensures Valid() && c in rest && View() == TellIn(h, key, Idents(told + {c}))
    {
      c :| c in rest;
      assert c in notifys.Keys && Notable(c, key, notifys[c], h);
      TellOne(c, key, notifys[c], h, told);
    }

    /** `c` has an entry for the key, under the id that was noted. */
    ghost predicate Notable(c: SecureConn, key: Key, connid: Byte, h: Hub)
      reads this
    {
      Knows(c) && c.ident in h.conns && key in h.conns[c.ident].table && h.conns[c.ident].table[key].connid == connid
    }

    static lemma TellNobody(h: Hub, key: Key, nobody: set<SecureConn>)
      requires nobody == {}
      ensures TellIn(h, key, Idents(nobody)) == h
    {
      assert TellIn(h, key, Idents(nobody)).conns == h.conns;
    }

    /** The noted ids are those of the view. */
    lemma NotesAgree(key: Key)
      requires Valid()
      ensures forall c <- Notes(conns.Values, key) :: Notable(c, key, Notes(conns.Values, key)[c], View())
    {
    }

    /** Telling only those that have an entry is telling everyone. */
    lemma TellRest(h: Hub, key: Key, notifys: map<SecureConn, Byte>)
      requires Valid() && notifys == Notes(conns.Values, key)
      requires forall n <- all :: n in h.conns && (key in h.conns[n].table <==> key in all[n].connInfos)
      ensures TellIn(h, key, Idents(notifys.Keys)) == TellIn(h, key, Idents(conns.Values))
    {
      var told := notifys.Keys;
      forall n | n in h.conns && n in Idents(conns.Values) && n !in Idents(told)
        ensures Told(h.conns[n], key) == h.conns[n]
      {
        var c :| c in conns.Values && c.ident == n;
        assert Knows(c) && c !in told;
      }
      assert Idents(told) <= Idents(conns.Values);
      assert TellIn(h, key, Idents(told)).conns == TellIn(h, key, Idents(conns.Values)).conns;
    }

    /** `killAccepted`. */
    method KillAcceptedOf(key: Key)
      requires Valid()
      modifies all.Values, Infos()
      ensures Valid() && all == old(all) && conns == old(conns)
      ensures View() == KillAccepted(old(View()), key)
    {
      assert Idents(conns.Values) == View().registry.Values by {
        assert forall k <- conns :: View().registry[k] == conns[k].ident;
      }
      ghost var h := View();
      var notifys := ForgetAll(key);
      ghost var g := View();
      assert g == ForgetIn(h, key, h.registry.Values);
      Tell(key, notifys);
      assert View() == TellIn(g, key, h.registry.Values);
    }

    /** Both loops share the notes. */
    method Tell(key: Key, notifys: map<SecureConn, Byte>)
      requires Valid() && notifys == Notes(conns.Values, key)
      modifies notifys.Keys`ctrlq
      ensures Valid() && View() == TellIn(old(View()), key, Idents(conns.Values))
    {
      TellRest(View(), key, notifys);
      NotesAgree(key);
      TellAll(key, notifys, View());
    }

    /** `startHandshake`: a new connection object with no key yet. */
    method StartHandshake(ghost n: nat) returns (c: SecureConn)
      requires Valid() && n !in all
      modifies this`all
      ensures Valid() && Knows(c) && c.ident == n && fresh(c)
      ensures View() == SetConn(old(View()), n, NewConn())
    {
      ghost var h := View();
      c := new SecureConn(n);
      assert View() == h;
      Enroll(c);
    }

    ghost method Enroll(c: SecureConn)
      requires Valid() && c.ident !in all && c.Valid() && c.connInfos == map[]
      modifies this`all
      ensures Valid() && all == old(all)[c.ident := c]
      ensures View() == SetConn(old(View()), c.ident, c.View())
    {
      all := all[c.ident := c];
      assert View().conns == SetConn(old(View()), c.ident, c.View()).conns;
    }

    method SetPhase(c: SecureConn, phase: Phase)
      requires Valid() && Knows(c)
      modifies c`phase
      ensures Valid()
      ensures View() == SetConn(old(View()), c.ident, old(View()).conns[c.ident].(phase := phase))
    {
      c.phase := phase;
      assert c.View() == old(c.View()).(phase := phase);
      OthersUnchanged(c);
    }

    /** The part of `HandleHandshake` that the switchboard sees. */
    method AdoptKey(c: SecureConn, key: Key)
      requires Valid() && Knows(c)
      modifies c`phase, c`pubkey
      ensures Valid()
      ensures View() == SetConn(old(View()), c.ident, old(View()).conns[c.ident].(phase := Unconfirmed, key := key))
    {
      c.pubkey, c.phase := key, Unconfirmed;
      assert c.View() == old(c.View()).(phase := Unconfirmed, key := key);
      OthersUnchanged(c);
    }

    twostate lemma RegistryOnly(h: Hub)
      requires h == old(View()) && all == old(all)
      requires forall n <- all :: unchanged(all[n])
      requires forall n, k | n in all && k in all[n].connInfos :: unchanged(all[n].connInfos[k])
      ensures View().conns == h.conns
    {
      forall n | n in all ensures all[n].View() == h.conns[n] {
        assert all[n].View().table == h.conns[n].table;
      }
    }

    method Register(c: SecureConn)
      requires Valid() && Knows(c)
      modifies this`conns
      ensures Valid() && conns == old(conns)[c.pubkey := c]
      ensures View() == old(View()).(registry := old(View()).registry[c.pubkey := c.ident])
    {
      ghost var h := View();
      conns := conns[c.pubkey := c];
      RegistryOnly(h);
      IndexUpdate(old(conns), c.pubkey, c);
    }

    method Unregister(key: Key)
      requires Valid()
      modifies this`conns
      ensures Valid() && conns == old(conns) - {key}
      ensures View() == old(View()).(registry := old(View()).registry - {key})
    {
      ghost var h := View();
      conns := conns - {key};
      RegistryOnly(h);
      assert View().registry == h.registry - {key};
    }

    /** The first packet after the handshake, then `onConnConfirmed`; false stands for a panic. */
    method ConfirmConn(c: SecureConn, plain: seq<Byte>) returns (ok: bool)
      requires Valid() && Knows(c)
      modifies this`conns, all.Values
      ensures Valid() && all == old(all)
      ensures Wf(old(View()))
      ensures Confirm(old(View()), c.ident, plain) == if ok then Some(View()) else None
    {
      ViewIsWf();
      if plain == [] {
        return false;
      }
      ok := true;
      ghost var h := View();
      RaiseConn(c, plain);
      OnConnConfirmed(c);
      assert Confirm(h, c.ident, plain) == Some(View());
    }

    /** The pong, then the new status. */
    method RaiseConn(c: SecureConn, plain: seq<Byte>)
      requires Valid() && Knows(c) && plain != []
      modifies c`ctrlq, c`phase
      ensures Valid() && View() == Raise(old(View()), c.ident, plain)
    {
      SendCtrlPacket(c, [PONG] + plain[1..]);
      SetPhase(c, Confirmed);
    }

    /** `onConnConfirmed`: a holder of the same key is closed without further ado. */
    method OnConnConfirmed(c: SecureConn)
      requires Valid() && Knows(c)
      modifies this`conns, all.Values`phase
      ensures Valid() && all == old(all)
      ensures Wf(old(View())) && View() == TakeOver(old(View()), c.ident)
    {
      ViewIsWf();
      if c.pubkey in conns {
        SetPhase(conns[c.pubkey], Closed);
      }
      Register(c);
    }

    /** `doClose` and, when the connection has a key, `onConnClosed`. */
    method DoClose(c: SecureConn)
      requires Valid() && Knows(c)
      modifies this`conns, all.Values, Infos()
      ensures Valid() && all == old(all)
      ensures View() == Close(old(View()), c.ident)
    {
      var keyed := c.phase == Unconfirmed || c.phase == Confirmed;
      ghost var h := View();
      SetPhase(c, Closed);
      if keyed {
        OnConnClosed(c);
      }
      assert View() == Close(h, c.ident);
    }

    /** `onConnClosed`: the registry entry under the key goes, whoever holds it. */
    method OnConnClosed(c: SecureConn)
      requires Valid() && Knows(c)
      modifies this`conns, all.Values, Infos()
      ensures Valid() && all == old(all)
      ensures View() ==
        KillAccepted(old(View()).(registry := old(View()).registry - {old(c.pubkey)}), old(c.pubkey))
    {
      var key := c.pubkey;
      ghost var h := View();
      Unregister(key);
      ghost var g := View();
      assert g == h.(registry := h.registry - {key});
      KillAcceptedOf(key);
      assert View() == KillAccepted(g, key);
    }

    /** The write loop takes the next control packet. */
    method TakeCtrl(c: SecureConn) returns (pkt: seq<Byte>)
      requires Valid() && Knows(c) && c.ctrlq != []
      modifies c`ctrlq
      ensures Valid() && pkt == old(c.ctrlq)[0]
      ensures View() == SetConn(old(View()), c.ident,
        old(View()).conns[c.ident].(ctrl := old(View()).conns[c.ident].ctrl[1..]))
    {
      pkt := c.ctrlq[0];
      c.ctrlq := c.ctrlq[1..];
      assert c.View() == old(c.View()).(ctrl := c.ctrlq);
      OthersUnchanged(c);
    }

    /** The write loop takes the next data packet. */
    method TakeData(c: SecureConn) returns (pkt: seq<Byte>)
      requires Valid() && Knows(c) && c.dataq != []
      modifies c`dataq
      ensures Valid() && pkt == old(c.dataq)[0]
      ensures View() == SetConn(old(View()), c.ident,
        old(View()).conns[c.ident].(data := old(View()).conns[c.ident].data[1..]))
    {
      pkt := c.dataq[0];
      c.dataq := c.dataq[1..];
      assert c.View() == old(c.View()).(data := c.dataq);
      OthersUnchanged(c);
    }
  }
}

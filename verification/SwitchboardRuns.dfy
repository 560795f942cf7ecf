/**
 Whole runs of the switchboard: what holds in every state that any interleaving can reach.
 */
module SwitchboardRuns {
  import opened Bytes
  import opened Switchboard
  import opened SwitchboardShapes
  import opened SwitchboardInvariants

  ghost predicate Next(h: Hub, s: Step, g: Hub) {
    Wf(h) && Enabled(h, s) && Apply(h, s) == Some(g)
  }

  /** A run starts from the empty hub and never meets a panic. */
  ghost predicate IsRun(states: seq<Hub>, steps: seq<Step>) {
    && |states| == |steps| + 1
    && states[0] == EMPTY_HUB
    && forall i | 0 <= i < |steps| :: StepAt(states, steps, i)
  }

  ghost predicate StepAt(states: seq<Hub>, steps: seq<Step>, i: nat)
    requires i < |steps| < |states|
  {
    Next(states[i], steps[i], states[i + 1])
  }

  ghost predicate ClashAt(states: seq<Hub>, steps: seq<Step>, i: nat)
    requires i < |steps| < |states|
  {
    Clash(states[i], steps[i])
  }

  ghost predicate NoClash(states: seq<Hub>, steps: seq<Step>, i: nat)
    requires i <= |steps| < |states|
  {
    forall j: nat | j < i :: !ClashAt(states, steps, j)
  }

  // ---------------------------------------------------------------- id tables and link symmetry

  /** Every id table is in order in every reachable state. */
  lemma {:induction false} TablesInEveryState(states: seq<Hub>, steps: seq<Step>, i: nat)
    requires IsRun(states, steps) && i < |states|
    ensures TablesOk(states[i]) && Wf(states[i])
  {
    if i > 0 {
      TablesInEveryState(states, steps, i - 1);
      assert StepAt(states, steps, i - 1);
      StepKeepsTables(states[i - 1], steps[i - 1]);
    }
    assert forall n <- states[i].conns :: TableOk(states[i].conns[n]);
  }

  ghost predicate GoodAt(states: seq<Hub>, i: nat)
    requires i < |states|
  {
    Good(states[i])
  }

  lemma ClashDecides(states: seq<Hub>, steps: seq<Step>, i: nat)
    requires IsRun(states, steps) && i < |steps| && GoodAt(states, i)
    ensures GoodAt(states, i + 1) <==> !ClashAt(states, steps, i)
  {
    assert StepAt(states, steps, i);
    StepGoodExactly(states[i], steps[i]);
  }

  /** Every state up to `i` is good exactly when no step before `i` was a clash. */
  lemma {:induction false} GoodUntilFirstClash(states: seq<Hub>, steps: seq<Step>, i: nat)
    requires IsRun(states, steps) && i < |states|
    ensures (forall j: nat | j <= i :: GoodAt(states, j)) <==> NoClash(states, steps, i)
  {
    if i == 0 {
      assert GoodAt(states, 0);
    } else {
      GoodUntilFirstClash(states, steps, i - 1);
      if GoodAt(states, i - 1) { ClashDecides(states, steps, i - 1); }
    }
  }

  /** Link symmetry over whole runs: every state is good exactly when no step of the run is a clash. */
  lemma GoodRunsExactly(states: seq<Hub>, steps: seq<Step>)
    requires IsRun(states, steps)
    ensures (forall j: nat | j < |states| :: GoodAt(states, j)) <==> NoClash(states, steps, |steps|)
  {
    GoodUntilFirstClash(states, steps, |steps|);
  }

  // ---------------------------------------------------------------- what one step leaves alone

  /** Entries are never removed, ids never change, phases only advance, keys are set once. */
  ghost predicate Kept(c: Conn, d: Conn) {
    && (forall k <- c.table :: k in d.table && d.table[k].connid == c.table[k].connid)
    && (c.phase == Closed ==> d.phase == Closed)
    && (c.phase == Confirmed ==> d.phase == Confirmed || d.phase == Closed)
    && (c.phase != NoStatus ==> d.key == c.key && d.phase != NoStatus)
  }

  /** No entry rises to "linked". */
  ghost predicate Sinks(c: Conn, d: Conn) {
    forall k <- c.table :: k in d.table && (d.table[k].status == 2 ==> c.table[k].status == 2)
  }

  ghost predicate Framed(h: Hub, g: Hub) {
    h.conns.Keys <= g.conns.Keys && forall x <- h.conns :: Kept(h.conns[x], g.conns[x])
  }

  ghost predicate Sunk(h: Hub, g: Hub) {
    h.conns.Keys <= g.conns.Keys && forall x <- h.conns :: Sinks(h.conns[x], g.conns[x])
  }

  /** A request for `peer` takes a new id. */
  ghost predicate IsNew(c: Conn, peer: Key) {
    peer != c.key && peer !in c.table && FreeIds(c) != {}
  }

  ghost predicate Opens(h: Hub, s: Step) {
    && s.Packet? && s.n in h.conns && |s.plain| >= 33 && s.plain[0] == ROUTING_REQUEST
    && IsNew(h.conns[s.n], s.plain[1..33])
  }

  lemma QueueStepFramed(h: Hub, g: Hub)
    requires QueueStep(h, g)
    ensures Framed(h, g) && Sunk(h, g)
  {
    forall x | x in h.conns ensures Kept(h.conns[x], g.conns[x]) && Sinks(h.conns[x], g.conns[x]) {
      assert SameButQueues(h.conns[x], g.conns[x]);
    }
  }

  /** The table of connection `x` after a request that takes a new id. */
  lemma NewRouteTable(h: Hub, n: nat, peer: Key, pick: Byte, x: nat)
    requires Wf(h) && n in h.conns && pick < NUM_CLIENT_CONNECTIONS && h.conns[n].key !in h.conns[n].table
    requires peer != h.conns[n].key && peer !in h.conns[n].table && x in h.conns
    ensures var g := NewRoute(h, n, peer, pick);
      && x in g.conns && Kept(h.conns[x], g.conns[x])
      && (forall k <- h.conns[x].table ::
            && k in g.conns[x].table
            && if k == h.conns[n].key && peer in h.registry && x == h.registry[peer]
               then g.conns[x].table[k].status == 2 else g.conns[x].table[k] == h.conns[x].table[k])
  {
    EnteredTables(h, n, peer, pick);
    TryLinkShape(Entered(h, n, peer, pick), n, peer);
    EnteredThenLinked(h, Entered(h, n, peer, pick), NewRoute(h, n, peer, pick), n, peer, pick + NUM_RESERVED_PORTS, x);
  }

  lemma EnteredThenLinked(h: Hub, h1: Hub, g: Hub, n: nat, peer: Key, id: Byte, x: nat)
    requires n in h.conns && x in h.conns && peer !in h.conns[n].table && h.conns[n].key !in h.conns[n].table
    requires var t := h.conns[n].table[peer := Entry(id, 1, 0)]; TablesAs(h, h1, n, t, n, t)
    requires if HasAsked(h1, n, peer) then LinkedShape(h1, g, n, peer) else g == h1
    ensures x in g.conns && Kept(h.conns[x], g.conns[x])
    ensures forall k <- h.conns[x].table ::
      && k in g.conns[x].table
      && if k == h.conns[n].key && peer in h.registry && x == h.registry[peer]
         then g.conns[x].table[k].status == 2 else g.conns[x].table[k] == h.conns[x].table[k]
  {
  }

  lemma RequestFramed(h: Hub, n: nat, peer: Key, pick: Byte)
    requires TablesOk(h) && n in h.conns && PickOk(h.conns[n], pick)
    ensures Framed(h, RequestRoute(h, n, peer, pick))
    ensures !IsNew(h.conns[n], peer) ==> Sunk(h, RequestRoute(h, n, peer, pick))
  {
    var c, g := h.conns[n], RequestRoute(h, n, peer, pick);
    assert TableOk(c);
    if peer == c.key || peer in c.table || FreeIds(c) == {} {
      KnownPeerQueueStep(h, n, peer, pick);
      QueueStepFramed(h, g);
    } else {
      NewRouteFramed(h, n, peer, pick);
    }
  }

  lemma KnownPeerQueueStep(h: Hub, n: nat, peer: Key, pick: Byte)
    requires Wf(h) && n in h.conns && PickOk(h.conns[n], pick)
    requires
      || peer == h.conns[n].key
      || (peer in h.conns[n].table && h.conns[n].table[peer].status > 0)
      || FreeIds(h.conns[n]) == {}
    ensures QueueStep(h, RequestRoute(h, n, peer, pick))
  {
  }

  lemma NewRouteFramed(h: Hub, n: nat, peer: Key, pick: Byte)
    requires Wf(h) && n in h.conns && pick < NUM_CLIENT_CONNECTIONS && h.conns[n].key !in h.conns[n].table
    requires peer != h.conns[n].key && peer !in h.conns[n].table
    ensures Framed(h, NewRoute(h, n, peer, pick))
  {
    var g := NewRoute(h, n, peer, pick);
    forall x | x in h.conns ensures x in g.conns && Kept(h.conns[x], g.conns[x]) {
      NewRouteTable(h, n, peer, pick, x);
    }
  }

  /** Entries stay under their ids, and change to "asked for" at most. */
  ghost predicate Lowered(c: Conn, d: Conn) {
    && d.phase == c.phase && d.key == c.key && d.table.Keys == c.table.Keys
    && (forall k <- c.table ::
          d.table[k].connid == c.table[k].connid && (d.table[k] == c.table[k] || d.table[k].status == 1))
  }

  lemma RelinkLowers(c: Conn, k: Key)
    requires k in c.table
    ensures Lowered(c, Relink(c, k, 1, 0))
  {
  }

  lemma LoweredThen(c: Conn, d: Conn, e: Conn)
    requires Lowered(c, d) && Lowered(d, e)
    ensures Lowered(c, e)
  {
  }

  lemma TakeDownLowers(h: Hub, n: nat, k: Key, m: nat, k2: Key, x: nat)
    requires n in h.conns && m in h.conns && k in h.conns[n].table && k2 in h.conns[m].table && x in h.conns
    ensures x in TakeDown(h, n, k, m, k2).conns && Lowered(h.conns[x], TakeDown(h, n, k, m, k2).conns[x])
  {
    var h1 := SetLink(h, m, k2, 1, 0);
    var h2 := SetLink(h1, n, k, 1, 0);
    RelinkLowers(h.conns[m], k2);
    RelinkLowers(h1.conns[n], k);
    LoweredThen(h.conns[x], h1.conns[x], h2.conns[x]);
    LoweredThen(h.conns[x], h2.conns[x], TakeDown(h, n, k, m, k2).conns[x]);
  }

  lemma DisconnectFramed(h: Hub, n: nat, connid: Byte)
    requires Wf(h) && n in h.conns && Disconnect(h, n, connid).Some?
    ensures Framed(h, Disconnect(h, n, connid).value) && Sunk(h, Disconnect(h, n, connid).value)
  {
    var g, k := Disconnect(h, n, connid).value, h.conns[n].byId[connid];
    if k in h.registry && h.conns[n].table[k].otherid in h.conns[h.registry[k]].byId {
      var m := h.registry[k];
      var k2 := h.conns[m].byId[h.conns[n].table[k].otherid];
      forall x | x in h.conns
        ensures x in g.conns && Kept(h.conns[x], g.conns[x]) && Sinks(h.conns[x], g.conns[x])
      {
        TakeDownLowers(h, n, k, m, k2, x);
      }
    }
  }

  lemma ConfirmFramed(h: Hub, n: nat, plain: seq<Byte>)
    requires Wf(h) && n in h.conns && h.conns[n].phase == Unconfirmed && plain != []
    ensures Framed(h, Confirm(h, n, plain).value) && Sunk(h, Confirm(h, n, plain).value)
  {
    var g := Confirm(h, n, plain).value;
    forall x | x in h.conns ensures x in g.conns && Kept(h.conns[x], g.conns[x]) && Sinks(h.conns[x], g.conns[x]) {
    }
  }

  lemma CloseFramed(h: Hub, n: nat)
    requires n in h.conns
    ensures Framed(h, Close(h, n)) && Sunk(h, Close(h, n))
  {
    var g := Close(h, n);
    forall x | x in h.conns ensures x in g.conns && Kept(h.conns[x], g.conns[x]) && Sinks(h.conns[x], g.conns[x]) {
    }
  }

  lemma DispatchFramed(h: Hub, n: nat, plain: seq<Byte>, pick: Byte)
    requires TablesOk(h) && n in h.conns && PickOk(h.conns[n], pick) && Dispatch(h, n, plain, pick).Some?
    ensures Framed(h, Dispatch(h, n, plain, pick).value)
    ensures !Opens(h, Packet(n, plain, pick)) ==> Sunk(h, Dispatch(h, n, plain, pick).value)
  {
    if plain[0] == ROUTING_REQUEST {
      RequestFramed(h, n, plain[1..33], pick);
    } else if plain[0] == DISCONNECT_NOTIFICATION {
      DisconnectFramed(h, n, plain[1]);
    } else {
      OtherPacketQueues(h, n, plain, pick);
      QueueStepFramed(h, Dispatch(h, n, plain, pick).value);
    }
  }

  lemma PutFramed(h: Hub, n: nat, c: Conn)
    requires n in h.conns ==> Kept(h.conns[n], c) && Sinks(h.conns[n], c)
    ensures Framed(h, SetConn(h, n, c)) && Sunk(h, SetConn(h, n, c))
  {
  }

  lemma StepFramed(h: Hub, s: Step, g: Hub)
    requires TablesOk(h) && Next(h, s, g)
    ensures Framed(h, g)
    ensures !Opens(h, s) ==> Sunk(h, g)
  {
    match s
    case Accept(n) => PutFramed(h, n, NewConn());
    case Handshake(n, key) => PutFramed(h, n, h.conns[n].(phase := Unconfirmed, key := key));
    case First(n, plain) => ConfirmFramed(h, n, plain);
    case Packet(n, plain, pick) => DispatchFramed(h, n, plain, pick);
    case FlushCtrl(n) =>
      FlushIsQueueStep(h, n);
      QueueStepFramed(h, g);
    case FlushData(n) =>
      FlushIsQueueStep(h, n);
      QueueStepFramed(h, g);
    case Hangup(n) => CloseFramed(h, n);
  }

  // ---------------------------------------------------------------- whole runs

  lemma {:induction false} KeptForever(states: seq<Hub>, steps: seq<Step>, i: nat, j: nat, n: nat)
    requires IsRun(states, steps) && i <= j < |states| && n in states[i].conns
    ensures n in states[j].conns && Kept(states[i].conns[n], states[j].conns[n])
    decreases j
  {
    if i < j {
      KeptForever(states, steps, i, j - 1, n);
      KeptOnce(states, steps, j - 1, n);
    }
  }

  lemma KeptOnce(states: seq<Hub>, steps: seq<Step>, j: nat, n: nat)
    requires IsRun(states, steps) && j < |steps| && n in states[j].conns
    ensures n in states[j + 1].conns && Kept(states[j].conns[n], states[j + 1].conns[n])
  {
    TablesInEveryState(states, steps, j);
    assert StepAt(states, steps, j);
    StepFramed(states[j], steps[j], states[j + 1]);
  }

  /** An id once handed out stays with its peer, and asking again only repeats the answer. */
  lemma IdsArePermanent(states: seq<Hub>, steps: seq<Step>, i: nat, j: nat, n: nat, peer: Key, pick: Byte)
    requires IsRun(states, steps) && i <= j < |states|
    requires n in states[i].conns && peer in states[i].conns[n].table
    requires n in states[j].conns ==> PickOk(states[j].conns[n], pick)
    ensures n in states[j].conns && Wf(states[j])
    ensures RequestRoute(states[j], n, peer, pick) ==
            PushCtrl(states[j], n, RoutingResponse(states[i].conns[n].table[peer].connid, peer))
  {
    KeptForever(states, steps, i, j, n);
    TablesInEveryState(states, steps, j);
    assert TableOk(states[j].conns[n]);
  }

  // ---------------------------------------------------------------- clashes are reachable

  ghost predicate Reachable(h: Hub) {
    exists states: seq<Hub>, steps: seq<Step> :: IsRun(states, steps) && states[|steps|] == h
  }

  lemma Extend(h: Hub, s: Step, g: Hub)
    requires Reachable(h) && Next(h, s, g)
    ensures Reachable(g)
  {
    var states: seq<Hub>, steps: seq<Step> :| IsRun(states, steps) && states[|steps|] == h;
    var states', steps' := states + [g], steps + [s];
    forall i: nat | i < |steps'| ensures StepAt(states', steps', i) {
      if i < |steps| { assert StepAt(states, steps, i); }
    }
    assert IsRun(states', steps');
  }

  lemma ReachableIsWf(h: Hub)
    requires Reachable(h)
    ensures Wf(h)
  {
    var states: seq<Hub>, steps: seq<Step> :| IsRun(states, steps) && states[|steps|] == h;
    TablesInEveryState(states, steps, |steps|);
  }

  lemma EmptyReachable()
    ensures Reachable(EMPTY_HUB)
  {
    assert IsRun([EMPTY_HUB], []);
  }

  function ExampleKey(i: Byte): Key { seq(32, _ => i) }

  lemma ExampleKeysDiffer()
    ensures ExampleKey(1) != ExampleKey(2)
  {
    assert ExampleKey(1)[0] != ExampleKey(2)[0];
  }

  /** From any reachable state a new connection can be brought up under any key. */
  lemma BringUp(h: Hub, n: nat, key: Key) returns (g: Hub)
    requires Reachable(h) && Wf(h) && n !in h.conns && key !in h.registry
    ensures Reachable(g) && Wf(g)
    ensures g == Hub(h.conns[n := Conn(Confirmed, key, map[], map[], {}, [[PONG]], [])], h.registry[key := n])
  {
    var h1 := SetConn(h, n, NewConn());
    Extend(h, Accept(n), h1);
    var h2 := SetConn(h1, n, h1.conns[n].(phase := Unconfirmed, key := key));
    Extend(h1, Handshake(n, key), h2);
    g := Confirm(h2, n, [PING]).value;
    var pong := [PONG] + [PING][1..];
    assert pong == [PONG];
    assert PushCtrl(h2, n, pong).conns[n].ctrl == [pong];
    Extend(h2, First(n, [PING]), g);
    assert g.conns[n] == Conn(Confirmed, key, map[], map[], {}, [[PONG]], []);
    assert g.conns == h.conns[n := Conn(Confirmed, key, map[], map[], {}, [[PONG]], [])];
  }

  /** A new connection asks for `peer` and gets id 16; it is linked if the peer asked first. */
  lemma Ask(h: Hub, n: nat, peer: Key) returns (g: Hub)
    requires Reachable(h) && Wf(h) && n in h.conns && peer != h.conns[n].key
    requires h.conns[n] == Conn(Confirmed, h.conns[n].key, map[], map[], {}, [[PONG]], [])
    ensures Reachable(g) && Wf(g) && g == NewRoute(h, n, peer, 0)
  {
    g := NewRoute(h, n, peer, 0);
    assert ([ROUTING_REQUEST] + peer)[1..33] == peer;
    assert 0 in FreeIds(h.conns[n]);
    Extend(h, Packet(n, [ROUTING_REQUEST] + peer, 0), g);
    TryLinkWf(Entered(h, n, peer, 0), n, peer);
  }

  lemma TryLinkWf(h: Hub, n: nat, peer: Key)
    requires Wf(h) && n in h.conns && peer in h.conns[n].table
    ensures Wf(TryLink(h, n, peer))
  {
  }

  /** Connections 0 and 1 are up, and 1 has asked for the key of 0. */
  lemma OneHasAsked() returns (h: Hub)
    ensures Reachable(h) && Wf(h) && h.conns.Keys == {0, 1}
    ensures h.registry == map[ExampleKey(1) := 0, ExampleKey(2) := 1]
    ensures h.conns[0] == Conn(Confirmed, ExampleKey(1), map[], map[], {}, [[PONG]], [])
    ensures h.conns[1].phase == Confirmed && h.conns[1].key == ExampleKey(2)
    ensures h.conns[1].table == map[ExampleKey(1) := Entry(16, 1, 0)]
  {
    var k1, k2 := ExampleKey(1), ExampleKey(2);
    ExampleKeysDiffer();
    EmptyReachable();
    var a := BringUp(EMPTY_HUB, 0, k1);
    var b := BringUp(a, 1, k2);
    h := Ask(b, 1, k1);
    assert h == Entered(b, 1, k1, 0);
    EnteredTables(b, 1, k1, 0);
  }

  /** A reachable state in which connections 0 and 1 are linked. */
  lemma LinkedPair() returns (h: Hub)
    ensures Reachable(h) && Wf(h)
    ensures h.conns.Keys == {0, 1} && h.registry == map[ExampleKey(1) := 0, ExampleKey(2) := 1]
    ensures h.conns[0].phase == h.conns[1].phase == Confirmed
    ensures h.conns[0].key == ExampleKey(1) && h.conns[1].key == ExampleKey(2)
    ensures h.conns[0].table == map[ExampleKey(2) := Entry(16, 2, 16)]
    ensures h.conns[1].table == map[ExampleKey(1) := Entry(16, 2, 16)]
  {
    ExampleKeysDiffer();
    var c := OneHasAsked();
    h := Ask(c, 0, ExampleKey(2));
    SecondAsks(c, Entered(c, 0, ExampleKey(2), 0), h, ExampleKey(1), ExampleKey(2));
  }

  lemma SecondAsks(c: Hub, d: Hub, h: Hub, k1: Key, k2: Key)
    requires Wf(c) && c.conns.Keys == {0, 1} && c.registry == map[k1 := 0, k2 := 1]
    requires c.conns[0].table == map[] && c.conns[1].table == map[k1 := Entry(16, 1, 0)]
    requires c.conns[0].key == k1 && d == Entered(c, 0, k2, 0) && h == TryLink(d, 0, k2)
    ensures SameRoles(c, h) && h.conns[0].table == map[k2 := Entry(16, 2, 16)]
    ensures h.conns[1].table == map[k1 := Entry(16, 2, 16)]
  {
    EnteredTables(c, 0, k2, 0);
    AskedBoth(c, d, k1, k2);
    LinkedBoth(d, h, k1, k2);
    SameRolesThen(c, d, h);
  }

  lemma LinkedBoth(d: Hub, h: Hub, k1: Key, k2: Key)
    requires Wf(d) && d.conns.Keys == {0, 1} && k2 in d.registry && d.registry[k2] == 1 && d.conns[0].key == k1
    requires d.conns[0].table == map[k2 := Entry(16, 1, 0)] && d.conns[1].table == map[k1 := Entry(16, 1, 0)]
    requires h == TryLink(d, 0, k2)
    ensures SameRoles(d, h) && h.conns[0].table == map[k2 := Entry(16, 2, 16)]
    ensures h.conns[1].table == map[k1 := Entry(16, 2, 16)]
  {
    LinkUpTables(d, 0, k2, 1);
    assert map[k2 := Entry(16, 1, 0)][k2 := Entry(16, 2, 16)] == map[k2 := Entry(16, 2, 16)];
    assert map[k1 := Entry(16, 1, 0)][k1 := Entry(16, 2, 16)] == map[k1 := Entry(16, 2, 16)];
  }

  lemma AskedBoth(c: Hub, d: Hub, k1: Key, k2: Key)
    requires c.conns.Keys == {0, 1} && c.registry == map[k1 := 0, k2 := 1]
    requires c.conns[0].table == map[] && c.conns[1].table == map[k1 := Entry(16, 1, 0)] && c.conns[0].key == k1
    requires var t := c.conns[0].table[k2 := Entry(16, 1, 0)]; TablesAs(c, d, 0, t, 0, t)
    ensures d.conns.Keys == {0, 1} && k2 in d.registry && d.registry[k2] == 1 && d.conns[0].key == k1
    ensures d.conns[0].table == map[k2 := Entry(16, 1, 0)] && d.conns[1].table == map[k1 := Entry(16, 1, 0)]
  {
  }

  /** A second confirmation under a linked key leaves the peer linked to nobody. */
  lemma ReplacementBreaksSymmetry() returns (h: Hub)
    ensures Reachable(h) && !LinksOk(h)
  {
    var g := LinkedPair();
    var k1, k2 := ExampleKey(1), ExampleKey(2);
    ExampleKeysDiffer();
    var g1 := SetConn(g, 2, NewConn());
    Extend(g, Accept(2), g1);
    var g2 := SetConn(g1, 2, g1.conns[2].(phase := Unconfirmed, key := k1));
    Extend(g1, Handshake(2, k1), g2);
    h := Confirm(g2, 2, [PING]).value;
    Extend(g2, First(2, [PING]), h);
    assert !EntryOk(h, k2, k1, h.conns[1].table[k1]);
  }

  /** A connection that only finished its handshake can, by closing, cut off the holder of its key. */
  lemma StrayCloseBreaksSymmetry() returns (h: Hub)
    ensures Reachable(h) && !LinksOk(h) && !RegistryOk(h)
  {
    var g := LinkedPair();
    var k1, k2 := ExampleKey(1), ExampleKey(2);
    ExampleKeysDiffer();
    var g1 := SetConn(g, 2, NewConn());
    Extend(g, Accept(2), g1);
    var g2 := SetConn(g1, 2, g1.conns[2].(phase := Unconfirmed, key := k1));
    Extend(g1, Handshake(2, k1), g2);
    h := Close(g2, 2);
    Extend(g2, Hangup(2), h);
    CloseHasShape(g2, 2);
    assert ClosedAs(g2.conns[0], h.conns[0], k1, false, 0 in h.registry.Values);
    assert ClosedAs(g2.conns[1], h.conns[1], k1, false, 1 in h.registry.Values);
    assert h.registry[k2] == 1;
    assert !EntryOk(h, k1, k2, h.conns[0].table[k2]);
  }
}

/**
 Links that were taken down: whether they come back. A repeated request of either end takes the
 early return, so only another connection under the key of one end can link the other end again.
 */
module SwitchboardDown {
  import opened Bytes
  import opened Switchboard
  import opened SwitchboardShapes
  import opened SwitchboardInvariants
  import opened SwitchboardRuns

  /** Both ends are open, know each other, and neither is linked. */
  ghost predicate Down(h: Hub, n: nat, m: nat) {
    && Mirrored(h, n, m)
    && h.conns[n].table[h.conns[m].key].status == 1
    && h.conns[m].table[h.conns[n].key].status == 1
  }

  /** Connection `x`, under the key of `m`, asks for the peer whose registered connection is `n`. */
  ghost predicate Takes(h: Hub, x: nat, peer: Key, n: nat, m: nat)
    requires x in h.conns && m in h.conns
  {
    h.conns[x].key == h.conns[m].key && peer in h.registry && h.registry[peer] == n
  }

  /** A request for a new peer by another connection under the key of one end, for the other end. */
  ghost predicate Revives(h: Hub, s: Step, n: nat, m: nat) {
    && n in h.conns && m in h.conns && Opens(h, s)
    && (Takes(h, s.n, s.plain[1..33], n, m) || Takes(h, s.n, s.plain[1..33], m, n))
  }

  ghost predicate BothOpen(h: Hub, n: nat, m: nat) {
    n in h.conns && h.conns[n].phase == Confirmed && m in h.conns && h.conns[m].phase == Confirmed
  }

  lemma SunkStaysDown(h: Hub, g: Hub, n: nat, m: nat)
    requires Down(h, n, m) && Framed(h, g) && Sunk(h, g) && TablesOk(g) && BothOpen(g, n, m)
    ensures Down(g, n, m)
  {
    assert Kept(h.conns[n], g.conns[n]) && Sinks(h.conns[n], g.conns[n]) && TableOk(g.conns[n]);
    assert Kept(h.conns[m], g.conns[m]) && Sinks(h.conns[m], g.conns[m]) && TableOk(g.conns[m]);
  }

  lemma NewRouteDown(h: Hub, x: nat, peer: Key, pick: Byte, n: nat, m: nat)
    requires TablesOk(h) && x in h.conns && pick < NUM_CLIENT_CONNECTIONS && IsNew(h.conns[x], peer)
    requires Down(h, n, m) && BothOpen(NewRoute(h, x, peer, pick), n, m)
    ensures Down(NewRoute(h, x, peer, pick), n, m) <==> !Takes(h, x, peer, n, m) && !Takes(h, x, peer, m, n)
  {
    assert TableOk(h.conns[x]);
    NewRouteTable(h, x, peer, pick, n);
    NewRouteTable(h, x, peer, pick, m);
  }

  /** While both ends stay open, a link that is down comes back in a step if and only if the step revives it. */
  lemma DownStepExactly(h: Hub, s: Step, g: Hub, n: nat, m: nat)
    requires TablesOk(h) && Next(h, s, g) && Down(h, n, m) && BothOpen(g, n, m)
    ensures Down(g, n, m) <==> !Revives(h, s, n, m)
  {
    StepFramed(h, s, g);
    StepKeepsTables(h, s);
    if Opens(h, s) {
      OpensIs(h, s, g);
      NewRouteDown(h, s.n, s.plain[1..33], s.pick, n, m);
    } else {
      SunkStaysDown(h, g, n, m);
    }
  }

  lemma OpensIs(h: Hub, s: Step, g: Hub)
    requires Wf(h) && Opens(h, s) && Next(h, s, g)
    ensures s.pick < NUM_CLIENT_CONNECTIONS && g == NewRoute(h, s.n, s.plain[1..33], s.pick)
  {
  }

  // ---------------------------------------------------------------- whole runs

  ghost predicate DownAt(states: seq<Hub>, i: nat, n: nat, m: nat)
    requires i < |states|
  {
    Down(states[i], n, m)
  }

  ghost predicate RevivesAt(states: seq<Hub>, steps: seq<Step>, i: nat, n: nat, m: nat)
    requires i < |steps| < |states|
  {
    Revives(states[i], steps[i], n, m)
  }

  lemma ConfirmedBetween(states: seq<Hub>, steps: seq<Step>, i: nat, t: nat, j: nat, n: nat)
    requires IsRun(states, steps) && i <= t <= j < |states|
    requires n in states[i].conns && states[i].conns[n].phase == Confirmed
    requires n in states[j].conns && states[j].conns[n].phase == Confirmed
    ensures n in states[t].conns && states[t].conns[n].phase == Confirmed
  {
    KeptForever(states, steps, i, t, n);
    KeptForever(states, steps, t, j, n);
  }

  lemma DownDecides(states: seq<Hub>, steps: seq<Step>, j: nat, n: nat, m: nat)
    requires IsRun(states, steps) && j < |steps| && DownAt(states, j, n, m) && BothOpen(states[j + 1], n, m)
    ensures DownAt(states, j + 1, n, m) <==> !RevivesAt(states, steps, j, n, m)
  {
    TablesInEveryState(states, steps, j);
    assert StepAt(states, steps, j);
    DownStepExactly(states[j], steps[j], states[j + 1], n, m);
  }

  /**
   In every run, clashes included: a link taken down stays down while both ends are open, if and
   only if no step revives it.
   */
  lemma {:induction false} DownRunsExactly(states: seq<Hub>, steps: seq<Step>, i: nat, j: nat, n: nat, m: nat)
    requires IsRun(states, steps) && i <= j < |states| && DownAt(states, i, n, m) && BothOpen(states[j], n, m)
    ensures (forall t: nat | i <= t <= j :: DownAt(states, t, n, m)) <==>
            (forall t: nat | i <= t < j :: !RevivesAt(states, steps, t, n, m))
    decreases j
  {
    if i < j {
      ConfirmedBetween(states, steps, i, j - 1, j, n);
      ConfirmedBetween(states, steps, i, j - 1, j, m);
      DownRunsExactly(states, steps, i, j - 1, n, m);
      if DownAt(states, j - 1, n, m) { DownDecides(states, steps, j - 1, n, m); }
    }
  }

  /** With an exact registry no other connection is open under the key of an end. */
  lemma NothingRevives(h: Hub, s: Step, g: Hub, n: nat, m: nat)
    requires RegistryOk(h) && Next(h, s, g) && Down(h, n, m)
    ensures !Revives(h, s, n, m)
  {
  }

  /** In runs without a clash a link that was taken down never comes back while both ends stay open. */
  lemma DownStaysDown(states: seq<Hub>, steps: seq<Step>, i: nat, j: nat, n: nat, m: nat)
    requires IsRun(states, steps) && i <= j < |states| && NoClash(states, steps, |steps|)
    requires DownAt(states, i, n, m) && BothOpen(states[j], n, m)
    ensures DownAt(states, j, n, m)
  {
    DownRunsExactly(states, steps, i, j, n, m);
    if !DownAt(states, j, n, m) {
      var t := FirstRevival(states, steps, i, j, n, m);
      GoodRunsExactly(states, steps);
      assert GoodAt(states, t) && StepAt(states, steps, t);
      NothingRevives(states[t], steps[t], states[t + 1], n, m);
    }
  }

  lemma {:induction false} FirstRevival(states: seq<Hub>, steps: seq<Step>, i: nat, j: nat, n: nat, m: nat)
    returns (t: nat)
    requires IsRun(states, steps) && i <= j < |states|
    requires DownAt(states, i, n, m) && BothOpen(states[j], n, m) && !DownAt(states, j, n, m)
    ensures i <= t < j && DownAt(states, t, n, m) && RevivesAt(states, steps, t, n, m)
    decreases j
  {
    ConfirmedBetween(states, steps, i, j - 1, j, n);
    ConfirmedBetween(states, steps, i, j - 1, j, m);
    if DownAt(states, j - 1, n, m) {
      DownDecides(states, steps, j - 1, n, m);
      t := j - 1;
    } else {
      t := FirstRevival(states, steps, i, j - 1, n, m);
    }
  }

  // ---------------------------------------------------------------- a link that comes back

  /** Connections 0 and 1 of the example, unlinked, with `k2` registered or not. */
  ghost predicate Apart(h: Hub) {
    && 0 in h.conns && h.conns[0].phase == Confirmed && h.conns[0].key == ExampleKey(1)
    && h.conns[0].table == map[ExampleKey(2) := Entry(16, 1, 0)]
    && 1 in h.conns && h.conns[1].phase == Confirmed && h.conns[1].key == ExampleKey(2)
    && h.conns[1].table == map[ExampleKey(1) := Entry(16, 1, 0)]
  }

  lemma ApartIsDown(h: Hub)
    requires Apart(h)
    ensures Down(h, 0, 1)
  {
  }

  /** The linked pair, after connection 0 took the link down. */
  lemma TakenDown() returns (h: Hub)
    ensures Reachable(h) && Wf(h) && Apart(h)
    ensures h.conns.Keys == {0, 1} && h.registry == map[ExampleKey(1) := 0, ExampleKey(2) := 1]
  {
    var g := LinkedPair();
    var k1, k2 := ExampleKey(1), ExampleKey(2);
    ReachableHasIds(g, 0, k2);
    ReachableHasIds(g, 1, k1);
    SecondIdFree(g, 0, k2);
    h := TakeDown(g, 0, k2, 1, k1);
    assert Dispatch(g, 0, [DISCONNECT_NOTIFICATION, 16], 1) == Some(h);
    Extend(g, Packet(0, [DISCONNECT_NOTIFICATION, 16], 1), h);
    TakeDownTables(g, 0, k2, 1, k1);
    ReachableIsWf(h);
  }

  lemma ReachableHasIds(h: Hub, n: nat, k: Key)
    requires Reachable(h) && n in h.conns && k in h.conns[n].table
    ensures h.conns[n].table[k].connid in h.conns[n].byId && h.conns[n].byId[h.conns[n].table[k].connid] == k
  {
    var states: seq<Hub>, steps: seq<Step> :| IsRun(states, steps) && states[|steps|] == h;
    TablesInEveryState(states, steps, |steps|);
    assert TableOk(h.conns[n]);
  }

  lemma SecondIdFree(h: Hub, n: nat, k: Key)
    requires Reachable(h) && n in h.conns && h.conns[n].table == map[k := Entry(16, 2, 16)]
    ensures 1 in FreeIds(h.conns[n])
  {
    var states: seq<Hub>, steps: seq<Step> :| IsRun(states, steps) && states[|steps|] == h;
    TablesInEveryState(states, steps, |steps|);
    assert TableOk(h.conns[n]);
  }

  /** A stray close under the key of connection 1. */
  lemma StrayAfter() returns (h: Hub)
    ensures Reachable(h) && Wf(h) && Apart(h)
    ensures h.conns.Keys == {0, 1, 2} && h.registry == map[ExampleKey(1) := 0]
  {
    var g := TakenDown();
    var k2 := ExampleKey(2);
    var d := SetConn(g, 2, NewConn());
    Extend(g, Accept(2), d);
    var e := SetConn(d, 2, d.conns[2].(phase := Unconfirmed, key := k2));
    Extend(d, Handshake(2, k2), e);
    h := Close(e, 2);
    Extend(e, Hangup(2), h);
    StrayLeavesApart(e, h);
    ReachableIsWf(h);
  }

  lemma StrayLeavesApart(e: Hub, h: Hub)
    requires Apart(e) && e.conns.Keys == {0, 1, 2} && e.registry == map[ExampleKey(1) := 0, ExampleKey(2) := 1]
    requires e.conns[2].phase == Unconfirmed && e.conns[2].key == ExampleKey(2) && h == Close(e, 2)
    ensures Apart(h) && h.conns.Keys == {0, 1, 2} && h.registry == map[ExampleKey(1) := 0]
  {
    ExampleKeysDiffer();
    CloseHasShape(e, 2);
    ClosedSame(e.conns[0], h.conns[0], ExampleKey(2), 0 in h.registry.Values);
    ClosedSame(e.conns[1], h.conns[1], ExampleKey(2), 1 in h.registry.Values);
  }

  lemma ClosedSame(c: Conn, d: Conn, key: Key, listed: bool)
    requires ClosedAs(c, d, key, false, listed) && (key in c.table ==> c.table[key] == Entry(c.table[key].connid, 1, 0))
    ensures d.phase == c.phase && d.key == c.key && d.table == c.table
  {
  }

  /** Another connection under the key of 1 links 0 again, while 0 and 1 are both open. */
  lemma LinkComesBack() returns (h: Hub, s: Step, g: Hub)
    ensures Reachable(h) && Down(h, 0, 1) && Next(h, s, g) && BothOpen(g, 0, 1) && !Down(g, 0, 1)
  {
    ExampleKeysDiffer();
    var c := StrayAfter();
    h := BringUp(c, 3, ExampleKey(2));
    ApartIsDown(h);
    s, g := AskAgain(h);
  }

  lemma AskAgain(h: Hub) returns (s: Step, g: Hub)
    requires Reachable(h) && Wf(h) && Down(h, 0, 1) && h.conns[1].key == ExampleKey(2) && 3 in h.conns
    requires h.conns[3] == Conn(Confirmed, ExampleKey(2), map[], map[], {}, [[PONG]], [])
    requires h.registry == map[ExampleKey(1) := 0, ExampleKey(2) := 3]
    ensures Next(h, s, g) && BothOpen(g, 0, 1) && !Down(g, 0, 1)
  {
    ExampleKeysDiffer();
    var peer := ExampleKey(1);
    var plain := [ROUTING_REQUEST] + peer;
    assert plain[1..33] == peer;
    assert 0 in FreeIds(h.conns[3]);
    s, g := Packet(3, plain, 0), NewRoute(h, 3, peer, 0);
    assert Takes(h, 3, peer, 0, 1);
    StaysOpen(h, s, g);
    RevivedBy(h, s, g);
  }

  lemma StaysOpen(h: Hub, s: Step, g: Hub)
    requires Wf(h) && Opens(h, s) && Next(h, s, g) && BothOpen(h, 0, 1)
    ensures BothOpen(g, 0, 1)
  {
    OpensIs(h, s, g);
    NewRouteSameRoles(h, s.n, s.plain[1..33], s.pick);
  }

  lemma RevivedBy(h: Hub, s: Step, g: Hub)
    requires Reachable(h) && Next(h, s, g) && Down(h, 0, 1) && BothOpen(g, 0, 1) && Revives(h, s, 0, 1)
    ensures !Down(g, 0, 1)
  {
    var states: seq<Hub>, steps: seq<Step> :| IsRun(states, steps) && states[|steps|] == h;
    TablesInEveryState(states, steps, |steps|);
    DownStepExactly(h, s, g, 0, 1);
  }
}

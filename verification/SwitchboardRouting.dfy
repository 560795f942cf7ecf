/**
 Forwarding through the switchboard: who receives what, under which id, and how many ids there are.
 */
module SwitchboardRouting {
  import opened Bytes
  import opened Switchboard
  import opened SwitchboardShapes
  import opened SwitchboardInvariants
  import opened SwitchboardRuns

  // ---------------------------------------------------------------- the registry names open connections

  /** Unlike `RegistryOk` this half holds in every run, clashes included. */
  ghost predicate Listed(h: Hub) {
    forall k <- h.registry ::
      var n := h.registry[k]; n in h.conns && h.conns[n].phase == Confirmed && h.conns[n].key == k
  }

  lemma StepKeepsListed(h: Hub, s: Step, g: Hub)
    requires Listed(h) && Next(h, s, g)
    ensures Listed(g)
  {
    match s
    case Accept(n) =>
    case Handshake(n, key) =>
    case First(n, plain) => ConfirmHasShape(h, n, plain);
    case Packet(n, plain, pick) => DispatchSameRoles(h, n, plain, pick);
    case FlushCtrl(n) =>
    case FlushData(n) =>
    case Hangup(n) =>
      if h.conns[n].phase != NoStatus {
        CloseHasShape(h, n);
        forall k | k in g.registry
          ensures g.registry[k] in g.conns && g.conns[g.registry[k]].phase == Confirmed
          ensures g.conns[g.registry[k]].key == k
        {
          var x := g.registry[k];
          assert ClosedAs(h.conns[x], g.conns[x], h.conns[n].key, x == n, x in g.registry.Values);
        }
      }
  }

  lemma {:induction false} ListedInEveryState(states: seq<Hub>, steps: seq<Step>, i: nat)
    requires IsRun(states, steps) && i < |states|
    ensures Listed(states[i])
  {
    if i > 0 {
      ListedInEveryState(states, steps, i - 1);
      assert StepAt(states, steps, i - 1);
      StepKeepsListed(states[i - 1], steps[i - 1], states[i]);
    }
  }

  // ---------------------------------------------------------------- routing is an involution

  lemma ReplyExactly(h: Hub, n: nat, a: Byte, m: nat, b: Byte)
    requires TablesOk(h) && Listed(h) && n in h.conns && RouteOf(h, n, a) == Some((m, b))
    ensures m in h.conns && h.conns[m].phase == Confirmed
    ensures h.conns[m].key in h.registry && h.registry[h.conns[m].key] == m
    ensures h.conns[n].byId[a] == h.conns[m].key
    ensures RouteOf(h, m, b) == Some((n, a)) <==> (h.conns[n].key in h.registry && h.registry[h.conns[n].key] == n)
  {
    assert TableOk(h.conns[n]) && TableOk(h.conns[m]);
  }

  /**
   In every reachable state: data that `n` sends on its id `a` reaches only the connection
   registered for that peer, and a reply on the tag comes back to `n` on `a` exactly when `n`
   is still the registered connection of its key.
   */
  lemma RoutingIsAnInvolution(states: seq<Hub>, steps: seq<Step>, i: nat, n: nat, a: Byte, m: nat, b: Byte)
    requires IsRun(states, steps) && i < |states| && n in states[i].conns
    requires Wf(states[i]) && RouteOf(states[i], n, a) == Some((m, b))
    ensures m in states[i].conns && states[i].conns[m].phase == Confirmed
    ensures states[i].conns[m].key in states[i].registry && states[i].registry[states[i].conns[m].key] == m
    ensures a in states[i].conns[n].byId && states[i].conns[n].byId[a] == states[i].conns[m].key
    ensures RouteOf(states[i], m, b) == Some((n, a)) <==>
            (states[i].conns[n].key in states[i].registry && states[i].registry[states[i].conns[n].key] == n)
  {
    TablesInEveryState(states, steps, i);
    ListedInEveryState(states, steps, i);
    ReplyExactly(states[i], n, a, m, b);
  }

  /** In a run without clashes every confirmed sender gets its replies back on the same id. */
  lemma RepliesComeBack(states: seq<Hub>, steps: seq<Step>, i: nat, n: nat, a: Byte, m: nat, b: Byte)
    requires IsRun(states, steps) && NoClash(states, steps, |steps|) && i < |states|
    requires n in states[i].conns && states[i].conns[n].phase == Confirmed
    requires Wf(states[i]) && RouteOf(states[i], n, a) == Some((m, b))
    ensures m in states[i].conns && RouteOf(states[i], m, b) == Some((n, a))
  {
    RoutingIsAnInvolution(states, steps, i, n, a, m, b);
    GoodRunsExactly(states, steps);
    assert GoodAt(states, i);
  }

  /** A data packet touches at most one queue: it appends the retagged payload there, or is dropped. */
  lemma DataTouchesOneQueue(h: Hub, n: nat, plain: seq<Byte>)
    requires Wf(h) && n in h.conns && plain != []
    ensures var g := RouteData(h, n, plain);
      && g.registry == h.registry && g.conns.Keys == h.conns.Keys
      && match RouteOf(h, n, plain[0])
         case None => g == h
         case Some((m, b)) =>
           && (forall x <- h.conns :: x != m ==> g.conns[x] == h.conns[x])
           && (g.conns[m].data ==
               if |plain| <= 2049 && |h.conns[m].data| < 128
               then h.conns[m].data + [[b] + plain[1..]] else h.conns[m].data)
  {
  }

  // ---------------------------------------------------------------- at most 240 peers

  lemma {:induction false} BoundedCard(s: set<Byte>, n: nat)
    requires n <= 256 && forall x <- s :: x < n
    ensures |s| <= n
    ensures |s| == n <==> forall x: Byte | x < n :: x in s
  {
    if n > 0 {
      var top: Byte := n - 1;
      BoundedCard(s - {top}, n - 1);
      assert top in s ==> s == (s - {top}) + {top};
      assert top !in s ==> s == s - {top};
    }
  }

  lemma {:induction false} InjectionCard<K, V>(m: map<K, V>, target: set<V>)
    requires forall x, y | x in m && y in m && m[x] == m[y] :: x == y
    requires forall x <- m :: m[x] in target
    ensures |m.Keys| <= |target|
    decreases m.Keys
  {
    if m.Keys != {} {
      var x :| x in m.Keys;
      var rest := m - {x};
      assert m.Keys == rest.Keys + {x};
      assert target == (target - {m[x]}) + {m[x]};
      InjectionCard(rest, target - {m[x]});
    }
  }

  lemma OneIdEach(c: Conn)
    requires TableOk(c)
    ensures |c.table| == |c.used|
  {
    IdPerKey(c);
    KeyPerId(c);
  }

  lemma IdPerKey(c: Conn)
    requires TableOk(c)
    ensures |c.table| <= |c.used|
  {
    var ids: map<Key, Byte> := map k | k in c.table :: c.table[k].connid - NUM_RESERVED_PORTS;
    InjectionCard(ids, c.used);
    assert ids.Keys == c.table.Keys;
  }

  lemma KeyPerId(c: Conn)
    requires TableOk(c)
    ensures |c.used| <= |c.table|
  {
    var keys: map<Byte, Key> := map u | u in c.used :: c.byId[u + NUM_RESERVED_PORTS];
    InjectionCard(keys, c.table.Keys);
    assert keys.Keys == c.used;
  }

  /** A connection never holds more than 240 peers, and it refuses newcomers exactly when it holds 240. */
  lemma AtMost240Peers(c: Conn)
    requires TableOk(c)
    ensures |c.table| <= 240
    ensures FreeIds(c) == {} <==> |c.table| == 240
  {
    OneIdEach(c);
    BoundedCard(c.used, 240);
    assert forall x: Byte | x < 240 :: x in FreeIds(c) <==> x !in c.used;
  }

  lemma AtMost240PeersInEveryState(states: seq<Hub>, steps: seq<Step>, i: nat, n: nat)
    requires IsRun(states, steps) && i < |states| && n in states[i].conns
    ensures |states[i].conns[n].table| <= 240
    ensures FreeIds(states[i].conns[n]) == {} <==> |states[i].conns[n].table| == 240
  {
    TablesInEveryState(states, steps, i);
    AtMost240Peers(states[i].conns[n]);
  }
}

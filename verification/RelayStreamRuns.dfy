/** What every state of every run of the relay stream machine satisfies. */
module RelayStreamRuns {
  import opened Bytes
  import opened Varint
  import opened SocketIds
  import opened RelaySender
  import opened RelayStream

  // ---------------------------------------------------------------- the accepting side

  /** The whole connections of `id` among the first `n`, in opening order. */
  function Indices(ws: seq<Wire>, n: nat, id: Id): seq<nat>
    requires n <= |ws|
  {
    if n == 0 then []
    else if Mine(ws[n - 1], id) then Indices(ws, n - 1, id) + [n - 1]
    else Indices(ws, n - 1, id)
  }

  ghost predicate Readable(ws: seq<Wire>, taken: seq<nat>) {
    forall a | 0 <= a < |taken| :: taken[a] < |ws| && ws[taken[a]].read <= |Payload(ws[taken[a]])|
  }

  /** What has been read from the connections `taken`, one after the other. */
  ghost function Reads(ws: seq<Wire>, taken: seq<nat>): seq<Byte>
    requires Readable(ws, taken)
  {
    if taken == [] then []
    else
      var n := |taken| - 1;
      Reads(ws, taken[..n]) + Payload(ws[taken[n]])[..ws[taken[n]].read]
  }

  ghost predicate Increasing(s: seq<nat>, bound: nat) {
    && (forall a, b | 0 <= a < b < |s| :: s[a] < s[b])
    && (forall a | 0 <= a < |s| :: s[a] < bound)
  }

  ghost predicate AllDone(ws: seq<Wire>, taken: seq<nat>) {
    forall a | 0 <= a < |taken| :: taken[a] < |ws| && Done(ws[taken[a]])
  }

  ghost predicate AllMine(ws: seq<Wire>, taken: seq<nat>, id: Id) {
    forall a | 0 <= a < |taken| :: taken[a] < |ws| && Mine(ws[taken[a]], id)
  }

  /** The connections that an accepting socket has finished: all it took, but for the current one. */
  function Finished(k: Sock): seq<nat> {
    if k.cur.Some? && k.got != [] then k.got[..|k.got| - 1] else k.got
  }

  /** Connections of `id` in opening order. */
  ghost predicate InOrder(ws: seq<Wire>, cursor: nat, id: Id, all: seq<nat>) {
    cursor <= |ws| && Increasing(all, cursor) && AllMine(ws, all, id)
  }

  ghost predicate Unread(ws: seq<Wire>, waiting: seq<nat>) {
    forall a | 0 <= a < |waiting| :: waiting[a] < |ws| && ws[waiting[a]].read == 0
  }

  /** Each connection is read to its end before the next one. */
  ghost predicate ReadInTurn(ws: seq<Wire>, k: Sock) {
    && Readable(ws, k.got) && Unread(ws, k.ch)
    && AllDone(ws, Finished(k))
    && (k.cur.Some? ==> k.got != [] && k.got[|k.got| - 1] == k.cur.value)
    && k.out == Reads(ws, k.got)
  }

  /** A socket takes its own connections in opening order, each to its end before the next one. */
  ghost predicate SockOk(ws: seq<Wire>, cursor: nat, id: Id, k: Sock) {
    InOrder(ws, cursor, id, k.got + k.ch) && ReadInTurn(ws, k)
  }

  // ---------------------------------------------------------------- stability

  lemma {:induction false} IndicesSame(ws: seq<Wire>, vs: seq<Wire>, n: nat, id: Id)
    requires n <= |ws| && n <= |vs|
    requires forall j | 0 <= j < n :: Mine(ws[j], id) <==> Mine(vs[j], id)
    ensures Indices(ws, n, id) == Indices(vs, n, id)
  {
    if n > 0 { IndicesSame(ws, vs, n - 1, id); }
  }

  ghost predicate SameRead(w: Wire, v: Wire) {
    w.read == v.read && Payload(w) <= Payload(v)
  }

  lemma SameReadPrefix(w: Wire, v: Wire)
    requires SameRead(w, v) && w.read <= |Payload(w)|
    ensures v.read <= |Payload(v)| && Payload(v)[..v.read] == Payload(w)[..w.read]
  {
  }

  lemma {:induction false} ReadsSame(ws: seq<Wire>, vs: seq<Wire>, taken: seq<nat>)
    requires Readable(ws, taken) && |ws| <= |vs|
    requires forall a | 0 <= a < |taken| :: SameRead(ws[taken[a]], vs[taken[a]])
    ensures Readable(vs, taken) && Reads(vs, taken) == Reads(ws, taken)
    decreases |taken|
  {
    if taken != [] {
      var n := |taken| - 1;
      ReadsSame(ws, vs, taken[..n]);
      SameReadPrefix(ws[taken[n]], vs[taken[n]]);
    }
  }

  lemma GrewSameRead(w: Wire, v: Wire, id: Id)
    requires Grew(w, v, id)
    ensures SameRead(w, v) && (Done(w) ==> Done(v)) && (forall x :: Mine(w, x) <==> Mine(v, x))
  {
  }

  lemma SockGrows(ws: seq<Wire>, vs: seq<Wire>, cursor: nat, id: Id, k: Sock, who: Id)
    requires SockOk(ws, cursor, id, k) && AllGrew(ws, vs, who)
    ensures SockOk(vs, cursor, id, k)
  {
    forall i | 0 <= i < |ws|
      ensures SameRead(ws[i], vs[i]) && (Done(ws[i]) ==> Done(vs[i])) && (Mine(ws[i], id) <==> Mine(vs[i], id))
    {
      GrewSameRead(ws[i], vs[i], who);
    }
    ReadsSame(ws, vs, k.got);
  }

  lemma IndicesGrow(ws: seq<Wire>, vs: seq<Wire>, n: nat, id: Id, who: Id)
    requires n <= |ws| && AllGrew(ws, vs, who)
    ensures Indices(vs, n, id) == Indices(ws, n, id)
  {
    forall j | 0 <= j < n ensures Mine(ws[j], id) <==> Mine(vs[j], id) { GrewSameRead(ws[j], vs[j], who); }
    IndicesSame(ws, vs, n, id);
  }

  // ---------------------------------------------------------------- the steps of one accepting socket

  lemma AcceptKeeps(ws: seq<Wire>, cursor: nat, id: Id, k: Sock)
    requires SockOk(ws, cursor, id, k) && k.cur.None? && k.ch != []
    ensures SockOk(ws, cursor, id, TakeNext(k))
    ensures TakeNext(k).got + TakeNext(k).ch == k.got + k.ch
  {
    assert TakeNext(k).got + TakeNext(k).ch == k.got + k.ch;
    TakenInTurn(ws, k);
  }

  lemma TakenInTurn(ws: seq<Wire>, k: Sock)
    requires ReadInTurn(ws, k) && k.cur.None? && k.ch != []
    ensures ReadInTurn(ws, TakeNext(k))
  {
    var k1 := TakeNext(k);
    assert k1.got[..|k.got|] == k.got == Finished(k1);
    assert k1.got[|k.got|] == k.ch[0];
    assert Reads(ws, k1.got) == Reads(ws, k.got) + [];
  }

  lemma EofKeeps(ws: seq<Wire>, cursor: nat, id: Id, k: Sock)
    requires SockOk(ws, cursor, id, k) && k.cur.Some? && k.cur.value < |ws| && Done(ws[k.cur.value])
    ensures SockOk(ws, cursor, id, k.(cur := None))
  {
    var n := |k.got| - 1;
    forall a | 0 <= a < |k.got| ensures k.got[a] < |ws| && Done(ws[k.got[a]]) {
      if a < n { assert Finished(k)[a] == k.got[a]; }
    }
  }

  lemma ReadKeeps(ws: seq<Wire>, cursor: nat, id: Id, k: Sock, n: nat)
    requires SockOk(ws, cursor, id, k) && k.cur.Some? && k.cur.value < |ws|
    requires ws[k.cur.value].read + n <= |Payload(ws[k.cur.value])|
    ensures SockOk(Advance(ws, k.cur.value, n), cursor, id, TakeBytes(k, ws[k.cur.value], n))
  {
    CurOnce(k, cursor);
    MineAdvance(ws, cursor, id, k.got + k.ch, k.cur.value, n);
    BytesInTurn(ws, k, n);
  }

  lemma BytesInTurn(ws: seq<Wire>, k: Sock, n: nat)
    requires ReadInTurn(ws, k) && k.cur.Some? && k.cur.value < |ws|
    requires ws[k.cur.value].read + n <= |Payload(ws[k.cur.value])|
    requires forall a | 0 <= a < |k.got| - 1 :: k.got[a] != k.cur.value
    requires forall a | 0 <= a < |k.ch| :: k.ch[a] != k.cur.value
    ensures ReadInTurn(Advance(ws, k.cur.value, n), TakeBytes(k, ws[k.cur.value], n))
  {
    var vs := Advance(ws, k.cur.value, n);
    ReadsAdvance(ws, k.got, n);
    forall a | 0 <= a < |Finished(k)| ensures Finished(k)[a] < |vs| && Done(vs[Finished(k)[a]]) {
      assert Finished(k)[a] == k.got[a];
    }
  }

  lemma ReadsAdvance(ws: seq<Wire>, taken: seq<nat>, n: nat)
    requires Readable(ws, taken) && taken != []
    requires forall a | 0 <= a < |taken| - 1 :: taken[a] != taken[|taken| - 1]
    requires ws[taken[|taken| - 1]].read + n <= |Payload(ws[taken[|taken| - 1]])|
    ensures var i := taken[|taken| - 1];
      && Readable(Advance(ws, i, n), taken)
      && Reads(Advance(ws, i, n), taken) == Reads(ws, taken) + Payload(ws[i])[ws[i].read..ws[i].read + n]
  {
    var i := taken[|taken| - 1];
    OneAdvances(ws[i], n);
    LastGrows(ws, Advance(ws, i, n), taken, Payload(ws[i])[ws[i].read..ws[i].read + n]);
  }

  lemma LastGrows(ws: seq<Wire>, vs: seq<Wire>, taken: seq<nat>, more: seq<Byte>)
    requires Readable(ws, taken) && taken != [] && |ws| <= |vs|
    requires forall a | 0 <= a < |taken| - 1 :: vs[taken[a]] == ws[taken[a]]
    requires var w, v := ws[taken[|taken| - 1]], vs[taken[|taken| - 1]];
      v.read <= |Payload(v)| && Payload(v)[..v.read] == Payload(w)[..w.read] + more
    ensures Readable(vs, taken) && Reads(vs, taken) == Reads(ws, taken) + more
  {
    var m := |taken| - 1;
    var w := ws[taken[m]];
    ReadsSame(ws, vs, taken[..m]);
    Assoc(Reads(ws, taken[..m]), Payload(w)[..w.read], more);
  }

  lemma OneAdvances(w: Wire, n: nat)
    requires w.read + n <= |Payload(w)|
    ensures var v := w.(read := w.read + n);
      Payload(v) == Payload(w) && Payload(v)[..v.read] == Payload(w)[..w.read] + Payload(w)[w.read..w.read + n]
  {
  }

  lemma AdvanceMine(ws: seq<Wire>, i: nat, n: nat, id: Id)
    requires i < |ws|
    ensures forall j | 0 <= j < |ws| :: Mine(Advance(ws, i, n)[j], id) <==> Mine(ws[j], id)
  {
  }

  lemma MineAdvance(ws: seq<Wire>, cursor: nat, id: Id, all: seq<nat>, i: nat, n: nat)
    requires InOrder(ws, cursor, id, all) && i < |ws|
    ensures InOrder(Advance(ws, i, n), cursor, id, all)
  {
    AdvanceMine(ws, i, n, id);
  }

  /** The current connection occurs once among those taken and queued. */
  lemma CurOnce(k: Sock, cursor: nat)
    requires Increasing(k.got + k.ch, cursor) && k.cur.Some? && k.got != [] && k.got[|k.got| - 1] == k.cur.value
    ensures forall a | 0 <= a < |k.got| - 1 :: k.got[a] != k.cur.value
    ensures forall a | 0 <= a < |k.ch| :: k.ch[a] != k.cur.value
  {
    var all := k.got + k.ch;
    assert all[|k.got| - 1] == k.cur.value;
    assert forall a | 0 <= a < |k.got| :: all[a] == k.got[a];
    assert forall a | 0 <= a < |k.ch| :: all[|k.got| + a] == k.ch[a];
  }

  lemma OtherReads(ws: seq<Wire>, cursor: nat, id: Id, k: Sock, i: nat, n: nat)
    requires SockOk(ws, cursor, id, k) && i < |ws| && ws[i].owner != id
    ensures SockOk(Advance(ws, i, n), cursor, id, k)
  {
    var all := k.got + k.ch;
    forall a | 0 <= a < |k.got| ensures k.got[a] != i { assert all[a] == k.got[a] && Mine(ws[all[a]], id); }
    forall a | 0 <= a < |k.ch| ensures k.ch[a] != i {
      assert all[|k.got| + a] == k.ch[a] && Mine(ws[all[|k.got| + a]], id);
    }
    MineAdvance(ws, cursor, id, all, i, n);
    OtherInTurn(ws, k, i, n);
  }

  lemma OtherInTurn(ws: seq<Wire>, k: Sock, i: nat, n: nat)
    requires ReadInTurn(ws, k) && i < |ws|
    requires forall a | 0 <= a < |k.got| :: k.got[a] != i
    requires forall a | 0 <= a < |k.ch| :: k.ch[a] != i
    ensures ReadInTurn(Advance(ws, i, n), k)
  {
    var vs := Advance(ws, i, n);
    ReadsSame(ws, vs, k.got);
    forall a | 0 <= a < |Finished(k)| ensures Finished(k)[a] < |vs| && Done(vs[Finished(k)[a]]) {
      assert Finished(k)[a] == k.got[a];
    }
  }

  lemma EnqueueKeeps(ws: seq<Wire>, cursor: nat, id: Id, k: Sock)
    requires SockOk(ws, cursor, id, k) && cursor < |ws| && Mine(ws[cursor], id) && ws[cursor].read == 0
    ensures SockOk(ws, cursor + 1, id, k.(ch := k.ch + [cursor]))
  {
    assert k.got + (k.ch + [cursor]) == (k.got + k.ch) + [cursor];
  }

  // ---------------------------------------------------------------- prefixes

  lemma {:induction false} PayloadsAreStream(ws: seq<Wire>, n: nat, id: Id)
    requires n <= |ws|
    ensures forall a | 0 <= a < |Indices(ws, n, id)| :: Indices(ws, n, id)[a] < n
    ensures Payloads(ws, Indices(ws, n, id)) == Stream(ws[..n], id)
  {
    if n > 0 {
      PayloadsAreStream(ws, n - 1, id);
      assert ws[..n][..n - 1] == ws[..n - 1];
      var all := Indices(ws, n - 1, id);
      if Mine(ws[n - 1], id) {
        assert (all + [n - 1])[..|all|] == all;
      } else {
        assert Stream(ws[..n - 1], id) + [] == Stream(ws[..n - 1], id);
      }
    }
  }

  /** The payloads of the connections `taken`, one after the other. */
  function Payloads(ws: seq<Wire>, taken: seq<nat>): seq<Byte>
    requires forall a | 0 <= a < |taken| :: taken[a] < |ws|
  {
    if taken == [] then [] else Payloads(ws, taken[..|taken| - 1]) + Payload(ws[taken[|taken| - 1]])
  }

  lemma {:induction false} DoneReads(ws: seq<Wire>, taken: seq<nat>)
    requires Readable(ws, taken) && AllDone(ws, taken)
    ensures Reads(ws, taken) == Payloads(ws, taken)
    decreases |taken|
  {
    if taken != [] {
      var n := |taken| - 1;
      DoneReads(ws, taken[..n]);
      assert Payload(ws[taken[n]])[..ws[taken[n]].read] == Payload(ws[taken[n]]);
    }
  }

  lemma {:induction false} PayloadsPrefix(ws: seq<Wire>, some: seq<nat>, all: seq<nat>)
    requires some <= all && forall a | 0 <= a < |all| :: all[a] < |ws|
    ensures Payloads(ws, some) <= Payloads(ws, all)
    decreases |all|
  {
    if |some| < |all| {
      assert some <= all[..|all| - 1];
      PayloadsPrefix(ws, some, all[..|all| - 1]);
    } else {
      assert some == all;
    }
  }

  /** Connections read to the end, but for the last one, give a prefix of their payloads. */
  lemma ReadsBelowPayloads(ws: seq<Wire>, taken: seq<nat>)
    requires Readable(ws, taken) && (taken != [] ==> AllDone(ws, taken[..|taken| - 1]))
    ensures Reads(ws, taken) <= Payloads(ws, taken)
  {
    if taken != [] { DoneReads(ws, taken[..|taken| - 1]); }
  }

  lemma {:induction false} StreamOfPrefix(ws: seq<Wire>, n: nat, id: Id)
    requires n <= |ws|
    ensures Stream(ws[..n], id) <= Stream(ws, id)
    decreases |ws|
  {
    if n < |ws| {
      StreamOfPrefix(ws[..|ws| - 1], n, id);
      assert ws[..|ws| - 1][..n] == ws[..n];
    } else {
      assert ws[..n] == ws;
    }
  }

  // ---------------------------------------------------------------- the whole state

  predicate IsCloseMessage(w: Wire) {
    |w.owner| <= MAX_PB && RouteOf(w.owner).CloseOf? && w.bytes == PbMessage(w.owner)
  }

  /** A connection belongs to a connecting socket, or carries a close message. */
  predicate WireOk(w: Wire, ids: set<Id>) {
    || (w.owner in ids && (Whole(w) || (w.closed && w.bytes < PbMessage(w.owner))))
    || IsCloseMessage(w)
  }

  ghost predicate SenderAt(net: Net, id: Id)
    requires id in net.senders && id in net.log
  {
    IsConnId(id) && SenderOk(net.wires, id, net.senders[id]) && net.log[id] == Stream(net.wires, id)
  }

  ghost predicate SendersOk(net: Net) {
    net.senders.Keys == net.log.Keys && forall id | id in net.senders :: SenderAt(net, id)
  }

  ghost predicate WiresOk(net: Net) {
    && net.cursor <= |net.wires|
    && (forall j | 0 <= j < |net.wires| :: WireOk(net.wires[j], net.senders.Keys))
    && (forall j | net.cursor <= j < |net.wires| :: net.wires[j].read == 0)
  }

  ghost predicate SocksOk(net: Net) {
    net.socks.Keys <= net.senders.Keys && forall id | id in net.socks :: SockAt(net, id)
  }

  ghost predicate SockAt(net: Net, id: Id)
    requires id in net.socks
  {
    SockOk(net.wires, net.cursor, id, net.socks[id])
  }

  /** The connections dispatched to the accepting socket `id`. */
  function Queued(net: Net, id: Id): seq<nat> {
    if id in net.socks then net.socks[id].got + net.socks[id].ch else []
  }

  ghost predicate QueuedAll(net: Net, id: Id) {
    net.cursor <= |net.wires| && Queued(net, id) == Indices(net.wires, net.cursor, id)
  }

  ghost predicate NothingLost(net: Net) {
    forall id | id in net.senders && id !in net.lost :: QueuedAll(net, id)
  }

  ghost predicate NetOk(net: Net) {
    SendersOk(net) && WiresOk(net) && SocksOk(net) && NothingLost(net)
  }

  // ---------------------------------------------------------------- ids and headers

  lemma CloseIdRoutes(id: Id)
    requires IsConnId(id)
    ensures |id| >= 6 && |CloseId(id)| <= MAX_PB && RouteOf(CloseId(id)).CloseOf? && !IsConnId(CloseId(id))
  {
    ConnIdShape(id);
    var c := CloseId(id);
    assert c[|c| - 1] == id[|id| - 1];
    assert TrimRight(c) == c;
    assert c[0] == 99;
    if IsConnId(c) { ConnIdShape(c); assert false; }
  }

  lemma OpenedIsOk(w: Wire, id: Id, ids: set<Id>)
    requires Opened(w, id) && IsConnId(id) && id in ids
    ensures WireOk(w, ids)
  {
    CloseIdRoutes(id);
  }

  /** A header that broke off is never taken for an id. */
  lemma TruncatedUnread(bytes: seq<Byte>, id: Id)
    requires IsConnId(id) && bytes < PbMessage(id)
    ensures ReadOnePb(bytes) == None
  {
    ConnIdShape(id);
    assert PbMessage(id)[0] == |id|;
    if bytes != [] {
      assert bytes[0] == |id|;
      assert Decode(bytes) == Some((|id|, 1));
    }
  }

  lemma WholeRouted(w: Wire, id: Id)
    requires IsConnId(id) && Mine(w, id)
    ensures ReadOnePb(w.bytes) == Some((id, Payload(w))) && RouteOf(id) == To(id)
  {
    ConnIdShape(id);
    assert w.bytes == PbMessage(id) + Payload(w);
    PbRoundTrip(id, Payload(w));
    ConnIdRoutes(id);
  }

  lemma CloseMessageRouted(w: Wire)
    requires IsCloseMessage(w)
    ensures ReadOnePb(w.bytes) == Some((w.owner, []))
  {
    PbRoundTrip(w.owner, []);
    assert w.bytes + [] == w.bytes;
  }

  lemma ConnIdIsNoClose(w: Wire, id: Id)
    requires IsCloseMessage(w) && IsConnId(id)
    ensures w.owner != id
  {
    ConnIdRoutes(id);
  }

  // ---------------------------------------------------------------- every step keeps NetOk

  lemma {:induction false} NoWiresYet(ws: seq<Wire>, ids: set<Id>, id: Id, n: nat)
    requires IsConnId(id) && id !in ids && n <= |ws| && forall j | 0 <= j < |ws| :: WireOk(ws[j], ids)
    ensures Stream(ws[..n], id) == [] && Indices(ws, n, id) == []
  {
    if n > 0 {
      NoWiresYet(ws, ids, id, n - 1);
      assert ws[..n][..n - 1] == ws[..n - 1];
      if IsCloseMessage(ws[n - 1]) { ConnIdIsNoClose(ws[n - 1], id); }
    }
  }

  lemma NewSocketKeeps(net: Net, id: Id, limit: int)
    requires NetOk(net) && Enabled(net, NewSocket(id, limit))
    ensures NetOk(Apply(net, NewSocket(id, limit)))
  {
    var net1 := Apply(net, NewSocket(id, limit));
    NewSender(net, id, limit);
    NewQueue(net, id, limit);
    forall x | x in net1.socks ensures SockAt(net1, x) { assert SockAt(net, x); }
  }

  lemma NewQueue(net: Net, id: Id, limit: int)
    requires WiresOk(net) && NothingLost(net) && net.socks.Keys <= net.senders.Keys
    requires Enabled(net, NewSocket(id, limit))
    ensures NothingLost(Apply(net, NewSocket(id, limit)))
  {
    var net1 := Apply(net, NewSocket(id, limit));
    NoWiresYet(net.wires, net.senders.Keys, id, net.cursor);
    forall x | x in net1.senders && x !in net1.lost ensures QueuedAll(net1, x) {
      assert id !in net.socks.Keys;
      assert x != id ==> QueuedAll(net, x);
    }
  }

  lemma NewSender(net: Net, id: Id, limit: int)
    requires SendersOk(net) && WiresOk(net) && Enabled(net, NewSocket(id, limit))
    ensures SendersOk(Apply(net, NewSocket(id, limit)))
  {
    var net1 := Apply(net, NewSocket(id, limit));
    NoWiresYet(net.wires, net.senders.Keys, id, |net.wires|);
    assert net.wires[..|net.wires|] == net.wires;
    assert SenderAt(net1, id);
    forall x | x in net1.senders && x != id ensures SenderAt(net1, x) { assert SenderAt(net, x); }
  }

  lemma SendKeepsSenders(net: Net, id: Id, op: SendOp)
    requires NetOk(net) && Enabled(net, SendStep(id, op))
    ensures SendersOk(Apply(net, SendStep(id, op)))
    ensures AllGrew(net.wires, Apply(net, SendStep(id, op)).wires, id)
  {
    var net1 := Apply(net, SendStep(id, op));
    assert SenderAt(net, id);
    CloseIdRoutes(id);
    SendGrows(net.wires, id, net.senders[id], op);
    assert SenderAt(net1, id);
    forall x | x in net1.senders && x != id ensures SenderAt(net1, x) {
      assert SenderAt(net, x);
      OthersStream(net.wires, net1.wires, id, x);
      OthersOk(net.wires, net1.wires, id, x, net.senders[x]);
    }
  }

  lemma GrewKeepsWire(w: Wire, v: Wire, id: Id, ids: set<Id>)
    requires IsConnId(id) && Grew(w, v, id) && WireOk(w, ids)
    ensures WireOk(v, ids)
  {
    if IsCloseMessage(w) { ConnIdIsNoClose(w, id); }
  }

  lemma SendKeepsWires(net: Net, net1: Net, id: Id)
    requires WiresOk(net) && id in net.senders && IsConnId(id) && AllGrew(net.wires, net1.wires, id)
    requires net1.senders.Keys == net.senders.Keys && net1.cursor == net.cursor
    ensures WiresOk(net1)
  {
    forall j | 0 <= j < |net1.wires|
      ensures WireOk(net1.wires[j], net1.senders.Keys) && (j >= net.cursor ==> net1.wires[j].read == 0)
    {
      if j < |net.wires| {
        assert Grew(net.wires[j], net1.wires[j], id);
        GrewKeepsWire(net.wires[j], net1.wires[j], id, net.senders.Keys);
      } else {
        OpenedIsOk(net1.wires[j], id, net.senders.Keys);
      }
    }
  }

  lemma GrewKeepsSocks(net: Net, net1: Net, id: Id)
    requires SocksOk(net) && NothingLost(net) && AllGrew(net.wires, net1.wires, id)
    requires net1.senders.Keys == net.senders.Keys && net1.cursor == net.cursor
    requires net1.socks == net.socks && net1.lost == net.lost
    ensures SocksOk(net1) && NothingLost(net1)
  {
    forall x | x in net1.socks ensures SockAt(net1, x) {
      assert SockAt(net, x);
      SockGrows(net.wires, net1.wires, net.cursor, x, net.socks[x], id);
    }
    forall x | x in net1.senders && x !in net1.lost ensures QueuedAll(net1, x) {
      assert x in net.senders.Keys && QueuedAll(net, x);
      IndicesGrow(net.wires, net1.wires, net.cursor, x, id);
    }
  }

  lemma SendKeeps(net: Net, id: Id, op: SendOp)
    requires NetOk(net) && Enabled(net, SendStep(id, op))
    ensures NetOk(Apply(net, SendStep(id, op)))
  {
    var net1 := Apply(net, SendStep(id, op));
    SendKeepsSenders(net, id, op);
    assert IsConnId(id) by { assert SenderAt(net, id); }
    assert net1.senders.Keys == net.senders.Keys;
    SendKeepsWires(net, net1, id);
    GrewKeepsSocks(net, net1, id);
  }

  lemma CursorMoves(ws: seq<Wire>, cursor: nat, id: Id, k: Sock)
    requires SockOk(ws, cursor, id, k) && cursor < |ws|
    ensures SockOk(ws, cursor + 1, id, k)
  {
  }

  lemma NewSockOk(ws: seq<Wire>, cursor: nat, id: Id)
    requires cursor <= |ws|
    ensures SockOk(ws, cursor, id, NEW_SOCK)
  {
  }

  lemma EnqueueSockAt(net: Net, id: Id, x: Id)
    requires net.cursor < |net.wires| && Mine(net.wires[net.cursor], id) && net.wires[net.cursor].read == 0
    requires x in net.socks ==> SockAt(net, x)
    requires x in Enqueue(net.(cursor := net.cursor + 1), id, net.cursor).socks
    ensures SockAt(Enqueue(net.(cursor := net.cursor + 1), id, net.cursor), x)
  {
    var k := if x in net.socks then net.socks[x] else NEW_SOCK;
    if x !in net.socks { NewSockOk(net.wires, net.cursor, x); }
    CursorMoves(net.wires, net.cursor, x, k);
    if x == id { EnqueueKeeps(net.wires, net.cursor, id, k); }
  }

  lemma EnqueueQueued(net: Net, id: Id, x: Id)
    requires net.cursor < |net.wires| && Mine(net.wires[net.cursor], id) && QueuedAll(net, x)
    requires x !in Enqueue(net.(cursor := net.cursor + 1), id, net.cursor).lost
    ensures QueuedAll(Enqueue(net.(cursor := net.cursor + 1), id, net.cursor), x)
  {
    if x == id {
      var i, k := net.cursor, if id in net.socks then net.socks[id] else NEW_SOCK;
      assert k.got + (k.ch + [i]) == (k.got + k.ch) + [i];
    }
  }

  lemma EnqueueKeepsNet(net: Net, id: Id)
    requires WiresOk(net) && SocksOk(net) && NothingLost(net)
    requires net.cursor < |net.wires| && id in net.senders && Mine(net.wires[net.cursor], id)
    ensures var net1 := Enqueue(net.(cursor := net.cursor + 1), id, net.cursor);
      WiresOk(net1) && SocksOk(net1) && NothingLost(net1)
  {
    var net1 := Enqueue(net.(cursor := net.cursor + 1), id, net.cursor);
    forall x | x in net1.socks ensures SockAt(net1, x) { EnqueueSockAt(net, id, x); }
    forall x | x in net1.senders && x !in net1.lost ensures QueuedAll(net1, x) {
      assert QueuedAll(net, x);
      EnqueueQueued(net, id, x);
    }
  }

  /** Turns of the dispatcher that queue nothing: a close message or a broken header. */
  ghost predicate Skipped(net: Net, net1: Net) {
    && net.cursor < |net.wires| && (IsCloseMessage(net.wires[net.cursor]) || !Whole(net.wires[net.cursor]))
    && net1.wires == net.wires && net1.senders == net.senders && net1.cursor == net.cursor + 1 && net1.lost == net.lost
    && net1.socks.Keys == net.socks.Keys
    && (forall x | x in net.socks :: net1.socks[x] == net.socks[x].(signalled := net1.socks[x].signalled))
  }

  lemma SkippedQueued(net: Net, net1: Net, x: Id)
    requires Skipped(net, net1) && IsConnId(x) && QueuedAll(net, x)
    ensures QueuedAll(net1, x)
  {
    if IsCloseMessage(net.wires[net.cursor]) { ConnIdIsNoClose(net.wires[net.cursor], x); }
    assert x in net1.socks.Keys <==> x in net.socks.Keys;
    assert Queued(net1, x) == Queued(net, x);
  }

  lemma SkippedSockAt(net: Net, net1: Net, x: Id)
    requires Skipped(net, net1) && x in net.socks && x in net1.socks && SockAt(net, x)
    ensures SockAt(net1, x)
  {
  }

  lemma SkipKeeps(net: Net, net1: Net)
    requires NetOk(net) && Skipped(net, net1)
    ensures WiresOk(net1) && SocksOk(net1) && NothingLost(net1)
  {
    forall x | x in net1.socks ensures SockAt(net1, x) {
      assert x in net.socks.Keys && SockAt(net, x);
      SkippedSockAt(net, net1, x);
    }
    forall x | x in net1.senders && x !in net1.lost ensures QueuedAll(net1, x) {
      assert SenderAt(net, x) && QueuedAll(net, x);
      SkippedQueued(net, net1, x);
    }
  }

  /** What one turn of the dispatcher does with the next connection. */
  lemma DispatchIs(net: Net)
    requires net.cursor < |net.wires| && WireOk(net.wires[net.cursor], net.senders.Keys)
    requires forall x | x in net.senders :: IsConnId(x)
    ensures var w := net.wires[net.cursor];
      if !IsCloseMessage(w) && Whole(w)
      then w.owner in net.senders && Dispatch(net) == Enqueue(net.(cursor := net.cursor + 1), w.owner, net.cursor)
      else Skipped(net, Dispatch(net))
  {
    var w := net.wires[net.cursor];
    if IsCloseMessage(w) {
      CloseDispatch(net);
    } else if Whole(w) {
      WholeRouted(w, w.owner);
    } else {
      TruncatedUnread(w.bytes, w.owner);
    }
  }

  lemma CloseDispatch(net: Net)
    requires net.cursor < |net.wires| && IsCloseMessage(net.wires[net.cursor])
    ensures Skipped(net, Dispatch(net))
  {
    CloseMessageRouted(net.wires[net.cursor]);
  }

  lemma DispatchKeeps(net: Net)
    requires NetOk(net) && net.cursor < |net.wires|
    ensures NetOk(Dispatch(net))
  {
    var w := net.wires[net.cursor];
    DispatchSenders(net);
    forall x | x in net.senders ensures IsConnId(x) { assert SenderAt(net, x); }
    DispatchIs(net);
    if !IsCloseMessage(w) && Whole(w) {
      EnqueueKeepsNet(net, w.owner);
    } else {
      SkipKeeps(net, Dispatch(net));
    }
  }

  lemma DispatchSenders(net: Net)
    requires SendersOk(net) && net.cursor < |net.wires|
    ensures SendersOk(Dispatch(net))
  {
    forall x | x in net.senders ensures SenderAt(Dispatch(net), x) { assert SenderAt(net, x); }
  }

  /** Steps that only touch one accepting socket, and not the list of connections it was given. */
  lemma SockStepKeeps(net: Net, id: Id, k: Sock)
    requires NetOk(net) && id in net.socks && SockOk(net.wires, net.cursor, id, k)
    requires k.got + k.ch == net.socks[id].got + net.socks[id].ch
    ensures NetOk(net.(socks := net.socks[id := k]))
  {
    var net1 := net.(socks := net.socks[id := k]);
    forall x | x in net.senders ensures SenderAt(net1, x) { assert SenderAt(net, x); }
    forall x | x in net1.socks && x != id ensures SockAt(net1, x) { assert SockAt(net, x); }
    forall x | x in net1.senders && x !in net1.lost ensures QueuedAll(net1, x) {
      assert QueuedAll(net, x) && Queued(net1, x) == Queued(net, x);
    }
  }

  lemma AdvanceSenders(net: Net, i: nat, n: nat)
    requires SendersOk(net) && i < |net.wires|
    ensures SendersOk(net.(wires := Advance(net.wires, i, n)))
  {
    var net1 := net.(wires := Advance(net.wires, i, n));
    forall x | x in net1.senders ensures SenderAt(net1, x) {
      assert SenderAt(net, x);
      StreamSame(net.wires, net1.wires, x);
    }
  }

  lemma CurIsMine(net: Net, id: Id)
    requires id in net.socks && SockAt(net, id) && net.socks[id].cur.Some?
    ensures net.socks[id].cur.value < net.cursor <= |net.wires| && Mine(net.wires[net.socks[id].cur.value], id)
  {
    var all, m := net.socks[id].got + net.socks[id].ch, |net.socks[id].got| - 1;
    assert all[m] == net.socks[id].cur.value;
  }

  lemma ReadStepSockAt(net: Net, id: Id, n: nat, x: Id)
    requires CanRead(net, id, n) && SockAt(net, id) && x in net.socks && SockAt(net, x)
    ensures SockAt(ReadBytes(net, id, n), x)
  {
    if x == id { ReadKeeps(net.wires, net.cursor, id, net.socks[id], n); }
    else {
      assert net.wires[net.socks[id].cur.value].owner == id by { CurIsMine(net, id); }
      OtherReads(net.wires, net.cursor, x, net.socks[x], net.socks[id].cur.value, n);
    }
  }

  lemma ReadStepQueued(net: Net, id: Id, n: nat, x: Id)
    requires CanRead(net, id, n) && QueuedAll(net, x)
    ensures QueuedAll(ReadBytes(net, id, n), x)
  {
    var i, net1 := net.socks[id].cur.value, ReadBytes(net, id, n);
    assert Queued(net1, x) == Queued(net, x);
    AdvanceMine(net.wires, i, n, x);
    IndicesSame(net.wires, net1.wires, net.cursor, x);
  }

  lemma ReadStepKeepsWires(net: Net, id: Id, n: nat)
    requires WiresOk(net) && CanRead(net, id, n) && net.socks[id].cur.value < net.cursor
    ensures WiresOk(ReadBytes(net, id, n))
  {
    var i, net1 := net.socks[id].cur.value, ReadBytes(net, id, n);
    forall j | 0 <= j < |net1.wires| ensures WireOk(net1.wires[j], net1.senders.Keys) {
      assert WireOk(net.wires[j], net.senders.Keys);
    }
  }

  lemma ReadStepSenders(net: Net, id: Id, n: nat)
    requires SendersOk(net) && CanRead(net, id, n)
    ensures SendersOk(ReadBytes(net, id, n))
  {
    var i, net1 := net.socks[id].cur.value, ReadBytes(net, id, n);
    AdvanceSenders(net, i, n);
    var net2 := net.(wires := Advance(net.wires, i, n));
    forall x | x in net1.senders ensures SenderAt(net1, x) { assert SenderAt(net2, x); }
  }

  lemma ReadStepKeeps(net: Net, id: Id, n: nat)
    requires NetOk(net) && CanRead(net, id, n)
    ensures NetOk(ReadBytes(net, id, n))
  {
    var net1 := ReadBytes(net, id, n);
    assert SockAt(net, id);
    CurIsMine(net, id);
    ReadStepSenders(net, id, n);
    ReadStepKeepsWires(net, id, n);
    forall x | x in net1.socks ensures SockAt(net1, x) {
      assert SockAt(net, x);
      ReadStepSockAt(net, id, n, x);
    }
    forall x | x in net1.senders && x !in net1.lost ensures QueuedAll(net1, x) {
      assert QueuedAll(net, x);
      ReadStepQueued(net, id, n, x);
    }
  }

  lemma AcceptStepKeeps(net: Net, id: Id)
    requires NetOk(net) && id in net.socks && net.socks[id].cur.None? && net.socks[id].ch != []
    ensures NetOk(net.(socks := net.socks[id := TakeNext(net.socks[id])]))
  {
    var k := net.socks[id];
    assert SockAt(net, id);
    AcceptKeeps(net.wires, net.cursor, id, k);
    SockStepKeeps(net, id, TakeNext(k));
  }

  lemma EofStepKeeps(net: Net, id: Id)
    requires NetOk(net) && Enabled(net, EofStep(id))
    ensures NetOk(Apply(net, EofStep(id)))
  {
    assert SockOk(net.wires, net.cursor, id, net.socks[id].(cur := None)) by {
      assert SockAt(net, id);
      EofKeeps(net.wires, net.cursor, id, net.socks[id]);
    }
    SockStepKeeps(net, id, net.socks[id].(cur := None));
  }

  lemma EndStepKeeps(net: Net, id: Id)
    requires NetOk(net) && id in net.socks
    ensures NetOk(net.(socks := net.socks[id := net.socks[id].(signalled := false)]))
  {
    assert SockAt(net, id);
    EndKeeps(net.wires, net.cursor, id, net.socks[id]);
    SockStepKeeps(net, id, net.socks[id].(signalled := false));
  }

  lemma EndKeeps(ws: seq<Wire>, cursor: nat, id: Id, k: Sock)
    requires SockOk(ws, cursor, id, k)
    ensures SockOk(ws, cursor, id, k.(signalled := false))
  {
  }

  lemma CloseSockKeeps(net: Net, id: Id)
    requires NetOk(net) && id in net.socks
    ensures NetOk(net.(socks := net.socks - {id}, lost := net.lost + {id}))
  {
    var net1 := net.(socks := net.socks - {id}, lost := net.lost + {id});
    forall x | x in net.senders ensures SenderAt(net1, x) { assert SenderAt(net, x); }
    forall x | x in net1.socks ensures SockAt(net1, x) { assert SockAt(net, x); }
    forall x | x in net1.senders && x !in net1.lost ensures QueuedAll(net1, x) {
      assert QueuedAll(net, x) && Queued(net1, x) == Queued(net, x);
    }
  }

  lemma StepKeeps(net: Net, step: Step)
    requires NetOk(net) && Enabled(net, step)
    ensures NetOk(Apply(net, step))
  {
    match step
    case NewSocket(id, limit) => NewSocketKeeps(net, id, limit);
    case SendStep(id, op) => SendKeeps(net, id, op);
    case DispatchStep => DispatchKeeps(net);
    case AcceptStep(id) => AcceptStepKeeps(net, id);
    case ReadStep(id, n) => ReadStepKeeps(net, id, n);
    case EofStep(id) => EofStepKeeps(net, id);
    case EndStep(id) => EndStepKeeps(net, id);
    case CloseSockStep(id) => CloseSockKeeps(net, id);
  }

  // ---------------------------------------------------------------- whole runs

  ghost predicate IsRun(states: seq<Net>, steps: seq<Step>) {
    && |states| == |steps| + 1 && states[0] == EMPTY_NET
    && (forall i | 0 <= i < |steps| :: StepAt(states, steps, i))
  }

  ghost predicate StepAt(states: seq<Net>, steps: seq<Step>, i: nat)
    requires i < |steps| < |states|
  {
    Enabled(states[i], steps[i]) && states[i + 1] == Apply(states[i], steps[i])
  }

  lemma {:induction false} NetOkInEveryState(states: seq<Net>, steps: seq<Step>, i: nat)
    requires IsRun(states, steps) && i < |states|
    ensures NetOk(states[i])
  {
    if i > 0 {
      NetOkInEveryState(states, steps, i - 1);
      assert StepAt(states, steps, i - 1);
      StepKeeps(states[i - 1], steps[i - 1]);
    }
  }

  /**
   For every interleaving of writes, rotations, dispatches and reads: while no connection of a
   socket was dropped, what its reads returned is a prefix of what its writes accepted, and all
   of it once every connection was dispatched and read to its end.
   */
  lemma ReadsArePrefixOfWrites(states: seq<Net>, steps: seq<Step>, i: nat, id: Id)
    requires IsRun(states, steps) && i < |states| && id in states[i].socks && id !in states[i].lost
    ensures id in states[i].log && states[i].socks[id].out <= states[i].log[id]
    ensures states[i].cursor == |states[i].wires| && states[i].socks[id].ch == [] && states[i].socks[id].cur == None
      ==> states[i].socks[id].out == states[i].log[id]
  {
    NetOkInEveryState(states, steps, i);
    var net := states[i];
    assert SenderAt(net, id) && SockAt(net, id) && QueuedAll(net, id);
    GotIsPrefix(net, id);
    StreamOfPrefix(net.wires, net.cursor, id);
    assert net.wires[..|net.wires|] == net.wires;
  }

  lemma GotBelowPayloads(ws: seq<Wire>, cursor: nat, id: Id, k: Sock)
    requires SockOk(ws, cursor, id, k)
    ensures k.out <= Payloads(ws, k.got) && (k.cur.None? ==> k.out == Payloads(ws, k.got))
  {
    if k.cur.None? { DoneReads(ws, k.got); } else { ReadsBelowPayloads(ws, k.got); }
  }

  lemma GotIsPrefix(net: Net, id: Id)
    requires id in net.socks && SockAt(net, id) && QueuedAll(net, id)
    ensures var k := net.socks[id];
      && k.out <= Stream(net.wires[..net.cursor], id)
      && (k.ch == [] && k.cur == None ==> k.out == Stream(net.wires[..net.cursor], id))
  {
    var k, ws, all := net.socks[id], net.wires, Indices(net.wires, net.cursor, id);
    PayloadsAreStream(ws, net.cursor, id);
    PayloadsPrefix(ws, k.got, all);
    GotBelowPayloads(ws, net.cursor, id, k);
    assert k.ch == [] ==> k.got + k.ch == k.got;
  }

  /** Complete payloads of the connections finished, then a prefix of the current one. */
  ghost predicate WholePayloads(ws: seq<Wire>, id: Id, k: Sock) {
    var done := Finished(k);
    && Increasing(k.got, |ws|) && (forall a | 0 <= a < |k.got| :: Mine(ws[k.got[a]], id))
    && done <= k.got && AllDone(ws, done)
    && Payloads(ws, done) <= k.out
    && (k.cur.None? ==> k.out == Payloads(ws, done))
    && (k.cur.Some? ==> k.got == done + [k.cur.value] && k.out[|Payloads(ws, done)|..] <= Payload(ws[k.got[|done|]]))
  }

  lemma SockReadsWhole(ws: seq<Wire>, cursor: nat, id: Id, k: Sock)
    requires SockOk(ws, cursor, id, k)
    ensures WholePayloads(ws, id, k)
  {
    GotIncreasing(ws, cursor, id, k);
    var done := Finished(k);
    DoneReads(ws, done);
    if k.cur.Some? {
      assert k.got == done + [k.cur.value];
      assert k.out == Reads(ws, done) + Payload(ws[k.cur.value])[..ws[k.cur.value].read];
    }
  }

  lemma GotIncreasing(ws: seq<Wire>, cursor: nat, id: Id, k: Sock)
    requires SockOk(ws, cursor, id, k)
    ensures Increasing(k.got, |ws|) && forall a | 0 <= a < |k.got| :: Mine(ws[k.got[a]], id)
  {
    assert forall a | 0 <= a < |k.got| :: (k.got + k.ch)[a] == k.got[a];
  }

  /**
   With drops or a closed socket in between, the bytes read are still the complete payloads of
   some of the socket's own connections, in opening order, then a prefix of the current one.
   */
  lemma ReadsAreWholePayloads(states: seq<Net>, steps: seq<Step>, i: nat, id: Id)
    requires IsRun(states, steps) && i < |states| && id in states[i].socks
    ensures WholePayloads(states[i].wires, id, states[i].socks[id])
  {
    NetOkInEveryState(states, steps, i);
    assert SockAt(states[i], id);
    SockReadsWhole(states[i].wires, states[i].cursor, id, states[i].socks[id]);
  }

  // ---------------------------------------------------------------- the ids of new sockets

  /** The ids of the connecting sockets, in the order of their creation. */
  function Created(steps: seq<Step>): seq<Id> {
    if steps == [] then []
    else
      var n := |steps| - 1;
      Created(steps[..n]) + (if steps[n].NewSocket? then [steps[n].id] else [])
  }

  lemma StepSenders(net: Net, step: Step)
    requires Enabled(net, step)
    ensures Apply(net, step).senders.Keys == net.senders.Keys + (if step.NewSocket? then {step.id} else {})
  {
  }

  lemma {:induction false} SendersAreCreated(states: seq<Net>, steps: seq<Step>, i: nat)
    requires IsRun(states, steps) && i < |states|
    ensures forall id :: id in states[i].senders <==> id in Created(steps[..i])
  {
    if i > 0 {
      SendersAreCreated(states, steps, i - 1);
      assert StepAt(states, steps, i - 1);
      StepSenders(states[i - 1], steps[i - 1]);
      assert steps[..i][..i - 1] == steps[..i - 1];
    }
  }

  /**
   A socket can take the id of the next `generateConnID` call exactly when that id is new, and
   with a clock that never runs backwards it always is when no three calls end at one reading.
   */
  lemma NextIdStarts(states: seq<Net>, steps: seq<Step>, calls: seq<Call>, ids: seq<Id>, k: nat, limit: int)
    requires IsRun(states, steps) && Generated(calls, ids) && k < |ids| && Created(steps) == ids[..k]
    ensures Enabled(states[|steps|], NewSocket(ids[k], limit)) <==> ids[k] !in ids[..k]
    ensures Forward(calls, ids) && Spread(calls, ids) ==> Enabled(states[|steps|], NewSocket(ids[k], limit))
  {
    SendersAreCreated(states, steps, |steps|);
    assert steps[..|steps|] == steps;
    GeneratedIsConnId(calls, ids, k);
    if Forward(calls, ids) && Spread(calls, ids) { SpreadIsNew(calls, ids, k); }
  }

  lemma SpreadIsNew(calls: seq<Call>, ids: seq<Id>, k: nat)
    requires Generated(calls, ids) && Forward(calls, ids) && Spread(calls, ids) && k < |ids|
    ensures ids[k] !in ids[..k]
  {
    forall i | 0 <= i < k ensures ids[i] != ids[k] { SpreadDiffers(calls, ids, i, k); }
  }
}

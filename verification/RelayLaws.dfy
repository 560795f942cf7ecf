/**
 What a sending socket and the dispatcher do, told by the bytes on the connections instead of by
 the counters and handlers of the code.
 */
module RelayLaws {
  import opened Bytes
  import opened SocketIds
  import opened RelaySender
  import opened RelayStream
  import opened RelayStreamRuns

  // ---------------------------------------------------------------- the counter is the length

  /** `writeOnCur` is the length of the current connection, which is closed only when it is full. */
  ghost predicate Tracks(ws: seq<Wire>, id: Id, s: Sender) {
    s.cur.Some? ==>
      && s.cur.value < |ws| && s.onCur == |ws[s.cur.value].bytes| && s.onCur >= |id| + 1
      && (ws[s.cur.value].closed ==> 0 < s.limit <= s.onCur)
  }

  lemma OpenTracks(ws: seq<Wire>, id: Id, s: Sender, d: Dial)
    requires ShortId(id) && Tracks(ws, id, s)
    ensures var (ws1, s1, _) := Open(ws, id, s, d); Tracks(ws1, id, s1) && s1.limit == s.limit
  {
    ShortHeader(id);
  }

  lemma WriteTracks(ws: seq<Wire>, id: Id, s: Sender, p: seq<Byte>, d: Dial, sent: nat, failed: bool)
    requires ShortId(id) && Tracks(ws, id, s) && Linked(ws, s)
    ensures var r := Write(ws, id, s, p, d, sent, failed); Tracks(r.wires, id, r.s) && r.s.limit == s.limit
  {
    ShortHeader(id);
  }

  lemma {:induction false} TracksInEveryState(id: Id, ops: seq<SendOp>, states: seq<(seq<Wire>, Sender)>, i: nat)
    requires IsSendRun(id, ops, states) && i < |states| && ShortId(id)
    ensures Tracks(states[i].0, id, states[i].1) && Linked(states[i].0, states[i].1)
    ensures states[i].1.limit == states[0].1.limit
  {
    if i > 0 {
      TracksInEveryState(id, ops, states, i - 1);
      assert SendAt(id, ops, states, i - 1);
      match ops[i - 1]
      case ConnectOp(d) => OpenTracks(states[i - 1].0, id, states[i - 1].1, d);
      case WriteOp(p, d, sent, failed) => WriteTracks(states[i - 1].0, id, states[i - 1].1, p, d, sent, failed);
      case CloseOp(told) =>
    }
  }

  // ---------------------------------------------------------------- writes

  /** There is a current connection, and it carries less than the limit. */
  ghost predicate HasRoom(ws: seq<Wire>, s: Sender) {
    s.cur.Some? && s.cur.value < |ws| && (s.limit <= 0 || |ws[s.cur.value].bytes| < s.limit)
  }

  /** The connections once the full one is closed. */
  ghost function Retired(ws: seq<Wire>, s: Sender): seq<Wire> {
    if s.cur.Some? && s.cur.value < |ws| then ws[s.cur.value := ws[s.cur.value].(closed := true)] else ws
  }

  /**
   Connection `j` takes of `p` all that the limit leaves room for, or less when the network fails,
   which closes it.
   */
  ghost predicate Carries(ws: seq<Wire>, j: nat, s: Sender, p: seq<Byte>, sent: nat, failed: bool, r: Result) {
    && j < |ws|
    && var room := if s.limit > 0 then s.limit - |ws[j].bytes| else |p|;
    && 0 <= room
    && var fits := if |p| <= room then |p| else room;
    && var n := if failed && sent < fits then sent else fits;
    && r.outcome == Wrote(n, failed)
    && r.wires == ws[j := ws[j].(bytes := ws[j].bytes + p[..n], closed := ws[j].closed || failed)]
    && r.s.cur == (if failed then None else Some(j)) && r.s.total == s.total + n
  }

  /** What `Write` does on an open socket. */
  ghost predicate WriteLaw(ws: seq<Wire>, id: Id, s: Sender, p: seq<Byte>, d: Dial, sent: nat, failed: bool,
                           r: Result)
  {
    var header, kept := PbMessage(id), Retired(ws, s);
    var turned := if s.cur.Some? then 1 else 0;
    if HasRoom(ws, s) then
      Carries(ws, s.cur.value, s, p, sent, failed, r) && r.s.rot == s.rot + if failed then 1 else 0
    else
      match d
      case DialFails => r == Result(kept, s.(rot := s.rot + turned), DialError)
      case HeaderFails(k) =>
        && r.s == s.(rot := s.rot + turned) && r.outcome == DialError
        && r.wires == kept + [Wire(id, header[..if k < |header| then k else |header|], true, 0)]
      case Dials =>
        var dialed := kept + [Wire(id, header, false, 0)];
        && r.s.rot == s.rot + turned + (if failed && r.outcome != Panic then 1 else 0)
        && if 0 < s.limit < |header| then r.wires == dialed && r.outcome == Panic
           else Carries(dialed, |ws|, s, p, sent, failed, r)
  }

  /** In every reachable state a write does exactly what the law says, and on a closed socket nothing. */
  lemma WriteExactly(id: Id, ops: seq<SendOp>, states: seq<(seq<Wire>, Sender)>, i: nat,
                     p: seq<Byte>, d: Dial, sent: nat, failed: bool)
    requires IsSendRun(id, ops, states) && i < |states| && ShortId(id)
    ensures Linked(states[i].0, states[i].1)
    ensures var (ws, s) := states[i]; var r := Write(ws, id, s, p, d, sent, failed);
      if s.closed then r == Result(ws, s, ErrClosed) else WriteLaw(ws, id, s, p, d, sent, failed, r)
  {
    TracksInEveryState(id, ops, states, i);
    if !states[i].1.closed { WriteObeys(states[i].0, id, states[i].1, p, d, sent, failed); }
  }

  lemma TransmitObeys(ws: seq<Wire>, s: Sender, p: seq<Byte>, sent: nat, failed: bool)
    requires s.cur.Some? && s.cur.value < |ws| && s.onCur == |ws[s.cur.value].bytes| && 0 <= Avail(s, |p|)
    requires s.limit > 0 ==> s.onCur <= s.limit
    ensures var r := Transmit(ws, s, p, sent, failed);
      Carries(ws, s.cur.value, s, p, sent, failed, r) && r.s.rot == s.rot + if failed then 1 else 0
  {
    var r, j := Transmit(ws, s, p, sent, failed), s.cur.value;
    var n := r.outcome.n;
    assert r.wires == ws[j := ws[j].(bytes := ws[j].bytes + p[..n], closed := ws[j].closed || failed)];
  }

  lemma WriteObeys(ws: seq<Wire>, id: Id, s: Sender, p: seq<Byte>, d: Dial, sent: nat, failed: bool)
    requires ShortId(id) && Tracks(ws, id, s) && Linked(ws, s) && !s.closed
    ensures WriteLaw(ws, id, s, p, d, sent, failed, Write(ws, id, s, p, d, sent, failed))
  {
    if HasRoom(ws, s) {
      TransmitObeys(ws, s, p, sent, failed);
    } else {
      TurnObeys(ws, id, s, p, d, sent, failed);
    }
  }

  lemma TurnObeys(ws: seq<Wire>, id: Id, s: Sender, p: seq<Byte>, d: Dial, sent: nat, failed: bool)
    requires ShortId(id) && Tracks(ws, id, s) && Linked(ws, s) && !s.closed && !HasRoom(ws, s)
    ensures WriteLaw(ws, id, s, p, d, sent, failed, Write(ws, id, s, p, d, sent, failed))
  {
    ShortHeader(id);
    var (ws1, s1, ok) := Rotate(ws, id, s, d);
    assert PbMessage(id)[..|PbMessage(id)|] == PbMessage(id);
    if ok && !(0 < s.limit < |PbMessage(id)|) {
      TransmitObeys(ws1, s1, p, sent, failed);
    }
  }

  /** An error-free write that may dial accepts everything, or leaves a connection that carries exactly the limit. */
  lemma FillsOrFinishes(id: Id, ops: seq<SendOp>, states: seq<(seq<Wire>, Sender)>, i: nat, p: seq<Byte>)
    requires IsSendRun(id, ops, states) && i < |states| && ShortId(id) && !states[i].1.closed
    requires states[0].1.limit <= 0 || states[0].1.limit >= |id| + 1
    ensures Linked(states[i].0, states[i].1)
    ensures var r := Write(states[i].0, id, states[i].1, p, Dials, 0, false);
      && r.outcome.Wrote? && !r.outcome.failed && r.outcome.n <= |p|
      && r.s.cur.Some? && r.s.cur.value < |r.wires|
      && (r.outcome.n == |p| || |r.wires[r.s.cur.value].bytes| == states[0].1.limit)
  {
    TracksInEveryState(id, ops, states, i);
    WriteExactly(id, ops, states, i, p, Dials, 0, false);
    ShortHeader(id);
  }

  // ---------------------------------------------------------------- which connections stay open

  /** At most the current connection is still open. */
  ghost predicate OthersClosed(ws: seq<Wire>, s: Sender) {
    forall j | 0 <= j < |ws| && s.cur != Some(j) :: ws[j].closed
  }

  /** `Connect` on a socket whose current connection is open: that one is never closed again. */
  ghost predicate Leaks(ws: seq<Wire>, s: Sender, op: SendOp) {
    op.ConnectOp? && op.d.Dials? && s.cur.Some? && s.cur.value < |ws| && !ws[s.cur.value].closed
  }

  lemma SendClosesExactly(ws: seq<Wire>, id: Id, s: Sender, op: SendOp)
    requires ShortId(id) && Tracks(ws, id, s) && Linked(ws, s) && OthersClosed(ws, s)
    ensures var (ws1, s1) := Send(ws, id, s, op); OthersClosed(ws1, s1) <==> !Leaks(ws, s, op)
  {
    match op
    case ConnectOp(d) =>
      var r := Open(ws, id, s, d);
      if Leaks(ws, s, op) { assert !r.0[s.cur.value].closed && r.1.cur != s.cur; }
    case WriteOp(p, d, sent, failed) =>
      if !s.closed { WriteObeys(ws, id, s, p, d, sent, failed); }
    case CloseOp(told) =>
  }

  ghost predicate OthersClosedAt(states: seq<(seq<Wire>, Sender)>, i: nat)
    requires i < |states|
  {
    OthersClosed(states[i].0, states[i].1)
  }

  ghost predicate LeaksAt(ops: seq<SendOp>, states: seq<(seq<Wire>, Sender)>, i: nat)
    requires i < |ops| < |states|
  {
    Leaks(states[i].0, states[i].1, ops[i])
  }

  lemma LeakDecides(id: Id, ops: seq<SendOp>, states: seq<(seq<Wire>, Sender)>, i: nat)
    requires IsSendRun(id, ops, states) && i < |ops| && ShortId(id) && OthersClosedAt(states, i)
    ensures OthersClosedAt(states, i + 1) <==> !LeaksAt(ops, states, i)
  {
    TracksInEveryState(id, ops, states, i);
    assert SendAt(id, ops, states, i);
    SendClosesExactly(states[i].0, id, states[i].1, ops[i]);
  }

  /** Over every run: no connection but the current one is left open, if and only if `Connect` never leaks one. */
  lemma {:induction false} OthersClosedExactly(id: Id, ops: seq<SendOp>, states: seq<(seq<Wire>, Sender)>, i: nat)
    requires IsSendRun(id, ops, states) && i < |states| && ShortId(id)
    ensures (forall j: nat | j <= i :: OthersClosedAt(states, j)) <==>
            (forall j: nat | j < i :: !LeaksAt(ops, states, j))
  {
    if i == 0 {
      assert OthersClosedAt(states, 0);
    } else {
      OthersClosedExactly(id, ops, states, i - 1);
      if OthersClosedAt(states, i - 1) { LeakDecides(id, ops, states, i - 1); }
    }
  }

  /** `Close` then leaves every connection closed, changes no byte, and adds at most its close message. */
  lemma CloseEnds(id: Id, ops: seq<SendOp>, states: seq<(seq<Wire>, Sender)>, i: nat, told: bool)
    requires IsSendRun(id, ops, states) && i < |states| && ShortId(id) && |id| >= 6 && !states[i].1.closed
    requires forall j: nat | j < i :: !LeaksAt(ops, states, j)
    ensures Linked(states[i].0, states[i].1)
    ensures var (ws, s) := states[i]; var (ws1, s1) := Close(ws, id, s, told);
      && s1.closed && s1.cur == None && |ws1| == |ws| + (if told then 1 else 0)
      && (forall j | 0 <= j < |ws| :: ws1[j] == ws[j].(closed := true))
      && (told ==> ws1[|ws|] == Wire(CLOSE + id[6..], PbMessage(CLOSE + id[6..]), true, 0))
  {
    TracksInEveryState(id, ops, states, i);
    OthersClosedExactly(id, ops, states, i);
    assert OthersClosedAt(states, i);
  }

  // ---------------------------------------------------------------- the dispatcher

  /** The next connection is queued at the socket of `id`, which is made if need be, or lost when eight wait there. */
  ghost predicate Handed(net: Net, g: Net, id: Id) {
    var k := if id in net.socks then net.socks[id] else Sock([], None, false, [], []);
    if |k.ch| < 8 then
      g == net.(cursor := net.cursor + 1, socks := net.socks[id := k.(ch := k.ch + [net.cursor])])
    else g == net.(cursor := net.cursor + 1, socks := net.socks[id := k], lost := net.lost + {id})
  }

  /** The socket of `id` gets the close signal, if its id has the first form and it is known. */
  ghost predicate Signals(net: Net, g: Net, id: Id) {
    && g == net.(cursor := net.cursor + 1, socks := g.socks)
    && g.socks ==
       if SOCK0 <= id && id in net.socks then net.socks[id := net.socks[id].(signalled := true)] else net.socks
  }

  lemma MessageFirst(bytes: seq<Byte>, m: seq<Byte>)
    requires |m| <= MAX_PB && PbMessage(m) <= bytes
    ensures ReadOnePb(bytes) == Some((m, bytes[|PbMessage(m)|..]))
  {
    assert bytes == PbMessage(m) + bytes[|PbMessage(m)|..];
    PbRoundTrip(m, bytes[|PbMessage(m)|..]);
  }

  lemma CloseTarget(id: Id) returns (target: Id)
    requires IsConnId(id)
    ensures |id| >= 6 && 6 <= |CloseId(id)| <= 31 && RouteOf(CloseId(id)) == CloseOf(target)
    ensures if SOCK0 <= id then target == id else !IsConnId(target)
  {
    CloseIdRoutes(id);
    var ts :| IsStamp(ts) && (id == SOCK0 + ts || id == SOCK + ts);
    target := RouteOf(CloseId(id)).id;
    CloseRoutesExactly(id, ts);
    var c := CloseId(id);
    assert c[|c| - 1] == id[|id| - 1] == ts[24];
    assert TrimRight(c) == c && c[6..] == id[6..];
    if id == SOCK + ts {
      assert id[4] == 46 && !(SOCK0 <= id) by { assert SOCK0[4] == 48; }
      assert target == SOCK0 + id[6..] && |target| == 30 && target[4] == 48;
      NotShortForm(target);
    }
  }

  lemma NotShortForm(id: Id)
    requires |id| == 30 && id[4] == 48
    ensures !IsConnId(id)
  {
    forall ts | IsStamp(ts) ensures id != SOCK0 + ts && id != SOCK + ts {
      assert |SOCK0 + ts| == 31 && (SOCK + ts)[4] == 46;
    }
  }

  /** In every reachable state, what the dispatcher makes of the opening bytes of the next connection. */
  lemma DispatchExactly(states: seq<Net>, steps: seq<Step>, i: nat, id: Id)
    requires IsRun(states, steps) && i < |states| && states[i].cursor < |states[i].wires| && IsConnId(id)
    ensures |id| >= 6
    ensures var net, bytes := states[i], states[i].wires[states[i].cursor].bytes;
      && (PbMessage(id) <= bytes ==> Handed(net, Dispatch(net), id))
      && (PbMessage(CLOSE + id[6..]) <= bytes ==> Signals(net, Dispatch(net), id))
      && (bytes < PbMessage(id) ==> Dispatch(net) == net.(cursor := net.cursor + 1))
  {
    NetOkInEveryState(states, steps, i);
    var net, bytes := states[i], states[i].wires[states[i].cursor].bytes;
    ConnIdShape(id);
    if PbMessage(id) <= bytes {
      MessageFirst(bytes, id);
      ConnIdRoutes(id);
    }
    if PbMessage(CLOSE + id[6..]) <= bytes {
      var target := CloseTarget(id);
      MessageFirst(bytes, CloseId(id));
      forall x | x in net.socks ensures IsConnId(x) { assert SenderAt(net, x); }
    }
    if bytes < PbMessage(id) { TruncatedUnread(bytes, id); }
  }

  /** A connection of `id` is next while eight wait at its socket. */
  ghost predicate Overflows(net: Net, id: Id) {
    && net.cursor < |net.wires| && PbMessage(id) <= net.wires[net.cursor].bytes
    && id in net.socks && |net.socks[id].ch| >= 8
  }

  /** Over every run: connections of a socket are lost in a step exactly by overflow or by closing the socket. */
  lemma LostExactly(states: seq<Net>, steps: seq<Step>, i: nat, id: Id)
    requires IsRun(states, steps) && i < |steps| && IsConnId(id)
    ensures id in states[i + 1].lost <==>
      || id in states[i].lost
      || steps[i] == CloseSockStep(id)
      || (steps[i] == DispatchStep && Overflows(states[i], id))
  {
    assert StepAt(states, steps, i);
    if steps[i] == DispatchStep { DispatchLoses(states, steps, i, id); }
  }

  lemma DispatchLoses(states: seq<Net>, steps: seq<Step>, i: nat, id: Id)
    requires IsRun(states, steps) && i < |steps| && IsConnId(id) && steps[i] == DispatchStep
    ensures id in states[i + 1].lost <==> id in states[i].lost || Overflows(states[i], id)
  {
    assert StepAt(states, steps, i);
    var bytes := states[i].wires[states[i].cursor].bytes;
    var owner := WhoseTurn(states, steps, i);
    if owner.Some? {
      HandedLoses(states[i], states[i + 1], owner.value);
      if PbMessage(id) <= bytes { OneMessage(bytes, id, owner.value); }
    }
  }

  lemma HandedLoses(net: Net, g: Net, id: Id)
    requires Handed(net, g, id) && net.cursor < |net.wires| && PbMessage(id) <= net.wires[net.cursor].bytes
    ensures g.lost == if Overflows(net, id) then net.lost + {id} else net.lost
  {
  }

  lemma OneMessage(bytes: seq<Byte>, a: Id, b: Id)
    requires IsConnId(a) && IsConnId(b) && PbMessage(a) <= bytes && PbMessage(b) <= bytes
    ensures a == b
  {
    ConnIdShape(a);
    ConnIdShape(b);
    MessageFirst(bytes, a);
    MessageFirst(bytes, b);
  }

  /** The socket id that the next connection opens with, or none, and then nothing is lost. */
  lemma WhoseTurn(states: seq<Net>, steps: seq<Step>, i: nat) returns (owner: Option<Id>)
    requires IsRun(states, steps) && i < |steps| && steps[i] == DispatchStep && states[i].cursor < |states[i].wires|
    ensures owner.Some? ==>
      && IsConnId(owner.value) && PbMessage(owner.value) <= states[i].wires[states[i].cursor].bytes
      && Handed(states[i], states[i + 1], owner.value)
    ensures owner.None? ==> states[i + 1].lost == states[i].lost
    ensures owner.None? ==> forall id :: IsConnId(id) ==> !(PbMessage(id) <= states[i].wires[states[i].cursor].bytes)
  {
    var net := states[i];
    var w := net.wires[net.cursor];
    NetOkInEveryState(states, steps, i);
    assert StepAt(states, steps, i) && WireOk(w, net.senders.Keys);
    forall x | x in net.senders ensures IsConnId(x) { assert SenderAt(net, x); }
    if !IsCloseMessage(w) && Whole(w) {
      owner := Some(w.owner);
      DispatchExactly(states, steps, i, w.owner);
    } else {
      owner := None;
      DispatchIs(net);
      NobodysTurn(w, net.senders.Keys);
    }
  }

  lemma NobodysTurn(w: Wire, ids: set<Id>)
    requires WireOk(w, ids) && (IsCloseMessage(w) || !Whole(w)) && forall x <- ids :: IsConnId(x)
    ensures forall id :: IsConnId(id) ==> !(PbMessage(id) <= w.bytes)
  {
    forall id | IsConnId(id) ensures !(PbMessage(id) <= w.bytes) { NotOpenedBy(w, ids, id); }
  }

  lemma NotOpenedBy(w: Wire, ids: set<Id>, id: Id)
    requires WireOk(w, ids) && (IsCloseMessage(w) || !Whole(w)) && (forall x <- ids :: IsConnId(x)) && IsConnId(id)
    ensures !(PbMessage(id) <= w.bytes)
  {
    ConnIdShape(id);
    ConnIdRoutes(id);
    if PbMessage(id) <= w.bytes {
      MessageFirst(w.bytes, id);
      if IsCloseMessage(w) { CloseMessageRouted(w); } else { TruncatedUnread(w.bytes, w.owner); }
    }
  }
}

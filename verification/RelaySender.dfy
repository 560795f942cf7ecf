/**
 The writing half of a `RelaySocket` (relayhub/socket.go): one logical stream is cut over many
 relayed connections, each with a byte budget. The outcomes of dialing and of network writes are
 parameters of the steps.
 */
module RelaySender {
  import opened Bytes
  import opened SocketIds

  /** One relayed connection: everything written into it, whether it was closed, payload bytes read. */
  datatype Wire = Wire(owner: Id, bytes: seq<Byte>, closed: bool, read: nat)

  /** The fields of a `RelaySocket` that writing uses; `cur` indexes the connections opened so far. */
  datatype Sender = Sender(limit: int, cur: Option<nat>, onCur: int, total: nat, rot: nat, closed: bool)

  /** What dialing through the relay and sending the id may lead to. */
  datatype Dial = DialFails | HeaderFails(sent: nat) | Dials

  datatype Outcome = ErrClosed | DialError | Panic | Wrote(n: nat, failed: bool)

  datatype Result = Result(wires: seq<Wire>, s: Sender, outcome: Outcome)

  function CloseWire(ws: seq<Wire>, i: nat): seq<Wire>
    requires i < |ws|
  {
    ws[i := ws[i].(closed := true)]
  }

  function AppendTo(ws: seq<Wire>, i: nat, p: seq<Byte>): seq<Wire>
    requires i < |ws|
  {
    ws[i := ws[i].(bytes := ws[i].bytes + p)]
  }

  ghost predicate Linked(ws: seq<Wire>, s: Sender) {
    s.cur.Some? ==> s.cur.value < |ws|
  }

  /** The shared tail of `Connect` and `rotateWrite`: dial, send the id, adopt the connection. */
  function Open(ws: seq<Wire>, id: Id, s: Sender, d: Dial): (r: (seq<Wire>, Sender, bool))
    ensures Linked(ws, s) ==> Linked(r.0, r.1)
  {
    var header := PbMessage(id);
    match d
    case DialFails => (ws, s, false)
    case HeaderFails(k) => (ws + [Wire(id, if k < |header| then header[..k] else header, true, 0)], s, false)
    case Dials => (ws + [Wire(id, header, false, 0)], s.(cur := Some(|ws|), onCur := |id| + 1), true)
  }

  /** `rotateWrite`: a failed dial leaves `cur` on the connection just closed. */
  function Rotate(ws: seq<Wire>, id: Id, s: Sender, d: Dial): (r: (seq<Wire>, Sender, bool))
    requires Linked(ws, s)
    ensures Linked(r.0, r.1)
  {
    if s.cur.Some? then Open(CloseWire(ws, s.cur.value), id, s.(rot := s.rot + 1), d) else Open(ws, id, s, d)
  }

  predicate NeedsRotation(s: Sender) {
    s.cur.None? || (s.limit > 0 && s.onCur >= s.limit)
  }

  /** How much of `len` bytes fits into the budget; negative makes the slice expression panic. */
  function Avail(s: Sender, len: nat): int {
    if s.limit > 0 then Min(len, s.limit - s.onCur) else len
  }

  /** The network write of `Write`: all of it, or fewer bytes and an error. */
  function Transmit(ws: seq<Wire>, s: Sender, p: seq<Byte>, sent: nat, failed: bool): Result
    requires s.cur.Some? && s.cur.value < |ws| && 0 <= Avail(s, |p|)
  {
    var a := Avail(s, |p|);
    var n := if failed && sent < a then sent else a;
    var i := s.cur.value;
    var ws1 := AppendTo(ws, i, p[..n]);
    var s1 := s.(onCur := s.onCur + n, total := s.total + n);
    if failed then Result(CloseWire(ws1, i), s1.(cur := None, rot := s1.rot + 1), Wrote(n, true))
    else Result(ws1, s1, Wrote(n, false))
  }

  /** `Write`. */
  function Write(ws: seq<Wire>, id: Id, s: Sender, p: seq<Byte>, d: Dial, sent: nat, failed: bool): (r: Result)
    requires Linked(ws, s)
    ensures Linked(r.wires, r.s)
    ensures r.outcome.Wrote? ==> r.outcome.n <= |p| && r.s.total == s.total + r.outcome.n
    ensures !r.outcome.Wrote? ==> r.s.total == s.total
  {
    if s.closed then Result(ws, s, ErrClosed)
    else
      var (ws1, s1, ok) := if NeedsRotation(s) then Rotate(ws, id, s, d) else (ws, s, true);
      if !ok then Result(ws1, s1, DialError)
      else if Avail(s1, |p|) < 0 then Result(ws1, s1, Panic)
      else Transmit(ws1, s1, p, sent, failed)
  }

  // ---------------------------------------------------------------- the budget

  /** Header plus payload stay within the limit on every connection of this socket. */
  ghost predicate WithinBudget(ws: seq<Wire>, id: Id, limit: int) {
    forall w <- ws :: w.owner == id ==> |w.bytes| <= limit
  }

  /** The byte count kept in `writeOnCur` is the length of the current connection, unless that is used up and closed. */
  ghost predicate Counted(ws: seq<Wire>, id: Id, s: Sender) {
    s.cur.Some? ==>
      && s.cur.value < |ws| && ws[s.cur.value].owner == id
      && s.onCur >= |id| + 1
      && (s.onCur == |ws[s.cur.value].bytes| || (s.limit > 0 && s.onCur >= s.limit))
      && (ws[s.cur.value].closed ==> s.limit > 0 && s.onCur >= s.limit)
  }

  ghost predicate ShortId(id: Id) {
    |id| < 128
  }

  lemma ShortHeader(id: Id)
    requires ShortId(id)
    ensures |PbMessage(id)| == |id| + 1
  {
  }

  lemma OpenKeeps(ws: seq<Wire>, id: Id, s: Sender, d: Dial, limit: int)
    requires ShortId(id) && limit > |id| && s.limit == limit && WithinBudget(ws, id, limit)
    requires s.cur.Some? ==> Counted(ws, id, s)
    ensures var (ws1, s1, ok) := Open(ws, id, s, d);
      && s1.limit == limit && WithinBudget(ws1, id, limit) && Counted(ws1, id, s1) && Linked(ws1, s1)
      && (ok ==> s1.cur.Some? && s1.onCur == |id| + 1 && !ws1[s1.cur.value].closed)
  {
    ShortHeader(id);
  }

  lemma CloseCurKeeps(ws: seq<Wire>, id: Id, s: Sender)
    requires WithinBudget(ws, id, s.limit) && s.cur.Some? && Counted(ws, id, s) && s.limit > 0 && s.onCur >= s.limit
    ensures WithinBudget(CloseWire(ws, s.cur.value), id, s.limit) && Counted(CloseWire(ws, s.cur.value), id, s)
  {
    var i := s.cur.value;
    forall w | w in CloseWire(ws, i) && w.owner == id ensures |w.bytes| <= s.limit {
      if w !in ws { assert w == ws[i].(closed := true) && ws[i] in ws; }
    }
  }

  lemma TransmitKeeps(ws: seq<Wire>, id: Id, s: Sender, p: seq<Byte>, sent: nat, failed: bool)
    requires s.limit > 0 && WithinBudget(ws, id, s.limit) && s.cur.Some? && Counted(ws, id, s) && s.onCur < s.limit
    ensures 0 <= Avail(s, |p|)
    ensures var r := Transmit(ws, s, p, sent, failed);
      r.s.limit == s.limit && WithinBudget(r.wires, id, s.limit) && Counted(r.wires, id, r.s) && Linked(r.wires, r.s)
  {
    var r, i := Transmit(ws, s, p, sent, failed), s.cur.value;
    forall w | w in r.wires && w.owner == id ensures |w.bytes| <= s.limit {
      var j :| 0 <= j < |r.wires| && r.wires[j] == w;
      if j != i { assert w == ws[j]; }
    }
  }

  /** No write, with whatever network outcome, lets a connection exceed its budget. */
  lemma WriteKeepsBudget(ws: seq<Wire>, id: Id, s: Sender, p: seq<Byte>, d: Dial, sent: nat, failed: bool)
    requires ShortId(id) && s.limit > |id| + 1 && WithinBudget(ws, id, s.limit) && Counted(ws, id, s) && Linked(ws, s)
    ensures var r := Write(ws, id, s, p, d, sent, failed);
      && r.s.limit == s.limit && WithinBudget(r.wires, id, s.limit) && Counted(r.wires, id, r.s) && Linked(r.wires, r.s)
      && r.outcome != Panic
  {
    if !s.closed {
      var ws1, s1, ok := ws, s, true;
      if NeedsRotation(s) {
        if s.cur.Some? {
          CloseCurKeeps(ws, id, s);
          OpenKeeps(CloseWire(ws, s.cur.value), id, s.(rot := s.rot + 1), d, s.limit);
        } else {
          OpenKeeps(ws, id, s, d, s.limit);
        }
        var t := Rotate(ws, id, s, d);
        ws1, s1, ok := t.0, t.1, t.2;
      }
      if ok { TransmitKeeps(ws1, id, s1, p, sent, failed); }
    }
  }

  // ---------------------------------------------------------------- whole runs of one socket

  datatype SendOp =
    | ConnectOp(d: Dial)
    | WriteOp(p: seq<Byte>, d: Dial, sent: nat, failed: bool)
    | CloseOp(told: bool)

  /** `Close`: tell the peer over a connection of its own if that can be dialed, then drop `cur`. */
  function Close(ws: seq<Wire>, id: Id, s: Sender, told: bool): (r: (seq<Wire>, Sender))
    requires Linked(ws, s)
    ensures Linked(r.0, r.1)
  {
    if s.closed then (ws, s)
    else
      var ws1 := if s.cur.Some? then CloseWire(ws, s.cur.value) else ws;
      var ws2 := if told && |id| >= 6 then ws1 + [Wire(CloseId(id), PbMessage(CloseId(id)), true, 0)] else ws1;
      (ws2, s.(closed := true, cur := None))
  }

  function Send(ws: seq<Wire>, id: Id, s: Sender, op: SendOp): (r: (seq<Wire>, Sender))
    requires Linked(ws, s)
    ensures Linked(r.0, r.1)
  {
    match op
    case ConnectOp(d) => (Open(ws, id, s, d).0, Open(ws, id, s, d).1)
    case WriteOp(p, d, sent, failed) => var r := Write(ws, id, s, p, d, sent, failed); (r.wires, r.s)
    case CloseOp(told) => Close(ws, id, s, told)
  }

  lemma SendKeepsBudget(ws: seq<Wire>, id: Id, s: Sender, op: SendOp)
    requires ShortId(id) && s.limit > |id| + 1 && WithinBudget(ws, id, s.limit) && Counted(ws, id, s) && Linked(ws, s)
    ensures var (ws1, s1) := Send(ws, id, s, op);
      s1.limit == s.limit && WithinBudget(ws1, id, s.limit) && Counted(ws1, id, s1) && Linked(ws1, s1)
  {
    match op
    case ConnectOp(d) => OpenKeeps(ws, id, s, d, s.limit);
    case WriteOp(p, d, sent, failed) => WriteKeepsBudget(ws, id, s, p, d, sent, failed);
    case CloseOp(told) =>
      ShortHeader(id);
      if s.cur.Some? { CloseAnyKeeps(ws, id, s.cur.value, s.limit); }
  }

  lemma CloseAnyKeeps(ws: seq<Wire>, id: Id, i: nat, limit: int)
    requires WithinBudget(ws, id, limit) && i < |ws|
    ensures WithinBudget(CloseWire(ws, i), id, limit)
  {
    forall w | w in CloseWire(ws, i) && w.owner == id ensures |w.bytes| <= limit {
      if w !in ws { assert w == ws[i].(closed := true) && ws[i] in ws; }
    }
  }

  ghost predicate IsSendRun(id: Id, ops: seq<SendOp>, states: seq<(seq<Wire>, Sender)>) {
    && |states| == |ops| + 1
    && states[0] == ([], Sender(states[0].1.limit, None, 0, 0, 0, false))
    && (forall i | 0 <= i < |ops| :: SendAt(id, ops, states, i))
  }

  ghost predicate SendAt(id: Id, ops: seq<SendOp>, states: seq<(seq<Wire>, Sender)>, i: nat)
    requires i < |ops| < |states|
  {
    Linked(states[i].0, states[i].1) && states[i + 1] == Send(states[i].0, id, states[i].1, ops[i])
  }

  /** Over every run, whatever the network does, no connection carries more than the limit. */
  lemma {:induction false} BudgetInEveryState(id: Id, ops: seq<SendOp>, states: seq<(seq<Wire>, Sender)>, i: nat)
    requires IsSendRun(id, ops, states) && i < |states|
    requires ShortId(id) && states[0].1.limit > |id| + 1
    ensures WithinBudget(states[i].0, id, states[0].1.limit)
    ensures states[i].1.limit == states[0].1.limit
    ensures Counted(states[i].0, id, states[i].1) && Linked(states[i].0, states[i].1)
  {
    if i > 0 {
      BudgetInEveryState(id, ops, states, i - 1);
      assert SendAt(id, ops, states, i - 1);
      SendKeepsBudget(states[i - 1].0, id, states[i - 1].1, ops[i - 1]);
    }
  }

  // ---------------------------------------------------------------- progress

  /** `writeOnCur` never falls below the size of the id header. */
  lemma {:induction false} HeaderCounted(id: Id, ops: seq<SendOp>, states: seq<(seq<Wire>, Sender)>, i: nat)
    requires IsSendRun(id, ops, states) && i < |states|
    ensures Linked(states[i].0, states[i].1) && states[i].1.limit == states[0].1.limit
    ensures states[i].1.cur.Some? ==> states[i].1.onCur >= |id| + 1
  {
    if i > 0 {
      HeaderCounted(id, ops, states, i - 1);
      assert SendAt(id, ops, states, i - 1);
    }
  }

  /**
   In every reachable state of an open socket, a non-empty write that meets no network error
   makes progress exactly when the limit is off or leaves room beyond the id header.
   */
  lemma ProgressExactly(id: Id, ops: seq<SendOp>, states: seq<(seq<Wire>, Sender)>, i: nat, p: seq<Byte>)
    requires IsSendRun(id, ops, states) && i < |states| && !states[i].1.closed && p != []
    ensures Linked(states[i].0, states[i].1)
    ensures var limit, o := states[0].1.limit, Write(states[i].0, id, states[i].1, p, Dials, 0, false).outcome;
      && ((o.Wrote? && o.n >= 1) <==> (limit <= 0 || limit > |id| + 1))
      && (o == Panic <==> 0 < limit < |id| + 1)
  {
    HeaderCounted(id, ops, states, i);
  }

  // ---------------------------------------------------------------- exact rotation count

  /** Writes that meet no network error. */
  function WriteAll(ws: seq<Wire>, id: Id, s: Sender, ps: seq<seq<Byte>>): (seq<Wire>, Sender)
    requires Linked(ws, s)
    decreases |ps|
  {
    if ps == [] then (ws, s)
    else
      var r := Write(ws, id, s, ps[0], Dials, 0, false);
      WriteAll(r.wires, id, r.s, ps[1..])
  }

  /** `m` times `cap`. */
  function Laps(m: nat, cap: nat): nat {
    if m == 0 then 0 else Laps(m - 1, cap) + cap
  }

  lemma {:induction false} LapsIsProduct(m: nat, cap: nat)
    ensures Laps(m, cap) == m * cap
  {
    if m > 0 {
      LapsIsProduct(m - 1, cap);
      assert m * cap == (m - 1) * cap + cap;
    }
  }

  /** `m` connections of capacity `cap`, all full but the last, which holds `q` payload bytes. */
  ghost predicate Filled(ws: seq<Wire>, id: Id, s: Sender, m: nat, q: nat) {
    var h, cap := |id| + 1, s.limit - (|id| + 1);
    && m >= 1 && |ws| == m && s.cur == Some(m - 1) && !s.closed && cap >= 0
    && 0 <= q <= cap && (m > 1 ==> q >= 1)
    && s.onCur == h + q && s.rot == m - 1 && s.total == Laps(m - 1, cap) + q
    && (forall i | 0 <= i < m - 1 :: |ws[i].bytes| == s.limit)
    && |ws[m - 1].bytes| == h + q
  }

  lemma FilledWrite(ws: seq<Wire>, id: Id, s: Sender, m: nat, q: nat, p: seq<Byte>) returns (m': nat, q': nat)
    requires ShortId(id) && s.limit > |id| + 1 && Filled(ws, id, s, m, q) && p != []
    ensures var r := Write(ws, id, s, p, Dials, 0, false);
      r.outcome.Wrote? && r.s.limit == s.limit && Filled(r.wires, id, r.s, m', q') && r.s.total > s.total
  {
    ShortHeader(id);
    var cap := s.limit - (|id| + 1);
    if q == cap {
      m', q' := m + 1, Min(|p|, cap);
    } else {
      m', q' := m, q + Min(|p|, cap - q);
    }
  }

  lemma {:induction false} FilledWrites(ws: seq<Wire>, id: Id, s: Sender, m: nat, q: nat, ps: seq<seq<Byte>>)
    returns (m': nat, q': nat)
    requires ShortId(id) && s.limit > |id| + 1 && Filled(ws, id, s, m, q) && forall p <- ps :: p != []
    ensures Linked(ws, s)
    ensures var (ws1, s1) := WriteAll(ws, id, s, ps);
      s1.limit == s.limit && Filled(ws1, id, s1, m', q') && s1.total >= s.total
    decreases |ps|
  {
    if ps == [] {
      m', q' := m, q;
    } else {
      assert ps[0] in ps;
      m', q' := FilledWrite(ws, id, s, m, q, ps[0]);
      var r := Write(ws, id, s, ps[0], Dials, 0, false);
      forall p | p in ps[1..] ensures p != [] { assert p in ps; }
      m', q' := FilledWrites(r.wires, id, r.s, m', q', ps[1..]);
    }
  }

  lemma CeilDivIs(n: nat, cap: nat, m: nat)
    requires cap > 0 && m >= 1 && Laps(m - 1, cap) < n <= Laps(m - 1, cap) + cap
    ensures (n + cap - 1) / cap == m
  {
    LapsIsProduct(m, cap);
    var a := n + cap - 1;
    var d := a / cap - m;
    assert cap * (a / cap) <= a < cap * (a / cap) + cap;
    assert m * cap <= a < m * cap + cap;
    assert cap * d == cap * (a / cap) - m * cap;
    MulBounds(cap, d);
  }

  /**
   An error-free run of non-empty writes after `Connect` that accepts N >= 1 bytes opens exactly
   ceil(N / (L - h)) connections, rotates one time less, and fills all of them but the last.
   */
  lemma RotationCount(id: Id, limit: int, ps: seq<seq<Byte>>)
    requires ShortId(id) && limit > |id| + 1 && forall p <- ps :: p != []
    ensures var (ws0, s0, _) := Open([], id, Sender(limit, None, 0, 0, 0, false), Dials);
      && Linked(ws0, s0)
      && var (ws, s) := WriteAll(ws0, id, s0, ps);
      && (ps != [] ==> WriteAll([], id, Sender(limit, None, 0, 0, 0, false), ps) == (ws, s))
      && (s.total >= 1 ==> |ws| == (s.total + (limit - |id| - 1) - 1) / (limit - |id| - 1))
      && s.rot == |ws| - 1
      && (forall i | 0 <= i < |ws| - 1 :: |ws[i].bytes| == limit)
  {
    ShortHeader(id);
    var t := Open([], id, Sender(limit, None, 0, 0, 0, false), Dials);
    var m, q := FilledWrites(t.0, id, t.1, 1, 0, ps);
    FilledCounts(WriteAll(t.0, id, t.1, ps).0, id, WriteAll(t.0, id, t.1, ps).1, m, q);
  }

  lemma FilledCounts(ws: seq<Wire>, id: Id, s: Sender, m: nat, q: nat)
    requires s.limit > |id| + 1 && Filled(ws, id, s, m, q)
    ensures s.total >= 1 ==> |ws| == (s.total + (s.limit - |id| - 1) - 1) / (s.limit - |id| - 1)
    ensures s.rot == |ws| - 1 && (forall i | 0 <= i < |ws| - 1 :: |ws[i].bytes| == s.limit)
    ensures forall i | 0 <= i < |ws| :: |ws[i].bytes| <= s.limit
  {
    if s.total >= 1 { CeilDivIs(s.total, s.limit - |id| - 1, m); }
  }
}

/**
 Socket ids on the wire (relayhub/socket.go, relayhub/relay.go): every relayed connection opens
 with a length-prefixed id, by which the dispatch loop routes it.
 */
module SocketIds {
  import opened Bytes
  import opened Varint

  type Id = seq<Byte>

  const SOCK0: seq<Byte> := [115, 111, 99, 107, 48, 46]
  const SOCK: seq<Byte> := [115, 111, 99, 107, 46]
  const CLOSE: seq<Byte> := [99, 108, 111, 115, 101, 46]
  const MAX_PB := 4096

  /** A time stamp `20060102.150405.000000000`: digits and dots, a digit at the end. */
  predicate IsStamp(ts: seq<Byte>) {
    && |ts| == 25 && ts[24] != 46
    && (forall i | 0 <= i < 25 :: ts[i] == 46 || 48 <= ts[i] <= 57)
  }

  /** The ids `generateConnID` hands out: the first attempt, or the form of a retry. */
  ghost predicate IsConnId(id: Id) {
    exists ts :: IsStamp(ts) && (id == SOCK0 + ts || id == SOCK + ts)
  }

  /** `writePbMessage`. */
  function PbMessage(data: seq<Byte>): seq<Byte> {
    Encode(|data|) + data
  }

  /** `readOnePb`: the message and the unread rest. */
  function ReadOnePb(s: seq<Byte>): Option<(seq<Byte>, seq<Byte>)> {
    match Decode(s)
    case None => None
    case Some((l, n)) => if l > MAX_PB || |s| < n + l then None else Some((s[n..n + l], s[n + l..]))
  }

  predicate IsSpace(b: Byte) { b == 10 || b == 13 || b == 9 || b == 32 }

  /** `strings.TrimRight`. */
  function TrimRight(s: seq<Byte>): seq<Byte> {
    if s == [] || !IsSpace(s[|s| - 1]) then s else TrimRight(s[..|s| - 1])
  }

  datatype Route = CloseOf(id: Id) | To(id: Id)

  /** How `dispatchLoop` reads the first message of a connection. */
  function RouteOf(data: seq<Byte>): Route {
    var sockID := TrimRight(data);
    if CLOSE <= sockID then CloseOf(SOCK0 + sockID[6..]) else To(sockID)
  }

  /** The id that `Close` sends for socket `id`. */
  function CloseId(id: Id): Id
    requires |id| >= 6
  {
    CLOSE + id[6..]
  }

  /** A message comes back whole, and the bytes after it are untouched, exactly up to 4096 bytes. */
  lemma PbRoundTrip(data: seq<Byte>, rest: seq<Byte>)
    requires |data| < TWO_64
    ensures ReadOnePb(PbMessage(data) + rest) == if |data| <= 4096 then Some((data, rest)) else None
  {
    var s := PbMessage(data) + rest;
    assert s == Encode(|data|) + (data + rest);
    DecodeEncode(|data|, data + rest);
    var n := |Encode(|data|)|;
    assert s[n..n + |data|] == data && s[n + |data|..] == rest;
  }

  lemma ConnIdShape(id: Id)
    requires IsConnId(id)
    ensures 30 <= |id| <= 31 && id[0] == 115 && !IsSpace(id[|id| - 1])
    ensures |PbMessage(id)| == |id| + 1
  {
    var ts :| IsStamp(ts) && (id == SOCK0 + ts || id == SOCK + ts);
    assert id[|id| - 1] == ts[24];
  }

  /** Every generated id is routed to the socket of that id. */
  lemma ConnIdRoutes(id: Id)
    requires IsConnId(id)
    ensures RouteOf(id) == To(id)
  {
    ConnIdShape(id);
    assert TrimRight(id) == id;
    assert !(CLOSE <= id) by { assert id[0] != CLOSE[0]; }
  }

  lemma {:induction false} TrimRightPadded(s: seq<Byte>, pad: seq<Byte>)
    requires (s != [] ==> !IsSpace(s[|s| - 1])) && forall i | 0 <= i < |pad| :: pad[i] in {9, 10, 13, 32}
    ensures TrimRight(s + pad) == s
    decreases |pad|
  {
    if pad == [] {
      assert s + pad == s;
    } else {
      var t := s + pad;
      assert t[..|t| - 1] == s + pad[..|pad| - 1];
      TrimRightPadded(s, pad[..|pad| - 1]);
    }
  }

  /** White space behind an id does not matter. */
  lemma PaddedIdRoutes(id: Id, pad: seq<Byte>)
    requires IsConnId(id) && forall i | 0 <= i < |pad| :: pad[i] in {9, 10, 13, 32}
    ensures RouteOf(id + pad) == To(id)
  {
    ConnIdShape(id);
    TrimRightPadded(id, pad);
    ConnIdRoutes(id);
    assert TrimRight(id) == id;
  }

  /** A close message reaches its socket exactly for ids of the first form, not for retry ids. */
  lemma CloseRoutesExactly(id: Id, ts: seq<Byte>)
    requires IsStamp(ts) && (id == SOCK0 + ts || id == SOCK + ts)
    ensures RouteOf(CloseId(id)) == CloseOf(id) <==> id == SOCK0 + ts
  {
    var c := CloseId(id);
    assert c[|c| - 1] == ts[24];
    assert TrimRight(c) == c;
    assert c[6..] == id[6..];
    if id == SOCK0 + ts {
      assert id[6..] == ts;
    } else {
      assert |SOCK0 + id[6..]| == |id|;
      assert (SOCK0 + id[6..])[4] == 48 && id[4] == 46;
    }
  }

  // ---------------------------------------------------------------- generated ids

  /** A time stamp read off the clock; of two, the later one is the greater number of its bytes. */
  type Stamp = ts: seq<Byte> | IsStamp(ts) witness seq(25, _ => 48)

  /** What `generateConnID` returns when the clock reads `first`, and `retry` after a sleep. */
  function NextId(last: Id, first: Stamp, retry: Stamp): Id {
    if SOCK0 + first == last then SOCK + retry else SOCK0 + first
  }

  class IdSource {
    var lastID: Id

    constructor ()
      ensures lastID == []
    {
      lastID := [];
    }

    /** `generateConnID`: its loop ends after one retry, for the two forms never coincide. */
    method GenerateConnID(first: Stamp, retry: Stamp) returns (cid: Id)
      modifies this
      ensures cid == lastID == NextId(old(lastID), first, retry) && cid != old(lastID)
    {
      cid := SOCK0 + first;
      while cid == lastID
        invariant cid == SOCK0 + first || (cid == SOCK + retry && lastID == SOCK0 + first)
        invariant lastID == old(lastID)
        decreases |cid|
      {
        FormsDiffer(first, retry);
        cid := SOCK + retry;
      }
      lastID := cid;
    }
  }

  lemma FormsDiffer(t: Stamp, u: Stamp)
    ensures SOCK0 + t != SOCK + u
  {
    assert |SOCK0 + t| == 31 && |SOCK + u| == 30;
  }

  /** One call: what the clock reads first, and after a sleep if it has to retry. */
  datatype Call = Call(first: Stamp, retry: Stamp)

  /** The ids that successive calls return. */
  ghost predicate Generated(calls: seq<Call>, ids: seq<Id>) {
    |ids| == |calls| && forall i | 0 <= i < |ids| :: ids[i] == NextId(Before(ids, i), calls[i].first, calls[i].retry)
  }

  function Before(ids: seq<Id>, i: nat): Id
    requires i < |ids|
  {
    if i == 0 then [] else ids[i - 1]
  }

  /** The clock reading that went into the id of call `i`. */
  function Reading(calls: seq<Call>, ids: seq<Id>, i: nat): Stamp
    requires i < |ids| == |calls|
  {
    if SOCK0 + calls[i].first == Before(ids, i) then calls[i].retry else calls[i].first
  }

  function Time(calls: seq<Call>, ids: seq<Id>, i: nat): nat
    requires i < |ids| == |calls|
  {
    BigEndian(Reading(calls, ids, i))
  }

  /** The clock never runs backwards, within a call or from one call to the next. */
  ghost predicate Forward(calls: seq<Call>, ids: seq<Id>) {
    && |ids| == |calls|
    && (forall i | 0 <= i < |ids| :: BigEndian(calls[i].first) <= Time(calls, ids, i))
    && (forall i | 0 < i < |ids| :: Time(calls, ids, i - 1) <= BigEndian(calls[i].first))
  }

  lemma IdIs(calls: seq<Call>, ids: seq<Id>, i: nat) returns (form: seq<Byte>)
    requires Generated(calls, ids) && i < |ids|
    ensures (form == SOCK0 || form == SOCK) && ids[i] == form + Reading(calls, ids, i)
    ensures form == SOCK <==> SOCK0 + calls[i].first == Before(ids, i)
  {
    form := if SOCK0 + calls[i].first == Before(ids, i) then SOCK else SOCK0;
  }

  lemma SameReading(a: seq<Byte>, t: Stamp, b: seq<Byte>, u: Stamp)
    requires (a == SOCK0 || a == SOCK) && (b == SOCK0 || b == SOCK) && a + t == b + u
    ensures t == u
  {
    assert |a + t| == |a| + 25 && |b + u| == |b| + 25;
    assert (a + t)[|a|..] == t && (b + u)[|b|..] == u;
  }

  lemma {:induction false} TimesGrow(calls: seq<Call>, ids: seq<Id>, i: nat, j: nat)
    requires Forward(calls, ids) && i <= j < |ids|
    ensures Time(calls, ids, i) <= Time(calls, ids, j)
  {
    if i < j {
      TimesGrow(calls, ids, i, j - 1);
      assert Time(calls, ids, j - 1) <= BigEndian(calls[j].first);
    }
  }

  /** Three successive calls at one reading: the third repeats the first. */
  lemma ThirdRepeats(calls: seq<Call>, ids: seq<Id>, i: nat)
    requires Generated(calls, ids) && Forward(calls, ids) && i + 2 < |ids|
    requires Time(calls, ids, i) == Time(calls, ids, i + 2)
    ensures ids[i] == ids[i + 2]
  {
    var r := Reading(calls, ids, i);
    StepAtOneReading(calls, ids, i, i + 2);
    StepAtOneReading(calls, ids, i + 1, i + 2);
    var f := IdIs(calls, ids, i);
    var g := IdIs(calls, ids, i + 1);
    var h := IdIs(calls, ids, i + 2);
    FormsDiffer(r, r);
  }

  /** If call `j` ends at the reading of call `i`, so does call `i + 1`, and it starts there. */
  lemma StepAtOneReading(calls: seq<Call>, ids: seq<Id>, i: nat, j: nat)
    requires Forward(calls, ids) && i < j < |ids| && Time(calls, ids, i) == Time(calls, ids, j)
    ensures calls[i + 1].first == Reading(calls, ids, i + 1) == Reading(calls, ids, i)
  {
    TimesGrow(calls, ids, i + 1, j);
    assert Time(calls, ids, i) <= BigEndian(calls[i + 1].first) <= Time(calls, ids, i + 1);
    BigEndianInjective(calls[i + 1].first, Reading(calls, ids, i + 1));
    BigEndianInjective(Reading(calls, ids, i), Reading(calls, ids, i + 1));
  }

  lemma LaterDiffers(calls: seq<Call>, ids: seq<Id>, i: nat, j: nat)
    requires Generated(calls, ids) && Forward(calls, ids) && i < j < |ids|
    requires i + 2 < |ids| ==> Time(calls, ids, i) < Time(calls, ids, i + 2)
    ensures ids[i] != ids[j]
  {
    if j == i + 1 {
      NeverLast(calls, ids, j);
    } else {
      TimesGrow(calls, ids, i + 2, j);
      SameIdSameTime(calls, ids, i, j);
    }
  }

  lemma NeverLast(calls: seq<Call>, ids: seq<Id>, i: nat)
    requires Generated(calls, ids) && i < |ids|
    ensures ids[i] != Before(ids, i)
  {
    FormsDiffer(calls[i].first, calls[i].retry);
  }

  lemma SameIdSameTime(calls: seq<Call>, ids: seq<Id>, i: nat, j: nat)
    requires Generated(calls, ids) && i < |ids| && j < |ids|
    ensures ids[i] == ids[j] ==> Time(calls, ids, i) == Time(calls, ids, j)
  {
    var f := IdIs(calls, ids, i);
    var g := IdIs(calls, ids, j);
    if ids[i] == ids[j] { SameReading(f, Reading(calls, ids, i), g, Reading(calls, ids, j)); }
  }

  lemma GeneratedIsConnId(calls: seq<Call>, ids: seq<Id>, i: nat)
    requires Generated(calls, ids) && i < |ids|
    ensures IsConnId(ids[i])
  {
    var form := IdIs(calls, ids, i);
    assert IsStamp(Reading(calls, ids, i));
  }

  /** No three successive calls end at one clock reading. */
  ghost predicate Spread(calls: seq<Call>, ids: seq<Id>)
    requires |ids| == |calls|
  {
    forall i | 0 <= i < |ids| - 2 :: Time(calls, ids, i) < Time(calls, ids, i + 2)
  }

  /**
   With a clock that never runs backwards, generated ids are pairwise distinct if and only if
   no three successive calls end at one clock reading.
   */
  lemma IdsDistinctExactly(calls: seq<Call>, ids: seq<Id>)
    requires Generated(calls, ids) && Forward(calls, ids)
    ensures (forall i, j | 0 <= i < j < |ids| :: ids[i] != ids[j]) <==> Spread(calls, ids)
  {
    if Spread(calls, ids) {
      forall i, j | 0 <= i < j < |ids| ensures ids[i] != ids[j] { SpreadDiffers(calls, ids, i, j); }
    } else {
      var i :| 0 <= i < |ids| - 2 && Time(calls, ids, i) >= Time(calls, ids, i + 2);
      TimesGrow(calls, ids, i, i + 2);
      ThirdRepeats(calls, ids, i);
    }
  }

  lemma SpreadDiffers(calls: seq<Call>, ids: seq<Id>, i: nat, j: nat)
    requires Generated(calls, ids) && Forward(calls, ids) && Spread(calls, ids) && i < j < |ids|
    ensures ids[i] != ids[j]
  {
    LaterDiffers(calls, ids, i, j);
  }
}

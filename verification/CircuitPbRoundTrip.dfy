/** Round trips of the circuit relay messages, and the decoding loop. */
module CircuitPbRoundTrip {
  import opened Bytes
  import opened Varint
  import opened CircuitPb

  // ---------------------------------------------------------------- folding fields

  lemma FoldOne<M>(take: (M, Tok) -> Result<M>, m: M, x: Field)
    ensures Fold(take, m, ToksOf([x])) == take(m, TokOf(x))
  {
    assert ToksOf([x]) == [TokOf(x)];
  }

  lemma FoldMore<M>(take: (M, Tok) -> Result<M>, m: M, xs: seq<Field>, m1: M, ys: seq<Field>)
    requires Fold(take, m, ToksOf(xs)) == Ok(m1)
    ensures Fold(take, m, ToksOf(xs + ys)) == Fold(take, m1, ToksOf(ys))
  {
    ToksAppend(xs, ys);
    FoldAppend(take, m, ToksOf(xs), ToksOf(ys));
  }

  /** Folding the fields `xs` takes `m` to `m1`. */
  ghost predicate Yields<M(!new)>(take: (M, Tok) -> Result<M>, m: M, xs: seq<Field>, m1: M) {
    Fold(take, m, ToksOf(xs)) == Ok(m1)
  }

  ghost predicate Numbered(xs: seq<Field>) {
    forall i | 0 <= i < |xs| :: xs[i].f < MAX_FIELD
  }

  lemma FieldsDecide<M(!new)>(take: (M, Tok) -> Result<M>, empty: M, xs: seq<Field>, m: M)
    requires Numbered(xs) && |EncodeFields(xs)| < TWO_63 && Yields(take, empty, xs, m)
    ensures Fold(take, empty, Tokens(EncodeFields(xs), 0)) == Ok(m)
  {
    TokensOfMessage(EncodeFields(xs), xs);
  }

  lemma Chain2<M(!new)>(take: (M, Tok) -> Result<M>, m: M, a: seq<Field>, m1: M, b: seq<Field>, m2: M)
    requires Yields(take, m, a, m1) && Yields(take, m1, b, m2)
    ensures Yields(take, m, a + b, m2)
  {
    FoldMore(take, m, a, m1, b);
  }

  lemma Chain3<M(!new)>(take: (M, Tok) -> Result<M>, m: M, a: seq<Field>, m1: M, b: seq<Field>,
    m2: M, c: seq<Field>, m3: M)
    requires Yields(take, m, a, m1) && Yields(take, m1, b, m2) && Yields(take, m2, c, m3)
    ensures Yields(take, m, a + b + c, m3)
  {
    Chain2(take, m, a, m1, b, m2);
    Chain2(take, m, a + b, m2, c, m3);
  }

  lemma Chain4<M(!new)>(take: (M, Tok) -> Result<M>, m: M, a: seq<Field>, m1: M, b: seq<Field>,
    m2: M, c: seq<Field>, m3: M, d: seq<Field>, m4: M)
    requires Yields(take, m, a, m1) && Yields(take, m1, b, m2) && Yields(take, m2, c, m3) && Yields(take, m3, d, m4)
    ensures Yields(take, m, a + b + c + d, m4)
  {
    Chain3(take, m, a, m1, b, m2, c, m3);
    Chain2(take, m, a + b + c, m3, d, m4);
  }

  lemma {:induction false} PeerAddrs(p: Peer, items: seq<seq<Byte>>)
    ensures Fold(PeerTok, p, ToksOf(Bs(2, items))) == Ok(p.(addrs := p.addrs + items))
    decreases |items|
  {
    if items == [] {
      assert p.addrs + items == p.addrs;
    } else {
      var p1 := p.(addrs := p.addrs + [items[0]]);
      FoldOne(PeerTok, p, B(2, items[0]));
      FoldMore(PeerTok, p, [B(2, items[0])], p1, Bs(2, items[1..]));
      PeerAddrs(p1, items[1..]);
      assert p1.addrs + items[1..] == p.addrs + items;
    }
  }

  lemma {:induction false} ReservationAddrs(r: Reservation, items: seq<seq<Byte>>)
    ensures Fold(ReservationTok, r, ToksOf(Bs(2, items))) == Ok(r.(addrs := r.addrs + items))
    decreases |items|
  {
    if items == [] {
      assert r.addrs + items == r.addrs;
    } else {
      var r1 := r.(addrs := r.addrs + [items[0]]);
      FoldOne(ReservationTok, r, B(2, items[0]));
      FoldMore(ReservationTok, r, [B(2, items[0])], r1, Bs(2, items[1..]));
      ReservationAddrs(r1, items[1..]);
      assert r1.addrs + items[1..] == r.addrs + items;
    }
  }

  lemma {:induction false} BsSmall(f: nat, items: seq<seq<Byte>>)
    ensures forall i | 0 <= i < |Bs(f, items)| :: Bs(f, items)[i].f == f
    decreases |items|
  {
    if items != [] { BsSmall(f, items[1..]); }
  }

  // ---------------------------------------------------------------- later fields win, lists grow

  function Or<T>(late: Option<T>, early: Option<T>): Option<T> { if late.Some? then late else early }
  function PosOr(late: int, early: int): int { if late > 0 then late else early }

  function PeerMerged(z: Peer, p: Peer): Peer { Peer(Or(p.id, z.id), z.addrs + p.addrs) }

  function ReservationMerged(z: Reservation, r: Reservation): Reservation {
    Reservation(PosOr(r.expire, z.expire), z.addrs + r.addrs, Or(r.voucher, z.voucher))
  }

  function LimitMerged(z: Limit, l: Limit): Limit {
    Limit(PosOr(l.duration, z.duration), PosOr(l.data, z.data))
  }

  lemma PeerFold(z: Peer, p: Peer)
    ensures Yields(PeerTok, z, PeerFields(p), PeerMerged(z, p))
  {
    var p1 := z.(id := Or(p.id, z.id));
    assert Yields(PeerTok, z, OptB(1, p.id), p1) by {
      if p.id.Some? { FoldOne(PeerTok, z, B(1, p.id.value)); }
    }
    PeerAddrs(p1, p.addrs);
    Chain2(PeerTok, z, OptB(1, p.id), p1, Bs(2, p.addrs), PeerMerged(z, p));
  }

  lemma PeerRoundTrip(p: Peer)
    requires |EncodePeer(p)| < TWO_63
    ensures DecodePeer(EncodePeer(p)) == Ok(p)
  {
    PeerIsFields(p);
    BsSmall(2, p.addrs);
    PeerFold(NO_PEER, p);
    assert NO_PEER.addrs + p.addrs == p.addrs;
    FieldsDecide(PeerTok, NO_PEER, PeerFields(p), p);
  }

  lemma ReservationFold(z: Reservation, r: Reservation)
    ensures Yields(ReservationTok, z, ReservationFields(r), ReservationMerged(z, r))
  {
    var r1 := z.(expire := PosOr(r.expire, z.expire));
    var r2 := r1.(addrs := z.addrs + r.addrs);
    assert Yields(ReservationTok, z, PosV(1, r.expire), r1) by {
      if r.expire > 0 { FoldOne(ReservationTok, z, V(1, r.expire)); }
    }
    ReservationAddrs(r1, r.addrs);
    assert Yields(ReservationTok, r2, OptB(3, r.voucher), ReservationMerged(z, r)) by {
      if r.voucher.Some? { FoldOne(ReservationTok, r2, B(3, r.voucher.value)); }
    }
    Chain3(ReservationTok, z, PosV(1, r.expire), r1, Bs(2, r.addrs), r2, OptB(3, r.voucher), ReservationMerged(z, r));
  }

  lemma ReservationRoundTrip(r: Reservation)
    requires |EncodeReservation(r)| < TWO_63
    ensures DecodeReservation(EncodeReservation(r)) == Ok(r)
  {
    ReservationIsFields(r);
    BsSmall(2, r.addrs);
    ReservationFold(NO_RESERVATION, r);
    assert NO_RESERVATION.addrs + r.addrs == r.addrs;
    FieldsDecide(ReservationTok, NO_RESERVATION, ReservationFields(r), r);
  }

  lemma LimitFold(z: Limit, l: Limit)
    ensures Yields(LimitTok, z, LimitFields(l), LimitMerged(z, l))
  {
    var l1 := z.(duration := PosOr(l.duration, z.duration));
    assert Yields(LimitTok, z, PosV(1, l.duration), l1) by {
      if l.duration > 0 { FoldOne(LimitTok, z, V(1, l.duration)); }
    }
    assert Yields(LimitTok, l1, PosV(2, l.data), LimitMerged(z, l)) by {
      if l.data > 0 { FoldOne(LimitTok, l1, V(2, l.data)); }
    }
    Chain2(LimitTok, z, PosV(1, l.duration), l1, PosV(2, l.data), LimitMerged(z, l));
  }

  lemma LimitRoundTrip(l: Limit)
    requires |EncodeLimit(l)| < TWO_63
    ensures DecodeLimit(EncodeLimit(l)) == Ok(l)
  {
    LimitIsFields(l);
    LimitFold(NO_LIMIT, l);
    FieldsDecide(LimitTok, NO_LIMIT, LimitFields(l), l);
  }

  // ---------------------------------------------------------------- the three messages

  function NonNegative(x: int): int { if x > 0 then x else 0 }

  ghost predicate PeerFits(p: Option<Peer>) { p.Some? ==> |EncodePeer(p.value)| < TWO_63 }
  ghost predicate ReservationFits(r: Option<Reservation>) { r.Some? ==> |EncodeReservation(r.value)| < TWO_63 }
  ghost predicate LimitFits(l: Option<Limit>) { l.Some? ==> |EncodeLimit(l.value)| < TWO_63 }

  function HopMerged(z: Hop, m: Hop): Hop {
    Hop(m.kind, Or(m.peer, z.peer), Or(m.reservation, z.reservation), Or(m.limit, z.limit), PosOr(m.status, z.status))
  }

  lemma HopKind(z: Hop, k: Int32)
    ensures Yields(HopTok, z, [V(1, ToUint64(k))], z.(kind := k))
  {
    FoldOne(HopTok, z, V(1, ToUint64(k)));
  }

  lemma HopPeer(m: Hop, p: Option<Peer>)
    requires PeerFits(p)
    ensures Yields(HopTok, m, PeerF(2, p), m.(peer := Or(p, m.peer)))
  {
    if p.Some? {
      PeerRoundTrip(p.value);
      FoldOne(HopTok, m, B(2, EncodePeer(p.value)));
    }
  }

  lemma HopReservation(m: Hop, r: Option<Reservation>)
    requires ReservationFits(r)
    ensures Yields(HopTok, m, ReservationF(3, r), m.(reservation := Or(r, m.reservation)))
  {
    if r.Some? {
      ReservationRoundTrip(r.value);
      FoldOne(HopTok, m, B(3, EncodeReservation(r.value)));
    }
  }

  lemma HopLimit(m: Hop, l: Option<Limit>)
    requires LimitFits(l)
    ensures Yields(HopTok, m, LimitF(4, l), m.(limit := Or(l, m.limit)))
  {
    if l.Some? {
      LimitRoundTrip(l.value);
      FoldOne(HopTok, m, B(4, EncodeLimit(l.value)));
    }
  }

  lemma HopStatus(m: Hop, status: Int32)
    ensures Yields(HopTok, m, PosV(5, status), m.(status := PosOr(status, m.status)))
  {
    if status > 0 { FoldOne(HopTok, m, V(5, status)); }
  }

  lemma HopFold(z: Hop, m: Hop)
    requires PeerFits(m.peer) && ReservationFits(m.reservation) && LimitFits(m.limit)
    ensures Yields(HopTok, z, HopFields(m), HopMerged(z, m))
  {
    var m1 := z.(kind := m.kind);
    var m2 := m1.(peer := Or(m.peer, z.peer));
    var m3 := m2.(reservation := Or(m.reservation, z.reservation));
    var m4 := m3.(limit := Or(m.limit, z.limit));
    HopKind(z, m.kind);
    HopPeer(m1, m.peer);
    HopReservation(m2, m.reservation);
    HopLimit(m3, m.limit);
    HopStatus(m4, m.status);
    var a, b, c, d := [V(1, ToUint64(m.kind))], PeerF(2, m.peer), ReservationF(3, m.reservation), LimitF(4, m.limit);
    Chain4(HopTok, z, a, m1, b, m2, c, m3, d, m4);
    Chain2(HopTok, z, a + b + c + d, m4, PosV(5, m.status), HopMerged(z, m));
  }

  lemma HopFits(m: Hop)
    requires |EncodeHop(m)| < TWO_63
    ensures PeerFits(m.peer) && ReservationFits(m.reservation) && LimitFits(m.limit)
  {
  }

  lemma HopNumbered(m: Hop)
    ensures Numbered(HopFields(m))
  {
  }

  /** A Hop message decodes to itself exactly when its status is not negative; a negative one becomes 0. */
  lemma HopRoundTrip(m: Hop)
    requires |EncodeHop(m)| < TWO_63
    ensures DecodeHop(EncodeHop(m)) == Ok(m.(status := NonNegative(m.status)))
    ensures DecodeHop(EncodeHop(m)) == Ok(m) <==> m.status >= 0
  {
    HopFits(m);
    HopIsFields(m);
    HopNumbered(m);
    HopFold(NO_HOP, m);
    FieldsDecide(HopTok, NO_HOP, HopFields(m), m.(status := NonNegative(m.status)));
  }

  function StopMerged(z: Stop, m: Stop): Stop {
    Stop(m.kind, Or(m.peer, z.peer), Or(m.limit, z.limit), PosOr(m.status, z.status))
  }

  lemma StopKind(z: Stop, k: Int32)
    ensures Yields(StopTok, z, [V(1, ToUint64(k))], z.(kind := k))
  {
    FoldOne(StopTok, z, V(1, ToUint64(k)));
  }

  lemma StopPeer(m: Stop, p: Option<Peer>)
    requires PeerFits(p)
    ensures Yields(StopTok, m, PeerF(2, p), m.(peer := Or(p, m.peer)))
  {
    if p.Some? {
      PeerRoundTrip(p.value);
      FoldOne(StopTok, m, B(2, EncodePeer(p.value)));
    }
  }

  lemma StopLimit(m: Stop, l: Option<Limit>)
    requires LimitFits(l)
    ensures Yields(StopTok, m, LimitF(3, l), m.(limit := Or(l, m.limit)))
  {
    if l.Some? {
      LimitRoundTrip(l.value);
      FoldOne(StopTok, m, B(3, EncodeLimit(l.value)));
    }
  }

  lemma StopStatus(m: Stop, status: Int32)
    ensures Yields(StopTok, m, PosV(4, status), m.(status := PosOr(status, m.status)))
  {
    if status > 0 { FoldOne(StopTok, m, V(4, status)); }
  }

  lemma StopFold(z: Stop, m: Stop)
    requires PeerFits(m.peer) && LimitFits(m.limit)
    ensures Yields(StopTok, z, StopFields(m), StopMerged(z, m))
  {
    var m1 := z.(kind := m.kind);
    var m2 := m1.(peer := Or(m.peer, z.peer));
    var m3 := m2.(limit := Or(m.limit, z.limit));
    StopKind(z, m.kind);
    StopPeer(m1, m.peer);
    StopLimit(m2, m.limit);
    StopStatus(m3, m.status);
    Chain4(StopTok, z, [V(1, ToUint64(m.kind))], m1, PeerF(2, m.peer), m2, LimitF(3, m.limit), m3,
           PosV(4, m.status), StopMerged(z, m));
  }

  lemma StopFits(m: Stop)
    requires |EncodeStop(m)| < TWO_63
    ensures PeerFits(m.peer) && LimitFits(m.limit)
  {
  }

  lemma StopNumbered(m: Stop)
    ensures Numbered(StopFields(m))
  {
  }

  lemma StopRoundTrip(m: Stop)
    requires |EncodeStop(m)| < TWO_63
    ensures DecodeStop(EncodeStop(m)) == Ok(m.(status := NonNegative(m.status)))
    ensures DecodeStop(EncodeStop(m)) == Ok(m) <==> m.status >= 0
  {
    StopFits(m);
    StopIsFields(m);
    StopNumbered(m);
    StopFold(NO_STOP, m);
    FieldsDecide(StopTok, NO_STOP, StopFields(m), m.(status := NonNegative(m.status)));
  }

  function V1Merged(z: V1, m: V1): V1 {
    V1(m.kind, Or(m.src, z.src), Or(m.dst, z.dst), PosOr(m.code, z.code))
  }

  lemma V1Kind(z: V1, k: Int64)
    ensures Yields(V1Tok, z, [V(1, ToUint64(k))], z.(kind := k))
  {
    FoldOne(V1Tok, z, V(1, ToUint64(k)));
  }

  lemma V1Src(m: V1, p: Option<Peer>)
    requires PeerFits(p)
    ensures Yields(V1Tok, m, PeerF(2, p), m.(src := Or(p, m.src)))
  {
    if p.Some? {
      PeerRoundTrip(p.value);
      FoldOne(V1Tok, m, B(2, EncodePeer(p.value)));
    }
  }

  lemma V1Dst(m: V1, p: Option<Peer>)
    requires PeerFits(p)
    ensures Yields(V1Tok, m, PeerF(3, p), m.(dst := Or(p, m.dst)))
  {
    if p.Some? {
      PeerRoundTrip(p.value);
      FoldOne(V1Tok, m, B(3, EncodePeer(p.value)));
    }
  }

  lemma V1Code(m: V1, code: Int64)
    ensures Yields(V1Tok, m, PosV(4, code), m.(code := PosOr(code, m.code)))
  {
    if code > 0 { FoldOne(V1Tok, m, V(4, code)); }
  }

  lemma V1Fold(z: V1, m: V1)
    requires PeerFits(m.src) && PeerFits(m.dst)
    ensures Yields(V1Tok, z, V1Fields(m), V1Merged(z, m))
  {
    var m1 := z.(kind := m.kind);
    var m2 := m1.(src := Or(m.src, z.src));
    var m3 := m2.(dst := Or(m.dst, z.dst));
    V1Kind(z, m.kind);
    V1Src(m1, m.src);
    V1Dst(m2, m.dst);
    V1Code(m3, m.code);
    Chain4(V1Tok, z, [V(1, ToUint64(m.kind))], m1, PeerF(2, m.src), m2, PeerF(3, m.dst), m3,
           PosV(4, m.code), V1Merged(z, m));
  }

  lemma V1Fits(m: V1)
    requires |EncodeV1(m)| < TWO_63
    ensures PeerFits(m.src) && PeerFits(m.dst)
  {
  }

  lemma V1Numbered(m: V1)
    ensures Numbered(V1Fields(m))
  {
  }

  lemma V1RoundTrip(m: V1)
    requires |EncodeV1(m)| < TWO_63
    ensures DecodeV1(EncodeV1(m)) == Ok(m.(code := NonNegative(m.code)))
    ensures DecodeV1(EncodeV1(m)) == Ok(m) <==> m.code >= 0
  {
    V1Fits(m);
    V1IsFields(m);
    V1Numbered(m);
    V1Fold(NO_V1, m);
    FieldsDecide(V1Tok, NO_V1, V1Fields(m), m.(code := NonNegative(m.code)));
  }

  // ---------------------------------------------------------------- repeated fields and wrong types

  /** Two messages in one: of each field the last occurrence counts, and a nested message replaces the one before. */
  lemma HopMerges(a: Hop, b: Hop)
    requires |EncodeHop(a) + EncodeHop(b)| < TWO_63
    ensures DecodeHop(EncodeHop(a) + EncodeHop(b)) == Ok(HopMerged(HopMerged(NO_HOP, a), b))
  {
    var m, xs, ys := HopMerged(NO_HOP, a), HopFields(a), HopFields(b);
    HopFits(a);
    HopFits(b);
    HopIsFields(a);
    HopIsFields(b);
    HopNumbered(a);
    HopNumbered(b);
    EncodeFieldsAppend(xs, ys);
    HopFold(NO_HOP, a);
    HopFold(m, b);
    Chain2(HopTok, NO_HOP, xs, m, ys, HopMerged(m, b));
    FieldsDecide(HopTok, NO_HOP, xs + ys, HopMerged(m, b));
  }

  lemma StopMerges(a: Stop, b: Stop)
    requires |EncodeStop(a) + EncodeStop(b)| < TWO_63
    ensures DecodeStop(EncodeStop(a) + EncodeStop(b)) == Ok(StopMerged(StopMerged(NO_STOP, a), b))
  {
    var m, xs, ys := StopMerged(NO_STOP, a), StopFields(a), StopFields(b);
    StopFits(a);
    StopFits(b);
    StopIsFields(a);
    StopIsFields(b);
    StopNumbered(a);
    StopNumbered(b);
    EncodeFieldsAppend(xs, ys);
    StopFold(NO_STOP, a);
    StopFold(m, b);
    Chain2(StopTok, NO_STOP, xs, m, ys, StopMerged(m, b));
    FieldsDecide(StopTok, NO_STOP, xs + ys, StopMerged(m, b));
  }

  lemma V1Merges(a: V1, b: V1)
    requires |EncodeV1(a) + EncodeV1(b)| < TWO_63
    ensures DecodeV1(EncodeV1(a) + EncodeV1(b)) == Ok(V1Merged(V1Merged(NO_V1, a), b))
  {
    var m, xs, ys := V1Merged(NO_V1, a), V1Fields(a), V1Fields(b);
    V1Fits(a);
    V1Fits(b);
    V1IsFields(a);
    V1IsFields(b);
    V1Numbered(a);
    V1Numbered(b);
    EncodeFieldsAppend(xs, ys);
    V1Fold(NO_V1, a);
    V1Fold(m, b);
    Chain2(V1Tok, NO_V1, xs, m, ys, V1Merged(m, b));
    FieldsDecide(V1Tok, NO_V1, xs + ys, V1Merged(m, b));
  }

  /** After any fields that decode, a field that the decoder refuses ends decoding with an error, whatever follows. */
  lemma Refuses<M(!new)>(take: (M, Tok) -> Result<M>, empty: M, xs: seq<Field>, m: M, u: Field, rest: seq<Byte>)
    requires Numbered(xs) && u.f < MAX_FIELD && |EncodeFields(xs)| + |EncodeField(u)| < TWO_63
    requires Yields(take, empty, xs, m) && take(m, TokOf(u)) == Err
    ensures Fold(take, empty, Tokens(EncodeFields(xs) + (EncodeField(u) + rest), 0)) == Err
  {
    var tail := TokensThen(xs, u, rest);
    FoldStops(take, empty, ToksOf(xs), m, TokOf(u), tail);
  }

  lemma TokensThen(xs: seq<Field>, u: Field, rest: seq<Byte>) returns (tail: seq<Tok>)
    requires Numbered(xs) && u.f < MAX_FIELD && |EncodeFields(xs)| + |EncodeField(u)| < TWO_63
    ensures Tokens(EncodeFields(xs) + (EncodeField(u) + rest), 0) == ToksOf(xs) + ([TokOf(u)] + tail)
  {
    TokensOfFields(xs, EncodeField(u) + rest, 0);
    FieldReadAs(u, rest, |EncodeFields(xs)|);
    tail := ReadThen(EncodeFields(xs), ToksOf(xs), EncodeField(u), TokOf(u), rest);
  }

  lemma ReadThen(es: seq<Byte>, ts: seq<Tok>, e: seq<Byte>, t: Tok, rest: seq<Byte>) returns (tail: seq<Tok>)
    requires AllReadAs(es, ts, e + rest, 0) && ReadAs(e, t, rest, |es|)
    ensures Tokens(es + (e + rest), 0) == ts + ([t] + tail)
  {
    tail := Tokens(rest, |es| + |e|);
  }

  lemma FoldStops<M(!new)>(take: (M, Tok) -> Result<M>, empty: M, ts: seq<Tok>, m: M, t: Tok, tail: seq<Tok>)
    requires Fold(take, empty, ts) == Ok(m) && take(m, t) == Err
    ensures Fold(take, empty, ts + ([t] + tail)) == Err
  {
    FoldAppend(take, empty, ts, [t] + tail);
    assert ([t] + tail)[0] == t;
  }

  /** The wire type of each known field is the only one accepted for it. */
  lemma HopRefusesTypes(xs: seq<Field>, m: Hop, u: Field, rest: seq<Byte>)
    requires Numbered(xs) && Yields(HopTok, NO_HOP, xs, m) && |EncodeFields(xs)| + |EncodeField(u)| < TWO_63
    requires (u.f in {1, 5} && u.B?) || (u.f in {2, 3, 4} && u.V?)
    ensures DecodeHop(EncodeFields(xs) + (EncodeField(u) + rest)) == Err
  {
    Refuses(HopTok, NO_HOP, xs, m, u, rest);
  }

  lemma StopRefusesTypes(xs: seq<Field>, m: Stop, u: Field, rest: seq<Byte>)
    requires Numbered(xs) && Yields(StopTok, NO_STOP, xs, m) && |EncodeFields(xs)| + |EncodeField(u)| < TWO_63
    requires (u.f in {1, 4} && u.B?) || (u.f in {2, 3} && u.V?)
    ensures DecodeStop(EncodeFields(xs) + (EncodeField(u) + rest)) == Err
  {
    Refuses(StopTok, NO_STOP, xs, m, u, rest);
  }

  lemma V1RefusesTypes(xs: seq<Field>, m: V1, u: Field, rest: seq<Byte>)
    requires Numbered(xs) && Yields(V1Tok, NO_V1, xs, m) && |EncodeFields(xs)| + |EncodeField(u)| < TWO_63
    requires (u.f in {1, 4} && u.B?) || (u.f in {2, 3} && u.V?)
    ensures DecodeV1(EncodeFields(xs) + (EncodeField(u) + rest)) == Err
  {
    Refuses(V1Tok, NO_V1, xs, m, u, rest);
  }

  // ---------------------------------------------------------------- the bytes

  /** A length-delimited part behind its tag byte. */
  function Part(tag: Byte, body: seq<Byte>): seq<Byte> {
    [tag] + Encode(|body|) + body
  }

  function Parts(tag: Byte, bodies: seq<seq<Byte>>): seq<Byte> {
    if bodies == [] then [] else Part(tag, bodies[0]) + Parts(tag, bodies[1..])
  }

  function Number(tag: Byte, v: int): seq<Byte> {
    if v > 0 then [tag] + Encode(v) else []
  }

  lemma PartIs(f: nat, tag: Byte, body: seq<Byte>)
    requires 8 * f + 2 == tag < 128
    ensures BytesField(f, body) == Part(tag, body)
  {
  }

  lemma {:induction false} PartsAre(f: nat, tag: Byte, bodies: seq<seq<Byte>>)
    requires 8 * f + 2 == tag < 128
    ensures BytesFields(f, bodies) == Parts(tag, bodies)
    decreases |bodies|
  {
    if bodies != [] {
      PartIs(f, tag, bodies[0]);
      PartsAre(f, tag, bodies[1..]);
    }
  }

  lemma NumberIs(f: nat, tag: Byte, v: int)
    requires 8 * f == tag < 128
    ensures PosVarint(f, v) == Number(tag, v)
  {
  }

  /** Tag bytes and order of the parts of the nested messages. */
  lemma NestedBytes(p: Peer, r: Reservation, l: Limit)
    ensures EncodePeer(p) == (if p.id.Some? then Part(0x0a, p.id.value) else []) + Parts(0x12, p.addrs)
    ensures EncodeReservation(r) ==
            Number(0x08, r.expire) + Parts(0x12, r.addrs) +
            (if r.voucher.Some? then Part(0x1a, r.voucher.value) else [])
    ensures EncodeLimit(l) == Number(0x08, l.duration) + Number(0x10, l.data)
  {
    if p.id.Some? { PartIs(1, 0x0a, p.id.value); }
    PartsAre(2, 0x12, p.addrs);
    NumberIs(1, 0x08, r.expire);
    PartsAre(2, 0x12, r.addrs);
    if r.voucher.Some? { PartIs(3, 0x1a, r.voucher.value); }
    NumberIs(1, 0x08, l.duration);
    NumberIs(2, 0x10, l.data);
  }

  function PeerPart(tag: Byte, p: Option<Peer>): seq<Byte> { if p.Some? then Part(tag, EncodePeer(p.value)) else [] }
  function LimitPart(tag: Byte, l: Option<Limit>): seq<Byte> { if l.Some? then Part(tag, EncodeLimit(l.value)) else [] }

  /** Tag bytes and order of the parts of the three messages. */
  lemma HopBytes(m: Hop)
    ensures EncodeHop(m) ==
            [0x08] + Encode(ToUint64(m.kind)) + PeerPart(0x12, m.peer) +
            (if m.reservation.Some? then Part(0x1a, EncodeReservation(m.reservation.value)) else []) +
            LimitPart(0x22, m.limit) + Number(0x28, m.status)
  {
    if m.peer.Some? { PartIs(2, 0x12, EncodePeer(m.peer.value)); }
    if m.reservation.Some? { PartIs(3, 0x1a, EncodeReservation(m.reservation.value)); }
    if m.limit.Some? { PartIs(4, 0x22, EncodeLimit(m.limit.value)); }
    NumberIs(5, 0x28, m.status);
  }

  lemma StopBytes(m: Stop)
    ensures EncodeStop(m) ==
            [0x08] + Encode(ToUint64(m.kind)) + PeerPart(0x12, m.peer) + LimitPart(0x1a, m.limit) +
            Number(0x20, m.status)
  {
    if m.peer.Some? { PartIs(2, 0x12, EncodePeer(m.peer.value)); }
    if m.limit.Some? { PartIs(3, 0x1a, EncodeLimit(m.limit.value)); }
    NumberIs(4, 0x20, m.status);
  }

  lemma V1Bytes(m: V1)
    ensures EncodeV1(m) ==
            [0x08] + Encode(ToUint64(m.kind)) + PeerPart(0x12, m.src) + PeerPart(0x1a, m.dst) + Number(0x20, m.code)
  {
    if m.src.Some? { PartIs(2, 0x12, EncodePeer(m.src.value)); }
    if m.dst.Some? { PartIs(3, 0x1a, EncodePeer(m.dst.value)); }
    NumberIs(4, 0x20, m.code);
  }

  // ---------------------------------------------------------------- unknown fields

  /** The same token, but that a panic at a later position may be a plain failure at an earlier one. */
  predicate Milder(t: Tok, u: Tok) {
    t == u || (u.CrashTok? && t == BadTok(u.f, 2))
  }

  /** What `next` reads from `s` at two positions. */
  ghost predicate MilderAt(next: (seq<Byte>, nat) -> Option<(Tok, nat)>, s: seq<Byte>, off: nat, later: nat) {
    match (next(s, off), next(s, later))
    case (None, None) => true
    case (Some((t, n)), Some((u, k))) => n == k && Milder(t, u)
    case _ => false
  }

  lemma NextEarlier(s: seq<Byte>, off: nat, later: nat)
    requires off <= later && later + |s| < TWO_63
    ensures MilderAt(Next, s, off, later)
  {
  }

  predicate AllMilder(ts: seq<Tok>, us: seq<Tok>) {
    |ts| == |us| && forall i | 0 <= i < |ts| :: Milder(ts[i], us[i])
  }

  lemma MilderCons(t: Tok, u: Tok, ts: seq<Tok>, us: seq<Tok>)
    requires Milder(t, u) && AllMilder(ts, us)
    ensures AllMilder([t] + ts, [u] + us)
  {
  }

  lemma {:induction false} CutEarlier(next: (seq<Byte>, nat) -> Option<(Tok, nat)>, s: seq<Byte>, off: nat, later: nat)
    requires forall s, off: nat, later: nat | off <= later && later + |s| < TWO_63 :: MilderAt(next, s, off, later)
    requires off <= later && later + |s| < TWO_63
    ensures AllMilder(Cut(next, s, off), Cut(next, s, later))
    decreases |s|
  {
    assert MilderAt(next, s, off, later);
    if next(s, off).Some? && 1 <= next(s, off).value.1 <= |s| {
      var n := next(s, off).value.1;
      CutEarlier(next, s[n..], off + n, later + n);
      MilderCons(next(s, off).value.0, next(s, later).value.0, Cut(next, s[n..], off + n),
        Cut(next, s[n..], later + n));
    }
  }

  lemma TokensEarlier(s: seq<Byte>, off: nat, later: nat)
    requires off <= later && later + |s| < TWO_63
    ensures AllMilder(Tokens(s, off), Tokens(s, later))
  {
    forall s, off: nat, later: nat | off <= later && later + |s| < TWO_63 ensures MilderAt(Next, s, off, later) {
      NextEarlier(s, off, later);
    }
    CutEarlier(Next, s, off, later);
  }

  /** How a message type takes a length on which allocation panics: its varint fields reject the wire type first. */
  ghost predicate PanicsBut<M(!new)>(take: (M, Tok) -> Result<M>, varints: set<nat>) {
    forall m, f: nat ::
      && take(m, CrashTok(f)) == (if f in varints then Err else Crash)
      && (f in varints ==> take(m, BadTok(f, 2)) == Err)
  }

  /** The first place in which two equally long token lists differ, or their length. */
  function FirstDifference(a: seq<Tok>, b: seq<Tok>): (i: nat)
    requires |a| == |b|
    ensures i <= |a| && a[..i] == b[..i] && (i < |a| ==> a[i] != b[i])
  {
    if a == [] || a[0] != b[0] then 0
    else
      var i := FirstDifference(a[1..], b[1..]);
      assert a[..i + 1] == [a[0]] + a[1..][..i] && b[..i + 1] == [b[0]] + b[1..][..i];
      i + 1
  }

  /**
   Token lists that differ by panics for plain failures fold alike exactly when they do not
   differ, when folding stops before the first difference, when that is in a varint field, or
   when the milder list panics later on as well.
   */
  lemma FoldMilderExactly<M(!new)>(take: (M, Tok) -> Result<M>, varints: set<nat>, m: M,
    p: seq<Tok>, a: seq<Tok>, b: seq<Tok>)
    requires PanicsBut(take, varints) && AllMilder(a, b)
    ensures var i := FirstDifference(a, b);
      Fold(take, m, p + b) == Fold(take, m, p + a) <==>
        i == |a| || !Fold(take, m, p + a[..i]).Ok? || a[i].f in varints || Fold(take, m, p + a) == Crash
  {
    var i := FirstDifference(a, b);
    var c := p + a[..i];
    assert p + a == c + a[i..] && p + b == c + b[i..];
    FoldAppend(take, m, c, a[i..]);
    FoldAppend(take, m, c, b[i..]);
    if i < |a| && Fold(take, m, c).Ok? {
      assert Milder(a[i], b[i]);
      assert a[i..][0] == a[i] && b[i..][0] == b[i];
      assert take(Fold(take, m, c).m, b[i]) == if a[i].f in varints then Err else Crash;
    }
  }

  /** A token that leaves every message as it is. */
  ghost predicate Ignored<M(!new)>(take: (M, Tok) -> Result<M>, t: Tok) {
    forall m :: take(m, t) == Ok(m)
  }

  lemma FoldIgnored<M(!new)>(take: (M, Tok) -> Result<M>, m: M, a: seq<Tok>, t: Tok, b: seq<Tok>)
    requires Ignored(take, t)
    ensures Fold(take, m, a + ([t] + b)) == Fold(take, m, a + b)
  {
    FoldAppend(take, m, a, [t] + b);
    FoldAppend(take, m, a, b);
    assert forall m1: M :: Fold(take, m1, [t] + b) == Fold(take, m1, b) by {
      forall m1: M ensures Fold(take, m1, [t] + b) == Fold(take, m1, b) {
        assert ([t] + b)[1..] == b && take(m1, t) == Ok(m1);
      }
    }
  }

  /** The fields of numbers in `known`. */
  function KnownOnly(xs: seq<Field>, known: set<nat>): seq<Field> {
    if xs == [] then []
    else if xs[0].f in known then [xs[0]] + KnownOnly(xs[1..], known)
    else KnownOnly(xs[1..], known)
  }

  /** A message type knows the fields in `known` and no others. */
  ghost predicate Knows<M(!new)>(take: (M, Tok) -> Result<M>, known: set<nat>) {
    forall m, x: Field | x.f !in known :: take(m, TokOf(x)) == Ok(m)
  }

  lemma {:induction false} FoldKnown<M(!new)>(take: (M, Tok) -> Result<M>, known: set<nat>, m: M, xs: seq<Field>)
    requires Knows(take, known)
    ensures Fold(take, m, ToksOf(xs)) == Fold(take, m, ToksOf(KnownOnly(xs, known)))
    decreases |xs|
  {
    if xs != [] {
      var x, rest := xs[0], xs[1..];
      ToksCons(xs);
      FoldCons(take, m, TokOf(x), ToksOf(rest));
      var r := take(m, TokOf(x));
      if r.Ok? { FoldKnown(take, known, r.m, rest); }
      if x.f in known {
        var kept := KnownOnly(xs, known);
        assert kept[0] == x && kept[1..] == KnownOnly(rest, known);
        ToksCons(kept);
        FoldCons(take, m, TokOf(x), ToksOf(KnownOnly(rest, known)));
      } else {
        assert take(m, TokOf(x)) == Ok(m);
      }
    }
  }

  lemma ToksCons(xs: seq<Field>)
    requires xs != []
    ensures ToksOf(xs) == [TokOf(xs[0])] + ToksOf(xs[1..])
  {
  }

  lemma {:induction false} KnownShorter(xs: seq<Field>, known: set<nat>)
    ensures |EncodeFields(KnownOnly(xs, known))| <= |EncodeFields(xs)|
    decreases |xs|
  {
    if xs != [] {
      KnownShorter(xs[1..], known);
      EncodeCons(xs);
      if xs[0].f in known {
        var kept := KnownOnly(xs, known);
        assert kept[0] == xs[0] && kept[1..] == KnownOnly(xs[1..], known);
        EncodeCons(kept);
      }
    }
  }

  lemma EncodeCons(xs: seq<Field>)
    requires xs != []
    ensures |EncodeFields(xs)| == |EncodeField(xs[0])| + |EncodeFields(xs[1..])|
  {
    assert [xs[0]] + xs[1..] == xs;
    EncodeFieldsAppend([xs[0]], xs[1..]);
    OneField(xs[0]);
  }

  /** A list of well-formed fields decodes as its known fields do, wherever the unknown ones stand. */
  lemma UnknownIgnored<M(!new)>(take: (M, Tok) -> Result<M>, known: set<nat>, m: M, xs: seq<Field>)
    requires Knows(take, known) && Numbered(xs) && |EncodeFields(xs)| < TWO_63
    ensures Fold(take, m, Tokens(EncodeFields(xs), 0)) == Fold(take, m, ToksOf(KnownOnly(xs, known)))
  {
    TokensOfMessage(EncodeFields(xs), xs);
    FoldKnown(take, known, m, xs);
  }

  const HOP_FIELDS: set<nat> := {1, 2, 3, 4, 5}
  const STOP_FIELDS: set<nat> := {1, 2, 3, 4}
  const V1_FIELDS: set<nat> := {1, 2, 3, 4}

  lemma HopKnows()
    ensures Knows(HopTok, HOP_FIELDS)
  {
    forall m, x: Field | x.f !in HOP_FIELDS ensures HopTok(m, TokOf(x)) == Ok(m) { HopSkips(m, TokOf(x)); }
  }

  lemma HopSkips(m: Hop, t: Tok)
    requires t.f !in HOP_FIELDS && !t.CrashTok?
    ensures HopTok(m, t) == Ok(m)
  {
  }

  lemma StopKnows()
    ensures Knows(StopTok, STOP_FIELDS)
  {
    forall m, x: Field | x.f !in STOP_FIELDS ensures StopTok(m, TokOf(x)) == Ok(m) { StopSkips(m, TokOf(x)); }
  }

  lemma StopSkips(m: Stop, t: Tok)
    requires t.f !in STOP_FIELDS && !t.CrashTok?
    ensures StopTok(m, t) == Ok(m)
  {
  }

  lemma V1Knows()
    ensures Knows(V1Tok, V1_FIELDS)
  {
    forall m, x: Field | x.f !in V1_FIELDS ensures V1Tok(m, TokOf(x)) == Ok(m) { V1Skips(m, TokOf(x)); }
  }

  lemma V1Skips(m: V1, t: Tok)
    requires t.f !in V1_FIELDS && !t.CrashTok?
    ensures V1Tok(m, t) == Ok(m)
  {
  }

  lemma KnownDecide<M(!new)>(take: (M, Tok) -> Result<M>, known: set<nat>, empty: M, xs: seq<Field>,
    ys: seq<Field>, m: M)
    requires Knows(take, known) && Numbered(xs) && |EncodeFields(xs)| < TWO_63
    requires KnownOnly(xs, known) == ys && Yields(take, empty, ys, m)
    ensures Fold(take, empty, Tokens(EncodeFields(xs), 0)) == Ok(m)
  {
    UnknownIgnored(take, known, empty, xs);
  }

  /** A Hop message with unknown fields of wire type 0 or 2 at any field boundaries decodes to itself. */
  lemma HopWithUnknown(m: Hop, xs: seq<Field>)
    requires KnownOnly(xs, HOP_FIELDS) == HopFields(m) && Numbered(xs) && |EncodeFields(xs)| < TWO_63
    ensures DecodeHop(EncodeFields(xs)) == Ok(m.(status := NonNegative(m.status)))
  {
    HopKnownFits(m, xs);
    HopFold(NO_HOP, m);
    HopKnows();
    KnownDecide(HopTok, HOP_FIELDS, NO_HOP, xs, HopFields(m), m.(status := NonNegative(m.status)));
  }

  lemma HopKnownFits(m: Hop, xs: seq<Field>)
    requires KnownOnly(xs, HOP_FIELDS) == HopFields(m) && |EncodeFields(xs)| < TWO_63
    ensures PeerFits(m.peer) && ReservationFits(m.reservation) && LimitFits(m.limit)
  {
    KnownShorter(xs, HOP_FIELDS);
    HopIsFields(m);
    HopFits(m);
  }

  lemma StopWithUnknown(m: Stop, xs: seq<Field>)
    requires KnownOnly(xs, STOP_FIELDS) == StopFields(m) && Numbered(xs) && |EncodeFields(xs)| < TWO_63
    ensures DecodeStop(EncodeFields(xs)) == Ok(m.(status := NonNegative(m.status)))
  {
    StopKnownFits(m, xs);
    StopFold(NO_STOP, m);
    StopKnows();
    KnownDecide(StopTok, STOP_FIELDS, NO_STOP, xs, StopFields(m), m.(status := NonNegative(m.status)));
  }

  lemma StopKnownFits(m: Stop, xs: seq<Field>)
    requires KnownOnly(xs, STOP_FIELDS) == StopFields(m) && |EncodeFields(xs)| < TWO_63
    ensures PeerFits(m.peer) && LimitFits(m.limit)
  {
    KnownShorter(xs, STOP_FIELDS);
    StopIsFields(m);
    StopFits(m);
  }

  lemma V1WithUnknown(m: V1, xs: seq<Field>)
    requires KnownOnly(xs, V1_FIELDS) == V1Fields(m) && Numbered(xs) && |EncodeFields(xs)| < TWO_63
    ensures DecodeV1(EncodeFields(xs)) == Ok(m.(code := NonNegative(m.code)))
  {
    V1KnownFits(m, xs);
    V1Fold(NO_V1, m);
    V1Knows();
    KnownDecide(V1Tok, V1_FIELDS, NO_V1, xs, V1Fields(m), m.(code := NonNegative(m.code)));
  }

  lemma V1KnownFits(m: V1, xs: seq<Field>)
    requires KnownOnly(xs, V1_FIELDS) == V1Fields(m) && |EncodeFields(xs)| < TWO_63
    ensures PeerFits(m.src) && PeerFits(m.dst)
  {
    KnownShorter(xs, V1_FIELDS);
    V1IsFields(m);
    V1Fits(m);
  }

  // ---------------------------------------------------------------- unknown fields before broken bytes

  lemma TwoReadings(es: seq<Byte>, ts: seq<Tok>, e: seq<Byte>, t: Tok, rest: seq<Byte>)
    returns (a: seq<Tok>, b: seq<Tok>)
    requires |es| + |e| + |rest| < TWO_63
    requires AllReadAs(es, ts, e + rest, 0) && AllReadAs(es, ts, rest, 0) && ReadAs(e, t, rest, |es|)
    ensures a == Tokens(rest, |es|) && b == Tokens(rest, |es| + |e|) && AllMilder(a, b)
    ensures Tokens(es + rest, 0) == ts + a && Tokens(es + (e + rest), 0) == ts + ([t] + b)
  {
    a, b := Tokens(rest, |es|), Tokens(rest, |es| + |e|);
    TokensEarlier(rest, |es|, |es| + |e|);
  }

  /** The tokens of `rest` behind `es`, and how many of them read the same behind `es` and `e`. */
  ghost predicate Shifted(es: seq<Byte>, e: seq<Byte>, rest: seq<Byte>, a: seq<Tok>, i: nat) {
    && a == Tokens(rest, |es|) && |Tokens(rest, |es| + |e|)| == |a|
    && i == FirstDifference(a, Tokens(rest, |es| + |e|))
  }

  /**
   A well-formed unknown field behind well-formed fields and before any bytes changes nothing
   if and only if: no length in those bytes passes 2^63 only behind the field, or decoding stops
   before the first such length, or that is in a field read as a varint, or decoding panics
   without the field as well.
   */
  lemma UnknownExactly<M(!new)>(take: (M, Tok) -> Result<M>, varints: set<nat>, m: M, xs: seq<Field>, u: Field,
                                rest: seq<Byte>) returns (a: seq<Tok>, i: nat)
    requires PanicsBut(take, varints) && Ignored(take, TokOf(u)) && Numbered(xs) && u.f < MAX_FIELD
    requires |EncodeFields(xs)| + |EncodeField(u)| + |rest| < TWO_63
    ensures Shifted(EncodeFields(xs), EncodeField(u), rest, a, i) && i <= |a|
    ensures var with := Fold(take, m, Tokens(EncodeFields(xs) + (EncodeField(u) + rest), 0));
      var without := Fold(take, m, Tokens(EncodeFields(xs) + rest, 0));
      with == without <==>
        i == |a| || !Fold(take, m, ToksOf(xs) + a[..i]).Ok? || a[i].f in varints || without == Crash
  {
    TokensOfFields(xs, EncodeField(u) + rest, 0);
    TokensOfFields(xs, rest, 0);
    FieldReadAs(u, rest, |EncodeFields(xs)|);
    a, i := ExactlyBetween(take, varints, m, EncodeFields(xs), ToksOf(xs), EncodeField(u), TokOf(u), rest);
  }

  lemma ExactlyBetween<M(!new)>(take: (M, Tok) -> Result<M>, varints: set<nat>, m: M, es: seq<Byte>, ts: seq<Tok>,
                                e: seq<Byte>, t: Tok, rest: seq<Byte>) returns (a: seq<Tok>, i: nat)
    requires PanicsBut(take, varints) && Ignored(take, t) && |es| + |e| + |rest| < TWO_63
    requires AllReadAs(es, ts, e + rest, 0) && AllReadAs(es, ts, rest, 0) && ReadAs(e, t, rest, |es|)
    ensures Shifted(es, e, rest, a, i) && i <= |a|
    ensures var with, without := Fold(take, m, Tokens(es + (e + rest), 0)), Fold(take, m, Tokens(es + rest, 0));
      with == without <==>
        i == |a| || !Fold(take, m, ts + a[..i]).Ok? || a[i].f in varints || without == Crash
  {
    var b;
    a, b := TwoReadings(es, ts, e, t, rest);
    i := FirstDifference(a, b);
    ExactlyBehind(take, varints, m, ts, t, a, b);
  }

  lemma ExactlyBehind<M(!new)>(take: (M, Tok) -> Result<M>, varints: set<nat>, m: M, p: seq<Tok>, t: Tok,
                               a: seq<Tok>, b: seq<Tok>)
    requires PanicsBut(take, varints) && Ignored(take, t) && AllMilder(a, b)
    ensures var i := FirstDifference(a, b);
      Fold(take, m, p + ([t] + b)) == Fold(take, m, p + a) <==>
        i == |a| || !Fold(take, m, p + a[..i]).Ok? || a[i].f in varints || Fold(take, m, p + a) == Crash
  {
    FoldIgnored(take, m, p, t, b);
    FoldMilderExactly(take, varints, m, p, a, b);
  }

  lemma HopUnknown(xs: seq<Field>, u: Field, rest: seq<Byte>) returns (a: seq<Tok>, i: nat)
    requires Numbered(xs) && u.f < MAX_FIELD && u.f !in HOP_FIELDS
    requires |EncodeFields(xs)| + |EncodeField(u)| + |rest| < TWO_63
    ensures Shifted(EncodeFields(xs), EncodeField(u), rest, a, i) && i <= |a|
    ensures DecodeHop(EncodeFields(xs) + (EncodeField(u) + rest)) == DecodeHop(EncodeFields(xs) + rest) <==>
      || i == |a| || !Fold(HopTok, NO_HOP, ToksOf(xs) + a[..i]).Ok? || a[i].f in {1, 5}
      || DecodeHop(EncodeFields(xs) + rest) == Crash
  {
    a, i := UnknownExactly(HopTok, {1, 5}, NO_HOP, xs, u, rest);
  }

  lemma StopUnknown(xs: seq<Field>, u: Field, rest: seq<Byte>) returns (a: seq<Tok>, i: nat)
    requires Numbered(xs) && u.f < MAX_FIELD && u.f !in STOP_FIELDS
    requires |EncodeFields(xs)| + |EncodeField(u)| + |rest| < TWO_63
    ensures Shifted(EncodeFields(xs), EncodeField(u), rest, a, i) && i <= |a|
    ensures DecodeStop(EncodeFields(xs) + (EncodeField(u) + rest)) == DecodeStop(EncodeFields(xs) + rest) <==>
      || i == |a| || !Fold(StopTok, NO_STOP, ToksOf(xs) + a[..i]).Ok? || a[i].f in {1, 4}
      || DecodeStop(EncodeFields(xs) + rest) == Crash
  {
    a, i := UnknownExactly(StopTok, {1, 4}, NO_STOP, xs, u, rest);
  }

  lemma V1Unknown(xs: seq<Field>, u: Field, rest: seq<Byte>) returns (a: seq<Tok>, i: nat)
    requires Numbered(xs) && u.f < MAX_FIELD && u.f !in V1_FIELDS
    requires |EncodeFields(xs)| + |EncodeField(u)| + |rest| < TWO_63
    ensures Shifted(EncodeFields(xs), EncodeField(u), rest, a, i) && i <= |a|
    ensures DecodeV1(EncodeFields(xs) + (EncodeField(u) + rest)) == DecodeV1(EncodeFields(xs) + rest) <==>
      || i == |a| || !Fold(V1Tok, NO_V1, ToksOf(xs) + a[..i]).Ok? || a[i].f in {1, 4}
      || DecodeV1(EncodeFields(xs) + rest) == Crash
  {
    a, i := UnknownExactly(V1Tok, {1, 4}, NO_V1, xs, u, rest);
  }

  /** The tag of field 9 and a length that fits below 2^63 at position 0 and no longer at position 2. */
  const NEAR_LIMIT: seq<Byte> := Encode(74) + Encode(TWO_63 - 12)

  /** Bytes that decode to an empty message, and panic behind a two-byte unknown field. */
  lemma UnknownFieldCanPanic()
    ensures DecodeHop(NEAR_LIMIT) == Ok(NO_HOP)
    ensures EncodeField(V(7, 0)) == [56, 0] && DecodeHop(EncodeField(V(7, 0)) + NEAR_LIMIT) == Crash
  {
    NearLimitAt(0);
    NearLimitAt(2);
    FieldReadAs(V(7, 0), NEAR_LIMIT, 0);
    assert Tokens(NEAR_LIMIT, 0) == [BadTok(9, 2)];
    assert Tokens(EncodeField(V(7, 0)) + NEAR_LIMIT, 0) == [VarintTok(7, 0), CrashTok(9)];
    FoldCons(HopTok, NO_HOP, VarintTok(7, 0), [CrashTok(9)]);
    FoldCons(HopTok, NO_HOP, CrashTok(9), []);
    FoldCons(HopTok, NO_HOP, BadTok(9, 2), []);
  }

  lemma NearLimitAt(off: nat)
    requires off <= 2
    ensures Tokens(NEAR_LIMIT, off) == [if off < 2 then BadTok(9, 2) else CrashTok(9)]
  {
    NearLimitLength();
    DecodeEncode(74, Encode(TWO_63 - 12));
    DecodeEncode(TWO_63 - 12, []);
    assert Encode(TWO_63 - 12) + [] == Encode(TWO_63 - 12);
    assert NEAR_LIMIT[1..] == Encode(TWO_63 - 12);
    assert Next(NEAR_LIMIT, off) == Some((if off < 2 then BadTok(9, 2) else CrashTok(9), 10));
    CutLast(Next, NEAR_LIMIT, off, if off < 2 then BadTok(9, 2) else CrashTok(9));
  }

  lemma CutLast(next: (seq<Byte>, nat) -> Option<(Tok, nat)>, s: seq<Byte>, off: nat, t: Tok)
    requires s != [] && next(s, off) == Some((t, |s|)) && next([], off + |s|) == None
    ensures Cut(next, s, off) == [t]
  {
    assert s[|s|..] == [];
    assert Cut(next, [], off + |s|) == [];
  }

  lemma NearLimitLength()
    ensures |Encode(74)| == 1 && |Encode(TWO_63 - 12)| == 9 && |NEAR_LIMIT| == 10
  {
    var n := TWO_63 - 12;
    assert |Encode(n / 128 / 128 / 128 / 128 / 128 / 128 / 128 / 128)| == 1;
    assert |Encode(n / 128 / 128 / 128 / 128 / 128 / 128)| == 3;
    assert |Encode(n / 128 / 128 / 128 / 128)| == 5;
    assert |Encode(n / 128 / 128)| == 7;
  }

  // ---------------------------------------------------------------- the decoder object and its loop

  class PbDecoder {
    const data: seq<Byte>
    var pos: nat

    constructor (data: seq<Byte>)
      ensures this.data == data && pos == 0
    {
      this.data, pos := data, 0;
    }

    method ReadVarint() returns (r: Option<nat>)
      requires pos <= |data|
      modifies this`pos
      ensures old(pos) <= pos <= |data|
      ensures match Decode(data[old(pos)..])
        case None => r == None && pos == old(pos)
        case Some((v, n)) => r == Some(v) && pos == old(pos) + n
    {
      match Decode(data[pos..])
      case None => r := None;
      case Some((v, n)) => r, pos := Some(v), pos + n;
    }

    /** `readBytes`; the position stays behind the length when the bytes are missing. */
    method ReadBytes(ghost f: nat) returns (r: Result<seq<Byte>>)
      requires pos <= |data|
      modifies this`pos
      ensures var (t, n) := Value(f, 2, data[old(pos)..], old(pos));
        r == CircuitPb.TakeBytes(t) && pos == old(pos) + n <= |data|
    {
      ghost var s, start := data[pos..], pos;
      var l := ReadVarint();
      if l.None? { return Err; }
      if pos + l.value <= |data| { SliceOfTail(data, start, pos, pos + l.value); }
      if pos + l.value >= TWO_63 { return Crash; }
      if pos + l.value > |data| { return Err; }
      r := Ok(data[pos..pos + l.value]);
      pos := pos + l.value;
    }

    /** `decodeTag`: field number and wire type. */
    method DecodeTag() returns (r: Option<(nat, nat)>)
      requires pos <= |data|
      modifies this`pos
      ensures old(pos) <= pos <= |data| && (r.Some? ==> old(pos) < pos)
      ensures match Decode(data[old(pos)..])
        case None => r == None
        case Some((t, n)) => r == Some((t / 8, t % 8)) && pos == old(pos) + n
    {
      var v := ReadVarint();
      r := if v.Some? then Some((v.value / 8, v.value % 8)) else None;
    }

    /** The value behind a tag, read by its wire type. */
    method ReadValue(f: nat, wt: nat) returns (t: Tok)
      requires pos <= |data|
      modifies this`pos
      ensures var (u, n) := Value(f, wt, data[old(pos)..], old(pos)); t == u && pos == old(pos) + n <= |data|
    {
      if wt == 0 {
        var v := ReadVarint();
        RoomIs64Bits();
        t := if v.Some? then VarintTok(f, v.value) else BadTok(f, 0);
      } else if wt == 2 {
        var b := ReadBytes(f);
        t := match b case Ok(x) => BytesTok(f, x) case Err => BadTok(f, 2) case Crash => CrashTok(f);
      } else {
        t := OtherTok(f);
      }
    }

    /** A tag and its value: one turn of a decoding loop. */
    method ReadTok() returns (r: Option<Tok>)
      requires pos <= |data|
      modifies this`pos
      ensures old(pos) <= pos <= |data|
      ensures r.None? <==> Next(data[old(pos)..], old(pos)).None?
      ensures r.Some? ==> Next(data[old(pos)..], old(pos)) == Some((r.value, pos - old(pos)))
    {
      ghost var s, start := data[pos..], pos;
      var tag := DecodeTag();
      if tag.None? { return None; }
      assert s[pos - start..] == data[pos..];
      var t := ReadValue(tag.value.0, tag.value.1);
      r := Some(t);
    }
  }

  lemma CutAt(next: (seq<Byte>, nat) -> Option<(Tok, nat)>, data: seq<Byte>, pos: nat, t: Tok, n: nat)
    requires pos <= |data| && 1 <= n <= |data| - pos && next(data[pos..], pos) == Some((t, n))
    ensures Cut(next, data[pos..], pos) == [t] + Cut(next, data[pos + n..], pos + n)
  {
    assert data[pos..][n..] == data[pos + n..];
  }

  lemma CutOn(next: (seq<Byte>, nat) -> Option<(Tok, nat)>, data: seq<Byte>, start: nat, t: Option<Tok>, pos: nat)
    returns (more: seq<Tok>)
    requires start <= pos <= |data|
    requires
      if t.None? then next(data[start..], start).None?
      else start < pos && next(data[start..], start) == Some((t.value, pos - start))
    ensures more == Cut(next, data[pos..], pos)
    ensures Cut(next, data[start..], start) == if t.None? then [] else [t.value] + more
  {
    more := Cut(next, data[pos..], pos);
    if t.Some? { CutAt(next, data, start, t.value, pos - start); }
  }

  lemma FoldCons<M>(take: (M, Tok) -> Result<M>, m: M, t: Tok, ts: seq<Tok>)
    ensures Fold(take, m, [t] + ts) ==
      match take(m, t)
      case Ok(m1) => Fold(take, m1, ts)
      case Err => Err
      case Crash => Crash
  {
    assert ([t] + ts)[1..] == ts;
  }

  /**
   The decoding loop, the same for every message but for `take`, its switch on the field number:
   it ends, for the position moves on in every turn, and computes the fold over the tokens.
   */
  method DecodeMessage<M>(take: (M, Tok) -> Result<M>, empty: M, data: seq<Byte>) returns (r: Result<M>)
    ensures r == Fold(take, empty, Tokens(data, 0))
  {
    var dec := new PbDecoder(data);
    var m := empty;
    ghost var ts := Tokens(data, 0);
    ghost var all := ts;
    assert data[0..] == data;
    while dec.pos < |data|
      invariant dec.data == data && dec.pos <= |data|
      invariant ts == Tokens(data[dec.pos..], dec.pos) && Fold(take, m, ts) == Fold(take, empty, all)
      decreases |data| - dec.pos
    {
      var t;
      t, ts := ReadNext(dec, ts);
      if t.None? { return Ok(m); }
      FoldCons(take, m, t.value, ts);
      match take(m, t.value)
      case Ok(m1) => m := m1;
      case Err => return Err;
      case Crash => return Crash;
    }
    assert ts == [] by { assert data[dec.pos..] == []; }
    return Ok(m);
  }

  method ReadNext(dec: PbDecoder, ghost ts: seq<Tok>) returns (t: Option<Tok>, ghost more: seq<Tok>)
    requires dec.pos < |dec.data| && ts == Tokens(dec.data[dec.pos..], dec.pos)
    modifies dec`pos
    ensures old(dec.pos) <= dec.pos <= |dec.data| && more == Tokens(dec.data[dec.pos..], dec.pos)
    ensures if t.None? then ts == [] else old(dec.pos) < dec.pos && ts == [t.value] + more
  {
    ghost var start := dec.pos;
    t := dec.ReadTok();
    more := CutOn(Next, dec.data, start, t, dec.pos);
  }

  method DecodeHopMessage(data: seq<Byte>) returns (r: Result<Hop>)
    ensures r == DecodeHop(data)
  {
    r := DecodeMessage(HopTok, NO_HOP, data);
  }

  method DecodeStopMessage(data: seq<Byte>) returns (r: Result<Stop>)
    ensures r == DecodeStop(data)
  {
    r := DecodeMessage(StopTok, NO_STOP, data);
  }

  method DecodeCircuitV1(data: seq<Byte>) returns (r: Result<V1>)
    ensures r == DecodeV1(data)
  {
    r := DecodeMessage(V1Tok, NO_V1, data);
  }
}

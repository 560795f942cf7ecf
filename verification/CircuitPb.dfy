/**
 The circuit relay messages and their protobuf encoding (relayhub/circuitpb.go,
 relayhub/circuitv1.go). Decoding is specified in two layers: a byte string is cut into tokens
 without looking at the message type, and each message folds its tokens.
 */
module CircuitPb {
  import opened Bytes
  import opened Varint

  const TWO_32 := 0x1_0000_0000
  const TWO_31 := 0x8000_0000
  const TWO_63 := 0x8000_0000_0000_0000

  type Int32 = x: int | -TWO_31 <= x < TWO_31
  type Int64 = x: int | -TWO_63 <= x < TWO_63
  type Uint32 = x: int | 0 <= x < TWO_32
  type Uint64 = x: int | 0 <= x < TWO_64

  /** Go's conversions between these types. */
  function ToUint64(x: Int64): Uint64 { if x < 0 then x + TWO_64 else x }
  function ToInt64(v: Uint64): Int64 { if v >= TWO_63 then v - TWO_64 else v }
  function ToUint32(v: Uint64): Uint32 { v % TWO_32 }
  function ToInt32(v: Uint64): Int32 { var w := v % TWO_32; if w >= TWO_31 then w - TWO_32 else w }

  /** An absent `id` or `voucher` is Go's nil slice; an empty one is present. */
  datatype Peer = Peer(id: Option<seq<Byte>>, addrs: seq<seq<Byte>>)
  datatype Reservation = Reservation(expire: Uint64, addrs: seq<seq<Byte>>, voucher: Option<seq<Byte>>)
  datatype Limit = Limit(duration: Uint32, data: Uint64)
  datatype Hop = Hop(kind: Int32, peer: Option<Peer>, reservation: Option<Reservation>,
    limit: Option<Limit>, status: Int32)
  datatype Stop = Stop(kind: Int32, peer: Option<Peer>, limit: Option<Limit>, status: Int32)
  datatype V1 = V1(kind: Int64, src: Option<Peer>, dst: Option<Peer>, code: Int64)

  const NO_PEER := Peer(None, [])
  const NO_RESERVATION := Reservation(0, [], None)
  const NO_LIMIT := Limit(0, 0)
  const NO_HOP := Hop(0, None, None, None, 0)
  const NO_STOP := Stop(0, None, None, 0)
  const NO_V1 := V1(0, None, None, 0)

  // ---------------------------------------------------------------- encoders

  function VarintField(f: nat, v: nat): seq<Byte> {
    Encode(8 * f) + Encode(v)
  }

  function BytesField(f: nat, b: seq<Byte>): seq<Byte> {
    Encode(8 * f + 2) + Encode(|b|) + b
  }

  function BytesFields(f: nat, items: seq<seq<Byte>>): seq<Byte> {
    if items == [] then [] else BytesField(f, items[0]) + BytesFields(f, items[1..])
  }

  function OptBytes(f: nat, b: Option<seq<Byte>>): seq<Byte> {
    if b.Some? then BytesField(f, b.value) else []
  }

  function PosVarint(f: nat, v: int): seq<Byte> {
    if v > 0 then VarintField(f, v) else []
  }

  function EncodePeer(p: Peer): seq<Byte> {
    OptBytes(1, p.id) + BytesFields(2, p.addrs)
  }

  function EncodeReservation(r: Reservation): seq<Byte> {
    PosVarint(1, r.expire) + BytesFields(2, r.addrs) + OptBytes(3, r.voucher)
  }

  function EncodeLimit(l: Limit): seq<Byte> {
    PosVarint(1, l.duration) + PosVarint(2, l.data)
  }

  function OptPeer(f: nat, p: Option<Peer>): seq<Byte> {
    if p.Some? then BytesField(f, EncodePeer(p.value)) else []
  }

  function OptReservation(f: nat, r: Option<Reservation>): seq<Byte> {
    if r.Some? then BytesField(f, EncodeReservation(r.value)) else []
  }

  function OptLimit(f: nat, l: Option<Limit>): seq<Byte> {
    if l.Some? then BytesField(f, EncodeLimit(l.value)) else []
  }

  function EncodeHop(m: Hop): seq<Byte> {
    VarintField(1, ToUint64(m.kind)) + OptPeer(2, m.peer) + OptReservation(3, m.reservation) +
    OptLimit(4, m.limit) + PosVarint(5, m.status)
  }

  function EncodeStop(m: Stop): seq<Byte> {
    VarintField(1, ToUint64(m.kind)) + OptPeer(2, m.peer) + OptLimit(3, m.limit) + PosVarint(4, m.status)
  }

  function EncodeV1(m: V1): seq<Byte> {
    VarintField(1, ToUint64(m.kind)) + OptPeer(2, m.src) + OptPeer(3, m.dst) + PosVarint(4, m.code)
  }

  // ---------------------------------------------------------------- tokens

  /**
   What one turn of a decoding loop reads: a complete field of wire type 0 or 2, a bare tag of
   another wire type, a tag whose value is broken off, or a length on which allocation panics.
   */
  datatype Tok =
    | VarintTok(f: nat, v: Uint64)
    | BytesTok(f: nat, b: seq<Byte>)
    | OtherTok(f: nat)
    | BadTok(f: nat, wt: nat)
    | CrashTok(f: nat)

  /**
   The value behind the tag of field `f` with wire type `wt`, at position `off`, and its length.
   Of a broken value only what was read of it is consumed. A length that takes `pos + int(l)`
   beyond 63 bits passes the bounds check and makes the allocation panic.
   */
  function Value(f: nat, wt: nat, s: seq<Byte>, off: nat): (r: (Tok, nat))
    ensures r.1 <= |s| && r.0.f == f
  {
    if wt == 0 then
      match Decode(s)
      case None => (BadTok(f, 0), 0)
      case Some((v, k)) => RoomIs64Bits(); (VarintTok(f, v), k)
    else if wt == 2 then
      match Decode(s)
      case None => (BadTok(f, 2), 0)
      case Some((l, k)) =>
        if off + k + l >= TWO_63 then (CrashTok(f), k)
        else if k + l > |s| then (BadTok(f, 2), k)
        else (BytesTok(f, s[k..k + l]), k + l)
    else (OtherTok(f), 0)
  }

  /** The next token of `s`, which starts at position `off`, and its length; None when no tag can be read. */
  function Next(s: seq<Byte>, off: nat): (r: Option<(Tok, nat)>)
    ensures r.Some? ==> 1 <= r.value.1 <= |s|
  {
    match Decode(s)
    case None => None
    case Some((t, n)) =>
      var (tok, k) := Value(t / 8, t % 8, s[n..], off + n);
      Some((tok, n + k))
  }

  /** Cuts `s` with `next` until that gives nothing. */
  function Cut(next: (seq<Byte>, nat) -> Option<(Tok, nat)>, s: seq<Byte>, off: nat): seq<Tok>
    decreases |s|
  {
    match next(s, off)
    case None => []
    case Some((t, n)) => if 1 <= n <= |s| then [t] + Cut(next, s[n..], off + n) else []
  }

  function Tokens(s: seq<Byte>, off: nat): seq<Tok> {
    Cut(Next, s, off)
  }

  // ---------------------------------------------------------------- decoders

  datatype Result<M> = Ok(m: M) | Err | Crash

  function Fold<M>(take: (M, Tok) -> Result<M>, m: M, ts: seq<Tok>): Result<M>
    decreases |ts|
  {
    if ts == [] then Ok(m)
    else
      match take(m, ts[0])
      case Ok(m1) => Fold(take, m1, ts[1..])
      case Err => Err
      case Crash => Crash
  }

  /** Fields a message does not know are skipped, whatever they hold. */
  function Skip<M>(m: M, t: Tok): Result<M> {
    if t.CrashTok? then Crash else Ok(m)
  }

  function TakeBytes(t: Tok): Result<seq<Byte>> {
    match t
    case BytesTok(_, b) => Ok(b)
    case CrashTok(_) => Crash
    case _ => Err
  }

  function TakeVarint(t: Tok): Result<Uint64> {
    if t.VarintTok? then Ok(t.v) else Err
  }

  function Map<A, B>(r: Result<A>, f: A -> B): Result<B> {
    match r
    case Ok(a) => Ok(f(a))
    case Err => Err
    case Crash => Crash
  }

  function Then<A, B>(r: Result<A>, f: A -> Result<B>): Result<B> {
    match r
    case Ok(a) => f(a)
    case Err => Err
    case Crash => Crash
  }

  function PeerTok(p: Peer, t: Tok): Result<Peer> {
    if t.f == 1 then Map(TakeBytes(t), b => p.(id := Some(b)))
    else if t.f == 2 then Map(TakeBytes(t), b => p.(addrs := p.addrs + [b]))
    else Skip(p, t)
  }

  function ReservationTok(r: Reservation, t: Tok): Result<Reservation> {
    if t.f == 1 then Map(TakeVarint(t), v => r.(expire := v))
    else if t.f == 2 then Map(TakeBytes(t), b => r.(addrs := r.addrs + [b]))
    else if t.f == 3 then Map(TakeBytes(t), b => r.(voucher := Some(b)))
    else Skip(r, t)
  }

  function LimitTok(l: Limit, t: Tok): Result<Limit> {
    if t.f == 1 then Map(TakeVarint(t), v => l.(duration := ToUint32(v)))
    else if t.f == 2 then Map(TakeVarint(t), v => l.(data := v))
    else Skip(l, t)
  }

  function DecodePeer(s: seq<Byte>): Result<Peer> { Fold(PeerTok, NO_PEER, Tokens(s, 0)) }
  function DecodeReservation(s: seq<Byte>): Result<Reservation> { Fold(ReservationTok, NO_RESERVATION, Tokens(s, 0)) }
  function DecodeLimit(s: seq<Byte>): Result<Limit> { Fold(LimitTok, NO_LIMIT, Tokens(s, 0)) }

  function HopTok(m: Hop, t: Tok): Result<Hop> {
    if t.f == 1 then Map(TakeVarint(t), v => m.(kind := ToInt32(v)))
    else if t.f == 2 then Map(Then(TakeBytes(t), DecodePeer), p => m.(peer := Some(p)))
    else if t.f == 3 then Map(Then(TakeBytes(t), DecodeReservation), r => m.(reservation := Some(r)))
    else if t.f == 4 then Map(Then(TakeBytes(t), DecodeLimit), l => m.(limit := Some(l)))
    else if t.f == 5 then Map(TakeVarint(t), v => m.(status := ToInt32(v)))
    else Skip(m, t)
  }

  function StopTok(m: Stop, t: Tok): Result<Stop> {
    if t.f == 1 then Map(TakeVarint(t), v => m.(kind := ToInt32(v)))
    else if t.f == 2 then Map(Then(TakeBytes(t), DecodePeer), p => m.(peer := Some(p)))
    else if t.f == 3 then Map(Then(TakeBytes(t), DecodeLimit), l => m.(limit := Some(l)))
    else if t.f == 4 then Map(TakeVarint(t), v => m.(status := ToInt32(v)))
    else Skip(m, t)
  }

  function V1Tok(m: V1, t: Tok): Result<V1> {
    if t.f == 1 then Map(TakeVarint(t), v => m.(kind := ToInt64(v)))
    else if t.f == 2 then Map(Then(TakeBytes(t), DecodePeer), p => m.(src := Some(p)))
    else if t.f == 3 then Map(Then(TakeBytes(t), DecodePeer), p => m.(dst := Some(p)))
    else if t.f == 4 then Map(TakeVarint(t), v => m.(code := ToInt64(v)))
    else Skip(m, t)
  }

  function DecodeHop(s: seq<Byte>): Result<Hop> { Fold(HopTok, NO_HOP, Tokens(s, 0)) }
  function DecodeStop(s: seq<Byte>): Result<Stop> { Fold(StopTok, NO_STOP, Tokens(s, 0)) }
  function DecodeV1(s: seq<Byte>): Result<V1> { Fold(V1Tok, NO_V1, Tokens(s, 0)) }

  // ---------------------------------------------------------------- well-formed fields

  /** A field of wire type 0 or 2. */
  datatype Field = V(f: nat, v: Uint64) | B(f: nat, b: seq<Byte>)

  const MAX_FIELD := 0x2000_0000_0000_0000

  function EncodeField(x: Field): (s: seq<Byte>)
    ensures |s| >= 1
  {
    match x
    case V(f, v) => VarintField(f, v)
    case B(f, b) => BytesField(f, b)
  }

  function PartsOf(xs: seq<Field>): seq<seq<Byte>> {
    seq(|xs|, i requires 0 <= i < |xs| => EncodeField(xs[i]))
  }

  function EncodeFields(xs: seq<Field>): seq<Byte> {
    Concat(PartsOf(xs))
  }

  function TokOf(x: Field): Tok {
    match x
    case V(f, v) => VarintTok(f, v)
    case B(f, b) => BytesTok(f, b)
  }

  function ToksOf(xs: seq<Field>): seq<Tok> {
    seq(|xs|, i requires 0 <= i < |xs| => TokOf(xs[i]))
  }

  lemma NextVarint(f: nat, v: Uint64, rest: seq<Byte>, off: nat)
    requires f < MAX_FIELD
    ensures Next(VarintField(f, v) + rest, off) == Some((VarintTok(f, v), |VarintField(f, v)|))
  {
    var s := VarintField(f, v) + rest;
    assert s == Encode(8 * f) + (Encode(v) + rest);
    DecodeEncode(8 * f, Encode(v) + rest);
    assert s[|Encode(8 * f)|..] == Encode(v) + rest;
    DecodeEncode(v, rest);
  }

  lemma ValueBytes(f: nat, b: seq<Byte>, rest: seq<Byte>, off: nat)
    requires off + |Encode(|b|)| + |b| < TWO_63
    ensures Value(f, 2, Encode(|b|) + (b + rest), off) == (BytesTok(f, b), |Encode(|b|)| + |b|)
  {
    var k, s := |Encode(|b|)|, Encode(|b|) + (b + rest);
    DecodeEncode(|b|, b + rest);
    assert s[k..k + |b|] == b;
  }

  lemma NextBytes(f: nat, b: seq<Byte>, rest: seq<Byte>, off: nat)
    requires f < MAX_FIELD && off + |BytesField(f, b)| < TWO_63
    ensures Next(BytesField(f, b) + rest, off) == Some((BytesTok(f, b), |BytesField(f, b)|))
  {
    var s, n := BytesField(f, b) + rest, |Encode(8 * f + 2)|;
    BytesFieldThen(f, b, rest);
    DecodeEncode(8 * f + 2, Encode(|b|) + (b + rest));
    assert s[n..] == Encode(|b|) + (b + rest);
    ValueBytes(f, b, rest, off + n);
  }

  lemma BytesFieldThen(f: nat, b: seq<Byte>, rest: seq<Byte>)
    ensures BytesField(f, b) + rest == Encode(8 * f + 2) + (Encode(|b|) + (b + rest))
  {
  }

  lemma NextField(x: Field, rest: seq<Byte>, off: nat)
    requires x.f < MAX_FIELD && off + |EncodeField(x)| < TWO_63
    ensures Next(EncodeField(x) + rest, off) == Some((TokOf(x), |EncodeField(x)|))
  {
    match x
    case V(f, v) => NextVarint(f, v, rest, off);
    case B(f, b) => NextBytes(f, b, rest, off);
  }

  ghost predicate ReadAs(e: seq<Byte>, t: Tok, rest: seq<Byte>, off: nat) {
    Tokens(e + rest, off) == [t] + Tokens(rest, off + |e|)
  }

  /** The bytes `e` are read as the token `t`, whatever follows them. */
  ghost predicate IsPart(e: seq<Byte>, t: Tok) {
    forall rest, off: nat | off + |e| < TWO_63 :: ReadAs(e, t, rest, off)
  }

  lemma FieldReadAs(x: Field, rest: seq<Byte>, off: nat)
    requires x.f < MAX_FIELD && off + |EncodeField(x)| < TWO_63
    ensures ReadAs(EncodeField(x), TokOf(x), rest, off)
  {
    NextField(x, rest, off);
    DropFirst(EncodeField(x), rest);
  }

  lemma DropFirst<T>(a: seq<T>, b: seq<T>)
    ensures (a + b)[|a|..] == b
  {
  }

  lemma FieldIsPart(x: Field)
    requires x.f < MAX_FIELD
    ensures IsPart(EncodeField(x), TokOf(x))
  {
    forall rest, off: nat | off + |EncodeField(x)| < TWO_63 ensures ReadAs(EncodeField(x), TokOf(x), rest, off) {
      FieldReadAs(x, rest, off);
    }
  }

  ghost predicate AllReadAs(es: seq<Byte>, ts: seq<Tok>, rest: seq<Byte>, off: nat) {
    Tokens(es + rest, off) == ts + Tokens(rest, off + |es|)
  }

  lemma ReadNone(rest: seq<Byte>, off: nat)
    ensures AllReadAs([], [], rest, off)
  {
    assert [] + rest == rest;
    assert [] + Tokens(rest, off) == Tokens(rest, off);
  }

  lemma ReadOneMore(e: seq<Byte>, t: Tok, es: seq<Byte>, ts: seq<Tok>, rest: seq<Byte>, off: nat)
    requires ReadAs(e, t, es + rest, off) && AllReadAs(es, ts, rest, off + |e|)
    ensures AllReadAs(e + es, [t] + ts, rest, off)
  {
    Assoc(e, es, rest);
    Assoc([t], ts, Tokens(rest, off + |e| + |es|));
    assert off + |e| + |es| == off + |e + es|;
  }

  lemma {:induction false} TokensOfParts(parts: seq<seq<Byte>>, ts: seq<Tok>, rest: seq<Byte>, off: nat)
    requires |parts| == |ts| && (forall i | 0 <= i < |parts| :: IsPart(parts[i], ts[i]))
    requires off + |Concat(parts)| < TWO_63
    ensures AllReadAs(Concat(parts), ts, rest, off)
    decreases |parts|
  {
    if parts == [] {
      ReadNone(rest, off);
    } else {
      var e, es := parts[0], Concat(parts[1..]);
      TokensOfParts(parts[1..], ts[1..], rest, off + |e|);
      assert IsPart(e, ts[0]) && ReadAs(e, ts[0], es + rest, off);
      ReadOneMore(e, ts[0], es, ts[1..], rest, off);
      assert ts == [ts[0]] + ts[1..];
    }
  }

  lemma FieldsAreParts(xs: seq<Field>)
    requires forall i | 0 <= i < |xs| :: xs[i].f < MAX_FIELD
    ensures |PartsOf(xs)| == |ToksOf(xs)| && forall i | 0 <= i < |PartsOf(xs)| :: IsPart(PartsOf(xs)[i], ToksOf(xs)[i])
  {
    forall i | 0 <= i < |xs| ensures IsPart(PartsOf(xs)[i], ToksOf(xs)[i]) { FieldIsPart(xs[i]); }
  }

  /** Encoded fields come back as their tokens, and the bytes behind them are read from their end on. */
  lemma TokensOfFields(xs: seq<Field>, rest: seq<Byte>, off: nat)
    requires (forall i | 0 <= i < |xs| :: xs[i].f < MAX_FIELD) && off + |EncodeFields(xs)| < TWO_63
    ensures AllReadAs(EncodeFields(xs), ToksOf(xs), rest, off)
  {
    FieldsAreParts(xs);
    TokensOfParts(PartsOf(xs), ToksOf(xs), rest, off);
  }

  lemma TokensOfMessage(s: seq<Byte>, xs: seq<Field>)
    requires s == EncodeFields(xs) && (forall i | 0 <= i < |xs| :: xs[i].f < MAX_FIELD) && |s| < TWO_63
    ensures Tokens(s, 0) == ToksOf(xs)
  {
    TokensOfFields(xs, [], 0);
    assert s + [] == s;
    assert Tokens([], |s|) == [];
    assert ToksOf(xs) + [] == ToksOf(xs);
  }

  lemma EncodeFieldsAppend(xs: seq<Field>, ys: seq<Field>)
    ensures EncodeFields(xs + ys) == EncodeFields(xs) + EncodeFields(ys)
  {
    assert PartsOf(xs + ys) == PartsOf(xs) + PartsOf(ys);
    ConcatAppend(PartsOf(xs), PartsOf(ys));
  }

  lemma {:induction false} FoldAppend<M>(take: (M, Tok) -> Result<M>, m: M, a: seq<Tok>, b: seq<Tok>)
    ensures Fold(take, m, a + b) == Then(Fold(take, m, a), (m1: M) => Fold(take, m1, b))
    decreases |a|
  {
    if a == [] {
      assert a + b == b;
    } else {
      assert (a + b)[1..] == a[1..] + b;
      var r := take(m, a[0]);
      if r.Ok? { FoldAppend(take, r.m, a[1..], b); }
    }
  }

  lemma ToksAppend(xs: seq<Field>, ys: seq<Field>)
    ensures ToksOf(xs + ys) == ToksOf(xs) + ToksOf(ys)
  {
  }

  // ---------------------------------------------------------------- messages as lists of fields

  function OptB(f: nat, b: Option<seq<Byte>>): seq<Field> {
    if b.Some? then [B(f, b.value)] else []
  }

  function PosV(f: nat, v: int): seq<Field>
    requires v < TWO_64
  {
    if v > 0 then [V(f, v)] else []
  }

  function Bs(f: nat, items: seq<seq<Byte>>): seq<Field> {
    if items == [] then [] else [B(f, items[0])] + Bs(f, items[1..])
  }

  function PeerFields(p: Peer): seq<Field> {
    OptB(1, p.id) + Bs(2, p.addrs)
  }

  function ReservationFields(r: Reservation): seq<Field> {
    PosV(1, r.expire) + Bs(2, r.addrs) + OptB(3, r.voucher)
  }

  function LimitFields(l: Limit): seq<Field> {
    PosV(1, l.duration) + PosV(2, l.data)
  }

  function PeerF(f: nat, p: Option<Peer>): seq<Field> {
    if p.Some? then [B(f, EncodePeer(p.value))] else []
  }

  function ReservationF(f: nat, r: Option<Reservation>): seq<Field> {
    if r.Some? then [B(f, EncodeReservation(r.value))] else []
  }

  function LimitF(f: nat, l: Option<Limit>): seq<Field> {
    if l.Some? then [B(f, EncodeLimit(l.value))] else []
  }

  function HopFields(m: Hop): seq<Field> {
    [V(1, ToUint64(m.kind))] + PeerF(2, m.peer) + ReservationF(3, m.reservation) +
    LimitF(4, m.limit) + PosV(5, m.status)
  }

  function StopFields(m: Stop): seq<Field> {
    [V(1, ToUint64(m.kind))] + PeerF(2, m.peer) + LimitF(3, m.limit) + PosV(4, m.status)
  }

  function V1Fields(m: V1): seq<Field> {
    [V(1, ToUint64(m.kind))] + PeerF(2, m.src) + PeerF(3, m.dst) + PosV(4, m.code)
  }

  lemma OneField(x: Field)
    ensures EncodeFields([x]) == EncodeField(x)
  {
    assert PartsOf([x]) == [EncodeField(x)];
    ConcatOne(EncodeField(x));
  }

  lemma ConcatOne(e: seq<Byte>)
    ensures Concat([e]) == e
  {
    assert Concat([e]) == e + Concat([]);
  }

  lemma {:induction false} BsEncode(f: nat, items: seq<seq<Byte>>)
    ensures EncodeFields(Bs(f, items)) == BytesFields(f, items)
    decreases |items|
  {
    if items != [] {
      BsEncode(f, items[1..]);
      OneField(B(f, items[0]));
      EncodeFieldsAppend([B(f, items[0])], Bs(f, items[1..]));
    }
  }

  lemma OptEncode(f: nat, b: Option<seq<Byte>>)
    ensures EncodeFields(OptB(f, b)) == OptBytes(f, b)
  {
    if b.Some? { OneField(B(f, b.value)); }
  }

  lemma PosEncode(f: nat, v: int)
    requires v < TWO_64
    ensures EncodeFields(PosV(f, v)) == PosVarint(f, v)
  {
    if v > 0 { OneField(V(f, v)); }
  }

  lemma PeerEncode(f: nat, p: Option<Peer>)
    ensures EncodeFields(PeerF(f, p)) == OptPeer(f, p)
  {
    if p.Some? { OneField(B(f, EncodePeer(p.value))); }
  }

  lemma ReservationEncode(f: nat, r: Option<Reservation>)
    ensures EncodeFields(ReservationF(f, r)) == OptReservation(f, r)
  {
    if r.Some? { OneField(B(f, EncodeReservation(r.value))); }
  }

  lemma LimitEncode(f: nat, l: Option<Limit>)
    ensures EncodeFields(LimitF(f, l)) == OptLimit(f, l)
  {
    if l.Some? { OneField(B(f, EncodeLimit(l.value))); }
  }

  lemma PeerIsFields(p: Peer)
    ensures EncodePeer(p) == EncodeFields(PeerFields(p))
  {
    OptEncode(1, p.id);
    BsEncode(2, p.addrs);
    EncodeFieldsAppend(OptB(1, p.id), Bs(2, p.addrs));
  }

  lemma Append3(a: seq<Field>, b: seq<Field>, c: seq<Field>)
    ensures EncodeFields(a + b + c) == EncodeFields(a) + EncodeFields(b) + EncodeFields(c)
  {
    EncodeFieldsAppend(a + b, c);
    EncodeFieldsAppend(a, b);
  }

  lemma Append4(a: seq<Field>, b: seq<Field>, c: seq<Field>, d: seq<Field>)
    ensures EncodeFields(a + b + c + d) == EncodeFields(a) + EncodeFields(b) + EncodeFields(c) + EncodeFields(d)
  {
    EncodeFieldsAppend(a + b + c, d);
    Append3(a, b, c);
  }

  lemma ReservationIsFields(r: Reservation)
    ensures EncodeReservation(r) == EncodeFields(ReservationFields(r))
  {
    PosEncode(1, r.expire);
    BsEncode(2, r.addrs);
    OptEncode(3, r.voucher);
    Append3(PosV(1, r.expire), Bs(2, r.addrs), OptB(3, r.voucher));
  }

  lemma LimitIsFields(l: Limit)
    ensures EncodeLimit(l) == EncodeFields(LimitFields(l))
  {
    PosEncode(1, l.duration);
    PosEncode(2, l.data);
    EncodeFieldsAppend(PosV(1, l.duration), PosV(2, l.data));
  }

  lemma HopIsFields(m: Hop)
    ensures EncodeHop(m) == EncodeFields(HopFields(m))
  {
    OneField(V(1, ToUint64(m.kind)));
    PeerEncode(2, m.peer);
    ReservationEncode(3, m.reservation);
    LimitEncode(4, m.limit);
    PosEncode(5, m.status);
    var a, b, c, d, e := [V(1, ToUint64(m.kind))], PeerF(2, m.peer), ReservationF(3, m.reservation),
      LimitF(4, m.limit), PosV(5, m.status);
    Append4(a, b, c, d);
    EncodeFieldsAppend(a + b + c + d, e);
  }

  lemma StopIsFields(m: Stop)
    ensures EncodeStop(m) == EncodeFields(StopFields(m))
  {
    OneField(V(1, ToUint64(m.kind)));
    PeerEncode(2, m.peer);
    LimitEncode(3, m.limit);
    PosEncode(4, m.status);
    Append4([V(1, ToUint64(m.kind))], PeerF(2, m.peer), LimitF(3, m.limit), PosV(4, m.status));
  }

  lemma V1IsFields(m: V1)
    ensures EncodeV1(m) == EncodeFields(V1Fields(m))
  {
    OneField(V(1, ToUint64(m.kind)));
    PeerEncode(2, m.src);
    PeerEncode(3, m.dst);
    PosEncode(4, m.code);
    Append4([V(1, ToUint64(m.kind))], PeerF(2, m.src), PeerF(3, m.dst), PosV(4, m.code));
  }
}

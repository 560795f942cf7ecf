/** Peer ids: the tail of `Libp2pPeerID` (fedkey/keyring.go) against `ParsePeerID` (relayhub/relay.go). */
module PeerIds {
  import opened Bytes
  import opened Varint
  import opened CircuitPb
  import opened Base58

  /** The marshalled public key: key type and key bytes. */
  function PubProto(keyType: nat, pub: seq<Byte>): seq<Byte> {
    VarintField(1, keyType) + BytesField(2, pub)
  }

  function Multihash(code: nat, data: seq<Byte>): seq<Byte> {
    Varint.Encode(code) + Varint.Encode(|data|) + data
  }

  /** The bytes behind a peer id: short keys are kept whole, long ones hashed by `sha256`. */
  function PeerHash(keyType: nat, pub: seq<Byte>, sha256: seq<Byte> -> seq<Byte>): seq<Byte> {
    var p := PubProto(keyType, pub);
    if |p| <= 42 then Multihash(0x00, p) else Multihash(0x12, sha256(p))
  }

  /** `ParsePeerID` recovers exactly the multihash bytes behind every peer id. */
  lemma ParseRecovers(keyType: nat, pub: seq<Byte>, sha256: seq<Byte> -> seq<Byte>)
    ensures FromBase58(ToBase58(PeerHash(keyType, pub, sha256))) == Some(PeerHash(keyType, pub, sha256))
  {
    BytesBack(PeerHash(keyType, pub, sha256));
  }

  /** The bytes behind the id of a key of type `keyType`: up to 38 key bytes are kept, more are hashed. */
  function IdBytes(keyType: Byte, pub: seq<Byte>, sha256: seq<Byte> -> seq<Byte>): seq<Byte> {
    if |pub| <= 38 then [0, 4 + |pub|, 8, keyType, 18, |pub|] + pub
    else [18, 32] + sha256([8, keyType, 18] + Encode(|pub|) + pub)
  }

  lemma SmallVarint(v: nat)
    requires v < 128
    ensures Encode(v) == [v]
  {
  }

  lemma ProtoBytes(keyType: Byte, pub: seq<Byte>)
    requires keyType < 128
    ensures PubProto(keyType, pub) == [8, keyType, 18] + Encode(|pub|) + pub
    ensures |PubProto(keyType, pub)| <= 42 <==> |pub| <= 38
  {
    SmallVarint(8);
    SmallVarint(18);
    SmallVarint(keyType);
    if |pub| < 128 { SmallVarint(|pub|); }
  }

  lemma MultihashIs(code: Byte, data: seq<Byte>)
    requires code < 128 && |data| < 128
    ensures Multihash(code, data) == [code, |data|] + data
  {
    SmallVarint(code);
    SmallVarint(|data|);
  }

  lemma PeerHashIs(keyType: Byte, pub: seq<Byte>, sha256: seq<Byte> -> seq<Byte>)
    requires keyType < 128 && |sha256(PubProto(keyType, pub))| == 32
    ensures PeerHash(keyType, pub, sha256) == IdBytes(keyType, pub, sha256)
  {
    var p := PubProto(keyType, pub);
    ProtoBytes(keyType, pub);
    if |pub| <= 38 {
      SmallVarint(|pub|);
      MultihashIs(0, p);
      WholeBytes(keyType, pub);
    } else {
      MultihashIs(18, sha256(p));
    }
  }

  lemma WholeBytes(keyType: Byte, pub: seq<Byte>)
    requires |pub| <= 38
    ensures var p: seq<Byte> := [8, keyType, 18] + [|pub|] + pub;
      |p| == 4 + |pub| && [0, |p|] + p == [0, 4 + |pub|, 8, keyType, 18, |pub|] + pub
  {
  }

  /** `ParsePeerID` of the id of any key gives back these bytes: a multihash of the key or of its 32-byte digest. */
  lemma PeerIdBytes(keyType: Byte, pub: seq<Byte>, sha256: seq<Byte> -> seq<Byte>)
    requires keyType < 128 && |sha256(PubProto(keyType, pub))| == 32
    ensures FromBase58(ToBase58(PeerHash(keyType, pub, sha256))) == Some(IdBytes(keyType, pub, sha256))
  {
    ParseRecovers(keyType, pub, sha256);
    PeerHashIs(keyType, pub, sha256);
  }

  /** Two keys have one peer id exactly when they are equal, or both are hashed and the digests are equal. */
  lemma PeerIdsEqualExactly(t1: Byte, p1: seq<Byte>, t2: Byte, p2: seq<Byte>, sha256: seq<Byte> -> seq<Byte>)
    requires t1 < 128 && t2 < 128
    requires |sha256(PubProto(t1, p1))| == 32 && |sha256(PubProto(t2, p2))| == 32
    ensures ToBase58(PeerHash(t1, p1, sha256)) == ToBase58(PeerHash(t2, p2, sha256)) <==>
      || (t1 == t2 && p1 == p2)
      || (|p1| > 38 && |p2| > 38 && sha256(PubProto(t1, p1)) == sha256(PubProto(t2, p2)))
  {
    PeerIdBytes(t1, p1, sha256);
    PeerIdBytes(t2, p2, sha256);
    PeerHashIs(t1, p1, sha256);
    PeerHashIs(t2, p2, sha256);
    ProtoBytes(t1, p1);
    ProtoBytes(t2, p2);
    BytesDiffer(t1, p1, sha256(PubProto(t1, p1)), t2, p2, sha256(PubProto(t2, p2)));
  }

  lemma BytesDiffer(t1: Byte, p1: seq<Byte>, d1: seq<Byte>, t2: Byte, p2: seq<Byte>, d2: seq<Byte>)
    requires t1 == t2 && p1 == p2 ==> d1 == d2
    ensures var a := if |p1| <= 38 then [0, 4 + |p1|, 8, t1, 18, |p1|] + p1 else [18, 32] + d1;
      var b := if |p2| <= 38 then [0, 4 + |p2|, 8, t2, 18, |p2|] + p2 else [18, 32] + d2;
      a == b <==> (t1 == t2 && p1 == p2) || (|p1| > 38 && |p2| > 38 && d1 == d2)
  {
    if |p1| <= 38 && |p2| <= 38 {
      Tails([0, 4 + |p1|, 8, t1, 18, |p1|], p1, [0, 4 + |p2|, 8, t2, 18, |p2|], p2);
    } else if |p1| > 38 && |p2| > 38 {
      Tails([18, 32], d1, [18, 32], d2);
    } else {
      assert ([18, 32] + d1)[0] == 18 == ([18, 32] + d2)[0];
    }
  }

  lemma Tails(a: seq<int>, x: seq<int>, b: seq<int>, y: seq<int>)
    requires |a| == |b|
    ensures a + x == b + y <==> a == b && x == y
  {
    assert (a + x)[..|a|] == a && (a + x)[|a|..] == x && (b + y)[..|b|] == b && (b + y)[|b|..] == y;
  }

  /** Peer ids of keys that are kept whole are equal only for equal keys. */
  lemma WholeKeysDiffer(t1: Uint64, p1: seq<Byte>, t2: Uint64, p2: seq<Byte>, sha256: seq<Byte> -> seq<Byte>)
    requires |PubProto(t1, p1)| <= 42 && |PubProto(t2, p2)| <= 42
    requires ToBase58(PeerHash(t1, p1, sha256)) == ToBase58(PeerHash(t2, p2, sha256))
    ensures t1 == t2 && p1 == p2
  {
    WholeProtos(PubProto(t1, p1), PubProto(t2, p2));
    ProtoFields(t1, p1);
    ProtoFields(t2, p2);
    TwoToks(t1, p1);
    TwoToks(t2, p2);
  }

  lemma WholeProtos(a: seq<Byte>, b: seq<Byte>)
    requires |a| <= 42 && |b| <= 42 && ToBase58(Multihash(0, a)) == ToBase58(Multihash(0, b))
    ensures a == b
  {
    BytesBack(Multihash(0, a));
    BytesBack(Multihash(0, b));
    WholeMultihash(a, b);
  }

  lemma TwoToks(t: Uint64, p: seq<Byte>)
    ensures ToksOf([V(1, t), B(2, p)]) == [VarintTok(1, t), BytesTok(2, p)]
  {
  }

  lemma WholeMultihash(a: seq<Byte>, b: seq<Byte>)
    requires |a| <= 42 && |b| <= 42 && Multihash(0, a) == Multihash(0, b)
    ensures a == b
  {
    assert Multihash(0, a) == [0, |a|] + a && Multihash(0, b) == [0, |b|] + b;
    assert Multihash(0, a)[2..] == a && Multihash(0, b)[2..] == b;
  }

  lemma ProtoFields(keyType: Uint64, pub: seq<Byte>)
    requires |PubProto(keyType, pub)| <= 42
    ensures Tokens(PubProto(keyType, pub), 0) == ToksOf([V(1, keyType), B(2, pub)])
  {
    var x, y := V(1, keyType), B(2, pub);
    assert [x] + [y] == [x, y];
    EncodeFieldsAppend([x], [y]);
    OneField(x);
    OneField(y);
    TokensOfMessage(PubProto(keyType, pub), [x, y]);
  }
}

/**
 The Tox TCP secure channel between the client (go-tox-tcpclient) and the relay server
 (mintox/tcp_server.go): handshake, lock-step nonces and packet streams. The cryptographic
 primitives are parameters that obey the two laws the protocol relies on.
 */
module SecureChannel {
  import opened Bytes
  import opened Nonce
  import opened Framing

  const MAC_SIZE := 16
  const MAX_PACKET_SIZE := 2048
  const KEY_LEN := 32
  const SERVER_HANDSHAKE_SIZE := 96

  datatype Crypto = Crypto(
    pub: Key -> Key,
    dh: (Key, Key) -> Key,
    seal: (Key, Nonce24, seq<Byte>) -> seq<Byte>,
    open: (Key, Nonce24, seq<Byte>) -> Option<seq<Byte>>)

  /** Diffie-Hellman commutes, sealing adds the tag length, and opening undoes sealing. */
  ghost predicate Laws(x: Crypto) {
    && (forall a, b :: x.dh(x.pub(a), b) == x.dh(x.pub(b), a))
    && (forall k, n, m :: |x.seal(k, n, m)| == |m| + MAC_SIZE && x.open(k, n, x.seal(k, n, m)) == Some(m))
  }

  /** A toy instance, so that the laws are known to be satisfiable. */
  function Toy(): Crypto {
    Crypto(sk => sk,
           (pk: Key, sk: Key) => if BigEndian(pk) < BigEndian(sk) then pk else sk,
           (k: Key, n: Nonce24, m: seq<Byte>) => seq(MAC_SIZE, _ => 0) + m,
           (k: Key, n: Nonce24, s: seq<Byte>) => if |s| < MAC_SIZE then None else Some(s[MAC_SIZE..]))
  }

  lemma LawsAreSatisfiable()
    ensures Laws(Toy())
  {
    var x := Toy();
    forall a: Key, b: Key ensures x.dh(x.pub(a), b) == x.dh(x.pub(b), a) {
      if BigEndian(a) == BigEndian(b) { BigEndianInjective(a, b); }
    }
  }

  // ---------------------------------------------------------------- handshake

  /** The client's first packet: own key, nonce, sealed temporary key and base nonce. */
  function Hello(x: Crypto, selfPK: Key, initShr: Key, tempPK: Key, sentNonce: Nonce24, initNonce: Nonce24): seq<Byte> {
    selfPK + initNonce + x.seal(initShr, initNonce, tempPK + sentNonce)
  }

  /** The server's reply: nonce, sealed temporary key and base nonce. */
  function Reply(x: Crypto, shr: Key, tempPK: Key, sentNonce: Nonce24, tmpNonce: Nonce24): seq<Byte> {
    tmpNonce + x.seal(shr, tmpNonce, tempPK + sentNonce)
  }

  class HandshakeState {
    var serverPK: Key
    var selfPK: Key
    var selfSK: Key
    var initShr: Key
    var tempSK: Key
    var tempPK: Key
    var initNonce: Nonce24
    var sentNonce: Nonce24

    /** `newHandshakeState`. */
    constructor (x: Crypto, serverPK: Key, selfPK: Key, selfSK: Key)
      ensures this.serverPK == serverPK && this.selfPK == selfPK && this.selfSK == selfSK
      ensures initShr == x.dh(serverPK, selfSK)
    {
      this.serverPK, this.selfPK, this.selfSK := serverPK, selfPK, selfSK;
      initShr := x.dh(serverPK, selfSK);
      tempSK, tempPK := seq(KEY_LEN, _ => 0), seq(KEY_LEN, _ => 0);
      initNonce, sentNonce := seq(NONCE_SIZE, _ => 0), seq(NONCE_SIZE, _ => 0);
    }

    /** `generateClientPacket` with the random draws as parameters. */
    method GenerateClientPacket(x: Crypto, sk: Key, sn: Nonce24, in': Nonce24) returns (pkt: seq<Byte>)
      modifies this`tempSK, this`tempPK, this`sentNonce, this`initNonce
      ensures tempSK == sk && tempPK == x.pub(sk) && sentNonce == sn && initNonce == in'
      ensures pkt == Hello(x, selfPK, initShr, x.pub(sk), sn, in')
    {
      tempPK, tempSK := x.pub(sk), sk;
      sentNonce, initNonce := sn, in';
      var plain := tempPK + sentNonce;
      var enc := x.seal(initShr, in', plain);
      pkt := selfPK + initNonce + enc;
    }

    /** `handleServerResponse`: the session key and the server's base nonce, or an error. */
    method HandleServerResponse(x: Crypto, resp: seq<Byte>) returns (r: Option<(Key, Nonce24)>)
      ensures r == ClientFinish(x, initShr, tempSK, resp)
    {
      if |resp| < SERVER_HANDSHAKE_SIZE {
        return None;
      }
      var tmpNonce := resp[..NONCE_SIZE];
      var plain := x.open(initShr, tmpNonce, resp[NONCE_SIZE..SERVER_HANDSHAKE_SIZE]);
      if plain.None? || |plain.value| != KEY_LEN + NONCE_SIZE {
        return None;
      }
      var servTempPK: Key, recvNonce: Nonce24 := plain.value[..KEY_LEN], plain.value[KEY_LEN..];
      return Some((x.dh(servTempPK, tempSK), recvNonce));
    }
  }

  function ClientFinish(x: Crypto, initShr: Key, tempSK: Key, resp: seq<Byte>): Option<(Key, Nonce24)> {
    if |resp| < SERVER_HANDSHAKE_SIZE then None
    else
      match x.open(initShr, resp[..NONCE_SIZE], resp[NONCE_SIZE..SERVER_HANDSHAKE_SIZE])
      case None => None
      case Some(plain) =>
        if |plain| != KEY_LEN + NONCE_SIZE then None else Some((x.dh(plain[..KEY_LEN], tempSK), plain[KEY_LEN..]))
  }

  /** The server side of one connection after `HandleHandshake`. */
  datatype Session = Session(pubkey: Key, shrkey: Key, recvNonce: Nonce24, sentNonce: Nonce24)

  class ServerConn {
    const seckey: Key
    var pubkey: Key
    var shrkey: Key
    var recvNonce: Nonce24
    var sentNonce: Nonce24

    constructor (seckey: Key)
      ensures this.seckey == seckey
    {
      this.seckey := seckey;
      pubkey, shrkey := seq(KEY_LEN, _ => 0), seq(KEY_LEN, _ => 0);
      recvNonce, sentNonce := seq(NONCE_SIZE, _ => 0), seq(NONCE_SIZE, _ => 0);
    }

    ghost function View(): Session
      reads this
    {
      Session(pubkey, shrkey, recvNonce, sentNonce)
    }

    /** `HandleHandshake` with the random draws as parameters; None stands for a panic. */
    method HandleHandshake(x: Crypto, rdbuf: seq<Byte>, tmpSK: Key, sn: Nonce24, tmpNonce: Nonce24)
      returns (r: Option<seq<Byte>>)
      requires |rdbuf| == HANDSHAKE_SIZE
      modifies this
      ensures var a := ServerAccept(x, seckey, rdbuf, tmpSK, sn, tmpNonce);
        match a
        case None => r == None
        case Some((session, reply)) => r == Some(reply) && View() == session
    {
      var cliPubkey: Key := rdbuf[..KEY_LEN];
      var cliTmpNonce: Nonce24 := rdbuf[KEY_LEN..KEY_LEN + NONCE_SIZE];
      var shr := x.dh(cliPubkey, seckey);
      pubkey := cliPubkey;
      var plain := x.open(shr, cliTmpNonce, rdbuf[KEY_LEN + NONCE_SIZE..]);
      if plain.None? || |plain.value| != KEY_LEN + NONCE_SIZE {
        return None;
      }
      var hstmppk: Key := plain.value[..KEY_LEN];
      recvNonce := plain.value[KEY_LEN..];
      sentNonce := sn;
      shrkey := x.dh(hstmppk, tmpSK);
      r := Some(Reply(x, shr, x.pub(tmpSK), sentNonce, tmpNonce));
    }
  }

  function ServerAccept(x: Crypto, seckey: Key, rdbuf: seq<Byte>, tmpSK: Key, sn: Nonce24,
    tmpNonce: Nonce24): Option<(Session, seq<Byte>)>
    requires |rdbuf| == HANDSHAKE_SIZE
  {
    var cliPubkey: Key := rdbuf[..KEY_LEN];
    var shr := x.dh(cliPubkey, seckey);
    match x.open(shr, rdbuf[KEY_LEN..KEY_LEN + NONCE_SIZE], rdbuf[KEY_LEN + NONCE_SIZE..])
    case None => None
    case Some(plain) =>
      if |plain| != KEY_LEN + NONCE_SIZE then None
      else Some((Session(cliPubkey, x.dh(plain[..KEY_LEN], tmpSK), plain[KEY_LEN..], sn),
        Reply(x, shr, x.pub(tmpSK), sn, tmpNonce)))
  }

  lemma HelloFields(x: Crypto, selfPK: Key, initShr: Key, tempPK: Key, sentNonce: Nonce24, initNonce: Nonce24)
    requires Laws(x)
    ensures var h := Hello(x, selfPK, initShr, tempPK, sentNonce, initNonce);
      && |h| == HANDSHAKE_SIZE
      && h[..KEY_LEN] == selfPK && h[KEY_LEN..KEY_LEN + NONCE_SIZE] == initNonce
      && h[KEY_LEN + NONCE_SIZE..] == x.seal(initShr, initNonce, tempPK + sentNonce)
  {
  }

  lemma PlainFields(pk: Key, n: Nonce24)
    ensures |pk + n| == KEY_LEN + NONCE_SIZE && (pk + n)[..KEY_LEN] == pk && (pk + n)[KEY_LEN..] == n
  {
  }

  lemma ReplyFields(x: Crypto, shr: Key, tempPK: Key, sentNonce: Nonce24, tmpNonce: Nonce24)
    requires Laws(x)
    ensures var r := Reply(x, shr, tempPK, sentNonce, tmpNonce);
      && |r| == SERVER_HANDSHAKE_SIZE
      && r[..NONCE_SIZE] == tmpNonce
      && r[NONCE_SIZE..SERVER_HANDSHAKE_SIZE] == x.seal(shr, tmpNonce, tempPK + sentNonce)
  {
  }

  /** The layout of the 128 bytes of the client and of the 96 bytes of the server. */
  lemma HandshakeLayout(x: Crypto, pk: Key, shr: Key, tempPK: Key, sn: Nonce24, nonce: Nonce24)
    requires Laws(x)
    ensures var h := Hello(x, pk, shr, tempPK, sn, nonce);
      && |h| == 128 && h[..32] == pk && h[32..56] == nonce && x.open(shr, nonce, h[56..128]) == Some(tempPK + sn)
    ensures var r := Reply(x, shr, tempPK, sn, nonce);
      && |r| == 96 && r[..24] == nonce && x.open(shr, nonce, r[24..96]) == Some(tempPK + sn)
  {
    HelloFields(x, pk, shr, tempPK, sn, nonce);
    ReplyFields(x, shr, tempPK, sn, nonce);
    var h := Hello(x, pk, shr, tempPK, sn, nonce);
    assert h[56..128] == h[56..] == x.seal(shr, nonce, tempPK + sn);
  }

  /**
   The two handshake codes agree: for all keys and draws both succeed, the server learns the
   client's key, both hold the key of the two temporary keys as session key, and each one's send
   nonce is the other's receive nonce.
   */
  lemma HandshakeAgrees(x: Crypto, serverSK: Key, clientSK: Key,
                        cliTempSK: Key, cliNonce: Nonce24, cliInit: Nonce24,
                        srvTempSK: Key, srvNonce: Nonce24, srvTmp: Nonce24)
    requires Laws(x)
    ensures var initShr := x.dh(x.pub(serverSK), clientSK);
      var hello := Hello(x, x.pub(clientSK), initShr, x.pub(cliTempSK), cliNonce, cliInit);
      && |hello| == HANDSHAKE_SIZE
      && var a := ServerAccept(x, serverSK, hello, srvTempSK, srvNonce, srvTmp);
      && a.Some?
      && var (session, reply) := a.value;
      && session.pubkey == x.pub(clientSK) && session.recvNonce == cliNonce && session.sentNonce == srvNonce
      && session.shrkey == x.dh(x.pub(cliTempSK), srvTempSK)
      && reply == Reply(x, initShr, x.pub(srvTempSK), srvNonce, srvTmp)
      && ClientFinish(x, initShr, cliTempSK, reply) == Some((session.shrkey, srvNonce))
  {
    var initShr := x.dh(x.pub(serverSK), clientSK);
    HelloFields(x, x.pub(clientSK), initShr, x.pub(cliTempSK), cliNonce, cliInit);
    PlainFields(x.pub(cliTempSK), cliNonce);
    PlainFields(x.pub(srvTempSK), srvNonce);
    assert x.dh(x.pub(clientSK), serverSK) == initShr;
    ReplyFields(x, initShr, x.pub(srvTempSK), srvNonce, srvTmp);
    assert x.dh(x.pub(srvTempSK), cliTempSK) == x.dh(x.pub(cliTempSK), srvTempSK);
  }
}

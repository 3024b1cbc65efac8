/**
The mutual handshake of server/handshake.py and client/handshake.py, each side as an automaton
over the messages it receives.
*/
module Handshake {
  import opened Wrappers
  import opened Crypto

  const NONCE_BYTES := 16
  const PRE_MASTER_BYTES := 32

  /** common/transcript.py: SHA-256 of client nonce, server nonce and encrypted pre-master. */
  function TranscriptHash(nonceC: Bytes, nonceS: Bytes, ct: Bytes): Bytes {
    [Sha(nonceC + nonceS + ct)]
  }

  lemma {:induction false} WidthOfConcat(a: Bytes, b: Bytes)
    ensures Width(a + b) == Width(a) + Width(b)
  {
    if a == [] {
      assert a + b == b;
    } else {
      WidthOfConcat(a[1..], b);
      assert (a + b)[1..] == a[1..] + b;
    }
  }

  lemma {:induction false} WidthPositive(b: Bytes)
    ensures Width(b) >= |b|
  {
    if b != [] {
      WidthPositive(b[1..]);
    }
  }

  lemma HeadWidth(a: Bytes, b: Bytes)
    requires a <= b && Width(a) == Width(b)
    ensures a == b
  {
    assert b == a + b[|a|..];
    WidthOfConcat(a, b[|a|..]);
    WidthPositive(b[|a|..]);
  }

  /** Two equally wide heads of one byte string are the same head. */
  lemma EqualWidthsSplit(a: Bytes, x: Bytes, b: Bytes, y: Bytes)
    requires a + x == b + y && Width(a) == Width(b)
    ensures a == b && x == y
  {
    var t := a + x;
    assert t == b + y;
    assert a == t[..|a|] && b == t[..|b|];
    if |a| <= |b| {
      HeadWidth(a, b);
    } else {
      HeadWidth(b, a);
    }
    assert x == t[|a|..] && y == t[|b|..];
  }

  /** Nonces of fixed width make the transcript name all three parts. */
  lemma TranscriptInjective(nonceC: Bytes, nonceS: Bytes, ct: Bytes, nonceC': Bytes, nonceS': Bytes, ct': Bytes)
    requires Width(nonceC) == Width(nonceC') == Width(nonceS) == Width(nonceS') == NONCE_BYTES
    ensures TranscriptHash(nonceC, nonceS, ct) == TranscriptHash(nonceC', nonceS', ct')
            <==> nonceC == nonceC' && nonceS == nonceS' && ct == ct'
  {
    if TranscriptHash(nonceC, nonceS, ct) == TranscriptHash(nonceC', nonceS', ct') {
      assert nonceC + (nonceS + ct) == nonceC + nonceS + ct == nonceC' + nonceS' + ct' == nonceC' + (nonceS' + ct');
      EqualWidthsSplit(nonceC, nonceS + ct, nonceC', nonceS' + ct');
      EqualWidthsSplit(nonceS, ct, nonceS', ct');
    }
  }

  /** A validated envelope of the handshake, or what receiving one can turn into: Garbage stands
      for a framing or envelope error, None for a field that is missing or not base64. */
  datatype Msg =
    | Hello(cert: Cert, nonce: Option<Bytes>)
    | HelloWithout                       // no cert or no nonce in the payload
    | KeyExchange(ct: Option<Bytes>)
    | AuthResponse(signature: Option<Bytes>)
    | SessionOk(proof: Option<Bytes>)
    | AuthFailed
    | OtherMessage
    | Garbage

  datatype Keys = Keys(c2s: Bytes, s2c: Bytes)

  function DeriveKeys(preMaster: Bytes, nonceC: Bytes, nonceS: Bytes): Keys {
    Keys([Hkdf(preMaster, nonceC + nonceS, 0)], [Hkdf(preMaster, nonceC + nonceS, 1)])
  }

  /** The dictionary that both sides return. */
  datatype Established = Established(peerSubject: string, peerCert: Cert, keys: Keys, transcript: Bytes)

  datatype Identity = Identity(cert: Cert, key: Key)

  datatype Failure = AuthError | ProtocolError

  /** What a run has put on record: both nonces, the encrypted and the plain pre-master, and the
      server key it was encrypted for. */
  datatype Exchange = Exchange(nonceC: Bytes, nonceS: Bytes, ct: Bytes, preMaster: Bytes, serverKey: Key)

  function Transcript(x: Exchange): Bytes {
    TranscriptHash(x.nonceC, x.nonceS, x.ct)
  }

  function KeysOf(x: Exchange): Keys {
    DeriveKeys(x.preMaster, x.nonceC, x.nonceS)
  }

  // ---------- Server ----------

  datatype ServerState =
    | AwaitHello
    | AwaitKeyExchange(client: Cert, nonceC: Bytes, nonceS: Bytes)
    | AwaitAuth(client: Cert, x: Exchange)
    | ServerDone(x: Exchange, session: Established)
    | ServerFailed

  datatype ServerMove = ServerMove(state: ServerState, out: seq<Msg>)

  const Refuse := ServerMove(ServerFailed, [AuthFailed])

  function OnClientHello(me: Identity, ca: Key, m: Msg, now: int, nonceS: Bytes): ServerMove {
    if !m.Hello? || m.nonce.None? || Width(m.nonce.value) != NONCE_BYTES || !VerifyCertificate(m.cert, ca, now, None)
    then Refuse
    else ServerMove(AwaitKeyExchange(m.cert, m.nonce.value, nonceS), [Hello(me.cert, Some(nonceS))])
  }

  function OnKeyExchange(me: Identity, client: Cert, nonceC: Bytes, nonceS: Bytes, m: Msg): ServerMove {
    if !m.KeyExchange? || m.ct.None? then Refuse
    else match OaepDecrypt(me.key, m.ct.value)
      case None => Refuse
      case Some(preMaster) =>
        if Width(preMaster) != PRE_MASTER_BYTES then Refuse
        else ServerMove(AwaitAuth(client, Exchange(nonceC, nonceS, m.ct.value, preMaster, me.key)), [])
  }

  function OnAuthResponse(me: Identity, client: Cert, x: Exchange, m: Msg, salt: nat): ServerMove
    requires client.Cert?
  {
    if !m.AuthResponse? || m.signature.None?
       || !RsaVerify(client.claims.key, TranscriptBody(Transcript(x)), m.signature.value)
    then Refuse
    else ServerMove(ServerDone(x, Established(client.claims.subject, client, KeysOf(x), Transcript(x))),
                    [SessionOk(Some(RsaSign(me.key, TranscriptBody(Transcript(x)), salt)))])
  }

  predicate ServerEnded(st: ServerState) {
    st.ServerDone? || st.ServerFailed?
  }

  function ServerStep(me: Identity, ca: Key, st: ServerState, m: Msg, now: int, nonceS: Bytes, salt: nat): ServerMove {
    match st
    case AwaitHello => OnClientHello(me, ca, m, now, nonceS)
    case AwaitKeyExchange(client, nonceC, ns) => OnKeyExchange(me, client, nonceC, ns, m)
    case AwaitAuth(client, x) => if client.Cert? then OnAuthResponse(me, client, x, m, salt) else Refuse
    case _ => ServerMove(st, [])
  }

  // ---------- Client ----------

  datatype ClientState =
    | AwaitServerHello(nonceC: Bytes)
    | AwaitSessionOk(server: Cert, x: Exchange)
    | ClientDone(x: Exchange, session: Established)
    | ClientFailed(failure: Failure)

  datatype ClientMove = ClientMove(state: ClientState, out: seq<Msg>)

  /** The client's first message. */
  function ClientHello(me: Identity, nonceC: Bytes): Msg {
    Hello(me.cert, Some(nonceC))
  }

  /** The certificate is checked before the pre-master leaves the client. */
  function OnServerHello(me: Identity, ca: Key, expected: Option<string>, nonceC: Bytes, m: Msg, now: int,
                         preMaster: Bytes, coin: nat, salt: nat): ClientMove {
    if m.Garbage? then ClientMove(ClientFailed(ProtocolError), [])
    else if m.HelloWithout? then ClientMove(ClientFailed(ProtocolError), [])
    else if !m.Hello? then ClientMove(ClientFailed(AuthError), [])
    else if m.nonce.None? || Width(m.nonce.value) != NONCE_BYTES then ClientMove(ClientFailed(ProtocolError), [])
    else if !VerifyCertificate(m.cert, ca, now, expected) then ClientMove(ClientFailed(AuthError), [])
    else
      var x := Exchange(nonceC, m.nonce.value, OaepEncrypt(m.cert.claims.key, preMaster, coin), preMaster, m.cert.claims.key);
      ClientMove(AwaitSessionOk(m.cert, x),
                 [KeyExchange(Some(x.ct)), AuthResponse(Some(RsaSign(me.key, TranscriptBody(Transcript(x)), salt)))])
  }

  function OnSessionOk(server: Cert, x: Exchange, m: Msg): ClientMove
    requires server.Cert?
  {
    if !m.SessionOk? then ClientMove(ClientFailed(AuthError), [])
    else if m.proof.None? then ClientMove(ClientFailed(ProtocolError), [])
    else if !RsaVerify(server.claims.key, TranscriptBody(Transcript(x)), m.proof.value)
    then ClientMove(ClientFailed(AuthError), [])
    else ClientMove(ClientDone(x, Established(server.claims.subject, server, KeysOf(x), Transcript(x))), [])
  }

  predicate ClientEnded(st: ClientState) {
    st.ClientDone? || st.ClientFailed?
  }

  function ClientStep(me: Identity, ca: Key, expected: Option<string>, st: ClientState, m: Msg, now: int,
                      preMaster: Bytes, coin: nat, salt: nat): ClientMove {
    match st
    case AwaitServerHello(nonceC) => OnServerHello(me, ca, expected, nonceC, m, now, preMaster, coin, salt)
    case AwaitSessionOk(server, x) => if server.Cert? then OnSessionOk(server, x, m) else ClientMove(ClientFailed(AuthError), [])
    case _ => ClientMove(st, [])
  }

  // ---------- The two procedures on a socket ----------

  /** A connected socket: messages still to be received, and messages sent. */
  class Socket {
    var inbox: seq<Msg>
    var outbox: seq<Msg>

    constructor (inbox: seq<Msg>)
      ensures this.inbox == inbox && outbox == []
    {
      this.inbox, outbox := inbox, [];
    }

    /** A closed connection reads as an error. */
    method Receive() returns (m: Msg)
      modifies this`inbox
      ensures m == Head(old(inbox)) && inbox == Tail(old(inbox))
    {
      if inbox == [] {
        return Garbage;
      }
      m, inbox := inbox[0], inbox[1..];
    }

    method Send(m: Msg)
      modifies this`outbox
      ensures outbox == old(outbox) + [m]
    {
      outbox := outbox + [m];
    }

    method SendAll(ms: seq<Msg>)
      modifies this`outbox
      ensures outbox == old(outbox) + ms
    {
      outbox := outbox + ms;
    }
  }

  function Head(inbox: seq<Msg>): Msg {
    if inbox == [] then Garbage else inbox[0]
  }

  function Tail(inbox: seq<Msg>): seq<Msg> {
    if inbox == [] then [] else inbox[1..]
  }

  datatype ServerTalk = ServerTalk(state: ServerState, out: seq<Msg>, rest: seq<Msg>)

  /** The automaton fed from an inbox until it ends. */
  function ServerConversation(me: Identity, ca: Key, st: ServerState, inbox: seq<Msg>, now: int, nonceS: Bytes, salt: nat): ServerTalk
    decreases if st.AwaitHello? then 3 else if st.AwaitKeyExchange? then 2 else if st.AwaitAuth? then 1 else 0
  {
    if ServerEnded(st) then ServerTalk(st, [], inbox) else
      var move := ServerStep(me, ca, st, Head(inbox), now, nonceS, salt);
      var later := ServerConversation(me, ca, move.state, Tail(inbox), now, nonceS, salt);
      later.(out := move.out + later.out)
  }

  lemma ServerTalks(me: Identity, ca: Key, st: ServerState, inbox: seq<Msg>, now: int, nonceS: Bytes, salt: nat)
    requires !ServerEnded(st)
    ensures var move := ServerStep(me, ca, st, Head(inbox), now, nonceS, salt);
            var later := ServerConversation(me, ca, move.state, Tail(inbox), now, nonceS, salt);
            && ServerConversation(me, ca, st, inbox, now, nonceS, salt) == ServerTalk(later.state, move.out + later.out, later.rest)
            && (ServerEnded(move.state) ==> later == ServerTalk(move.state, [], Tail(inbox)))
  {
  }

  datatype ClientTalk = ClientTalk(state: ClientState, out: seq<Msg>, rest: seq<Msg>)

  function ClientConversation(me: Identity, ca: Key, expected: Option<string>, st: ClientState, inbox: seq<Msg>, now: int,
                              preMaster: Bytes, coin: nat, salt: nat): ClientTalk
    decreases if st.AwaitServerHello? then 2 else if st.AwaitSessionOk? then 1 else 0
  {
    if ClientEnded(st) then ClientTalk(st, [], inbox) else
      var move := ClientStep(me, ca, expected, st, Head(inbox), now, preMaster, coin, salt);
      var later := ClientConversation(me, ca, expected, move.state, Tail(inbox), now, preMaster, coin, salt);
      later.(out := move.out + later.out)
  }

  lemma ClientTalks(me: Identity, ca: Key, expected: Option<string>, st: ClientState, inbox: seq<Msg>, now: int,
                    preMaster: Bytes, coin: nat, salt: nat)
    requires !ClientEnded(st)
    ensures var move := ClientStep(me, ca, expected, st, Head(inbox), now, preMaster, coin, salt);
            var later := ClientConversation(me, ca, expected, move.state, Tail(inbox), now, preMaster, coin, salt);
            && ClientConversation(me, ca, expected, st, inbox, now, preMaster, coin, salt)
               == ClientTalk(later.state, move.out + later.out, later.rest)
            && (ClientEnded(move.state) ==> later == ClientTalk(move.state, [], Tail(inbox)))
  {
  }

  function ServerResult(st: ServerState): Result<Established, Failure> {
    if st.ServerDone? then Ok(st.session) else Err(AuthError)
  }

  function ClientResult(st: ClientState): Result<Established, Failure>
    requires ClientEnded(st)
  {
    match st
    case ClientDone(_, session) => Ok(session)
    case ClientFailed(failure) => Err(failure)
  }

  /** perform_server_handshake: any failure sends AUTH_FAILED and returns no key material. */
  method PerformServerHandshake(sock: Socket, me: Identity, ca: Key, now: int, nonceS: Bytes, salt: nat)
    returns (r: Result<Established, Failure>)
    modifies sock
    ensures var talk := ServerConversation(me, ca, AwaitHello, old(sock.inbox), now, nonceS, salt);
            r == ServerResult(talk.state) && sock.outbox == old(sock.outbox) + talk.out && sock.inbox == talk.rest
  {
    ServerTalks(me, ca, AwaitHello, sock.inbox, now, nonceS, salt);
    var hello := sock.Receive();
    if !hello.Hello? || hello.nonce.None? || Width(hello.nonce.value) != NONCE_BYTES {
      sock.Send(AuthFailed);
      return Err(AuthError);
    }
    var nonceC, client := hello.nonce.value, hello.cert;
    if !VerifyCertificate(client, ca, now, None) {
      sock.Send(AuthFailed);
      return Err(AuthError);
    }
    sock.Send(Hello(me.cert, Some(nonceS)));

    ServerTalks(me, ca, AwaitKeyExchange(client, nonceC, nonceS), sock.inbox, now, nonceS, salt);
    var keyExchange := sock.Receive();
    if !keyExchange.KeyExchange? || keyExchange.ct.None? {
      sock.Send(AuthFailed);
      return Err(AuthError);
    }
    var ct := keyExchange.ct.value;
    var preMaster := OaepDecrypt(me.key, ct);
    if preMaster.None? || Width(preMaster.value) != PRE_MASTER_BYTES {
      sock.Send(AuthFailed);
      return Err(AuthError);
    }
    var transcript := TranscriptHash(nonceC, nonceS, ct);

    ServerTalks(me, ca, AwaitAuth(client, Exchange(nonceC, nonceS, ct, preMaster.value, me.key)), sock.inbox, now, nonceS, salt);
    var response := sock.Receive();
    if !response.AuthResponse? || response.signature.None?
       || !RsaVerify(client.claims.key, TranscriptBody(transcript), response.signature.value) {
      sock.Send(AuthFailed);
      return Err(AuthError);
    }
    var keys := DeriveKeys(preMaster.value, nonceC, nonceS);
    sock.Send(SessionOk(Some(RsaSign(me.key, TranscriptBody(transcript), salt))));
    return Ok(Established(client.claims.subject, client, keys, transcript));
  }

  /** perform_client_handshake: nothing after the first message is sent before the server's
      certificate has verified. */
  method PerformClientHandshake(sock: Socket, me: Identity, ca: Key, expected: Option<string>, now: int,
                                nonceC: Bytes, preMaster: Bytes, coin: nat, salt: nat)
    returns (r: Result<Established, Failure>)
    modifies sock
    ensures var talk := ClientConversation(me, ca, expected, AwaitServerHello(nonceC), old(sock.inbox), now, preMaster, coin, salt);
            && ClientEnded(talk.state) && r == ClientResult(talk.state)
            && sock.outbox == old(sock.outbox) + [ClientHello(me, nonceC)] + talk.out && sock.inbox == talk.rest
  {
    sock.Send(ClientHello(me, nonceC));

    ClientTalks(me, ca, expected, AwaitServerHello(nonceC), sock.inbox, now, preMaster, coin, salt);
    var hello := sock.Receive();
    if hello.Garbage? || hello.HelloWithout? {
      return Err(ProtocolError);
    }
    if !hello.Hello? {
      return Err(AuthError);
    }
    if hello.nonce.None? || Width(hello.nonce.value) != NONCE_BYTES {
      return Err(ProtocolError);
    }
    var nonceS, server := hello.nonce.value, hello.cert;
    if !VerifyCertificate(server, ca, now, expected) {
      return Err(AuthError);
    }
    var ct := OaepEncrypt(server.claims.key, preMaster, coin);
    sock.Send(KeyExchange(Some(ct)));
    var transcript := TranscriptHash(nonceC, nonceS, ct);
    sock.Send(AuthResponse(Some(RsaSign(me.key, TranscriptBody(transcript), salt))));

    ClientTalks(me, ca, expected, AwaitSessionOk(server, Exchange(nonceC, nonceS, ct, preMaster, server.claims.key)),
                sock.inbox, now, preMaster, coin, salt);
    var ok := sock.Receive();
    if !ok.SessionOk? {
      return Err(AuthError);
    }
    if ok.proof.None? {
      return Err(ProtocolError);
    }
    if !RsaVerify(server.claims.key, TranscriptBody(transcript), ok.proof.value) {
      return Err(AuthError);
    }
    return Ok(Established(server.claims.subject, server, DeriveKeys(preMaster, nonceC, nonceS), transcript));
  }

  /** Two honest sides over a faithful network finish with the same keys and transcript, each knowing
      the other's certificate. */
  lemma HonestHandshakeAgrees(client: Identity, server: Identity, ca: Key, expected: Option<string>, now: int, now': int,
                              nonceC: Bytes, nonceS: Bytes, preMaster: Bytes, coin: nat, salt: nat, salt': nat)
    requires VerifyCertificate(client.cert, ca, now', None) && client.cert.claims.key == client.key
    requires VerifyCertificate(server.cert, ca, now, expected) && server.cert.claims.key == server.key
    requires Width(nonceC) == Width(nonceS) == NONCE_BYTES && Width(preMaster) == PRE_MASTER_BYTES
    ensures var reply := ClientConversation(client, ca, expected, AwaitServerHello(nonceC), [Hello(server.cert, Some(nonceS))],
                                            now, preMaster, coin, salt);
            var s := ServerConversation(server, ca, AwaitHello, [ClientHello(client, nonceC)] + reply.out, now', nonceS, salt');
            var c := ClientConversation(client, ca, expected, AwaitServerHello(nonceC), s.out, now, preMaster, coin, salt);
            && s.state.ServerDone? && c.state.ClientDone?
            && s.state.session.keys == c.state.session.keys && s.state.session.transcript == c.state.session.transcript
            && s.state.session.peerCert == client.cert && c.state.session.peerCert == server.cert
  {
    var x := Exchange(nonceC, nonceS, OaepEncrypt(server.key, preMaster, coin), preMaster, server.key);
    var kex, auth := KeyExchange(Some(x.ct)), AuthResponse(Some(RsaSign(client.key, TranscriptBody(Transcript(x)), salt)));
    var hello, ok := Hello(server.cert, Some(nonceS)), SessionOk(Some(RsaSign(server.key, TranscriptBody(Transcript(x)), salt')));
    ClientSends(client, ca, expected, server, now, x, coin, salt);
    ServerAnswers(client, server, ca, now', x, salt, salt');
    assert [ClientHello(client, nonceC)] + [kex, auth] == [ClientHello(client, nonceC), kex, auth];
    ClientFinishes(client, ca, expected, server, now, x, coin, salt, ok);
  }

  lemma ServerAnswers(client: Identity, server: Identity, ca: Key, now: int, x: Exchange, salt: nat, salt': nat)
    requires VerifyCertificate(client.cert, ca, now, None) && client.cert.claims.key == client.key
    requires Width(x.nonceC) == NONCE_BYTES && Width(x.preMaster) == PRE_MASTER_BYTES
    requires OaepDecrypt(server.key, x.ct) == Some(x.preMaster) && x.serverKey == server.key
    ensures var inbox := [ClientHello(client, x.nonceC), KeyExchange(Some(x.ct)),
                          AuthResponse(Some(RsaSign(client.key, TranscriptBody(Transcript(x)), salt)))];
            var talk := ServerConversation(server, ca, AwaitHello, inbox, now, x.nonceS, salt');
            && talk.state == ServerDone(x, Established(client.cert.claims.subject, client.cert, KeysOf(x), Transcript(x)))
            && talk.out == [Hello(server.cert, Some(x.nonceS)), SessionOk(Some(RsaSign(server.key, TranscriptBody(Transcript(x)), salt')))]
  {
    var kex, auth := KeyExchange(Some(x.ct)), AuthResponse(Some(RsaSign(client.key, TranscriptBody(Transcript(x)), salt)));
    var inbox := [ClientHello(client, x.nonceC), kex, auth];
    assert Tail(inbox) == [kex, auth] && Tail([kex, auth]) == [auth];
    ServerTalks(server, ca, AwaitHello, inbox, now, x.nonceS, salt');
    ServerTalks(server, ca, AwaitKeyExchange(client.cert, x.nonceC, x.nonceS), [kex, auth], now, x.nonceS, salt');
    ServerTalks(server, ca, AwaitAuth(client.cert, x), [auth], now, x.nonceS, salt');
  }

  lemma ClientFinishes(client: Identity, ca: Key, expected: Option<string>, server: Identity, now: int, x: Exchange, coin: nat,
                       salt: nat, ok: Msg)
    requires VerifyCertificate(server.cert, ca, now, expected) && server.cert.claims.key == server.key && Width(x.nonceS) == NONCE_BYTES
    requires x.ct == OaepEncrypt(server.key, x.preMaster, coin) && x.serverKey == server.key
    requires ok.SessionOk? && ok.proof.Some? && RsaVerify(server.key, TranscriptBody(Transcript(x)), ok.proof.value)
    ensures ClientConversation(client, ca, expected, AwaitServerHello(x.nonceC), [Hello(server.cert, Some(x.nonceS)), ok], now,
                               x.preMaster, coin, salt).state
            == ClientDone(x, Established(server.cert.claims.subject, server.cert, KeysOf(x), Transcript(x)))
  {
    var inbox := [Hello(server.cert, Some(x.nonceS)), ok];
    assert Tail(inbox) == [ok];
    ClientTalks(client, ca, expected, AwaitServerHello(x.nonceC), inbox, now, x.preMaster, coin, salt);
    ClientTalks(client, ca, expected, AwaitSessionOk(server.cert, x), [ok], now, x.preMaster, coin, salt);
  }

  /** The client's two messages after a good server hello do not depend on what follows it. */
  lemma ClientSends(client: Identity, ca: Key, expected: Option<string>, server: Identity, now: int, x: Exchange, coin: nat, salt: nat)
    requires VerifyCertificate(server.cert, ca, now, expected) && server.cert.claims.key == server.key && Width(x.nonceS) == NONCE_BYTES
    requires x.ct == OaepEncrypt(server.key, x.preMaster, coin) && x.serverKey == server.key
    ensures ClientConversation(client, ca, expected, AwaitServerHello(x.nonceC), [Hello(server.cert, Some(x.nonceS))], now,
                               x.preMaster, coin, salt).out
            == [KeyExchange(Some(x.ct)), AuthResponse(Some(RsaSign(client.key, TranscriptBody(Transcript(x)), salt)))]
  {
    var inbox := [Hello(server.cert, Some(x.nonceS))];
    ClientTalks(client, ca, expected, AwaitServerHello(x.nonceC), inbox, now, x.preMaster, coin, salt);
    ClientTalks(client, ca, expected, AwaitSessionOk(server.cert, x), Tail(inbox), now, x.preMaster, coin, salt);
  }
}

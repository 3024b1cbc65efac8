/** When each side of the handshake succeeds, what it then holds, and what a failure looks like. */
module HandshakeOutcomes {
  import opened Wrappers
  import opened Crypto
  import opened Handshake

  // ---------- Server ----------

  predicate GoodHello(m: Msg, ca: Key, now: int, expected: Option<string>) {
    m.Hello? && m.nonce.Some? && Width(m.nonce.value) == 16 && VerifyCertificate(m.cert, ca, now, expected)
  }

  predicate GoodKeyExchange(me: Identity, m: Msg) {
    && m.KeyExchange? && m.ct.Some?
    && OaepDecrypt(me.key, m.ct.value).Some? && Width(OaepDecrypt(me.key, m.ct.value).value) == 32
  }

  /** A hello under a certificate in date, a pre-master of 32 bytes for this server, and a signature
      of the certificate's key over the digest of both nonces and the ciphertext. */
  predicate ProvesClient(me: Identity, ca: Key, inbox: seq<Msg>, now: int, nonceS: Bytes) {
    && |inbox| >= 3 && GoodHello(inbox[0], ca, now, None) && GoodKeyExchange(me, inbox[1])
    && inbox[2].AuthResponse? && inbox[2].signature.Some?
    && RsaVerify(inbox[0].cert.claims.key, TranscriptBody([Sha(inbox[0].nonce.value + nonceS + inbox[1].ct.value)]),
                 inbox[2].signature.value)
  }

  /** The server finishes exactly with a client that proves its key, under that certificate's subject
      and with keys derived from what was exchanged; otherwise it ends with AUTH_FAILED and nothing. */
  lemma ServerFinishesIff(me: Identity, ca: Key, inbox: seq<Msg>, now: int, nonceS: Bytes, salt: nat)
    ensures var talk := ServerConversation(me, ca, AwaitHello, inbox, now, nonceS, salt);
            && (ProvesClient(me, ca, inbox, now, nonceS) ==>
                  var cert, nonceC, ct := inbox[0].cert, inbox[0].nonce.value, inbox[1].ct.value;
                  var preMaster, digest := OaepDecrypt(me.key, ct).value, [Sha(nonceC + nonceS + ct)];
                  && ServerResult(talk.state)
                     == Ok(Established(cert.claims.subject, cert,
                                       Keys([Hkdf(preMaster, nonceC + nonceS, 0)], [Hkdf(preMaster, nonceC + nonceS, 1)]), digest))
                  && talk.out == [Hello(me.cert, Some(nonceS)), SessionOk(Some([Sig(me.key, TranscriptBody(digest), salt)]))]
                  && talk.rest == inbox[3..])
            && (!ProvesClient(me, ca, inbox, now, nonceS) ==>
                  && ServerResult(talk.state) == Err(AuthError)
                  && talk.out == if |inbox| >= 1 && GoodHello(inbox[0], ca, now, None)
                                 then [Hello(me.cert, Some(nonceS)), AuthFailed] else [AuthFailed])
  {
    ServerTalks(me, ca, AwaitHello, inbox, now, nonceS, salt);
    var hello := Head(inbox);
    hide VerifyCertificate, Width, OaepDecrypt;
    if GoodHello(hello, ca, now, None) {
      HelloNamesCert(hello, ca, now, None);
      ServerAfterHello(me, ca, inbox, now, nonceS, salt);
    }
  }

  lemma HelloNamesCert(m: Msg, ca: Key, now: int, expected: Option<string>)
    requires GoodHello(m, ca, now, expected)
    ensures m.cert.Cert?
  {
  }

  lemma ServerAfterHello(me: Identity, ca: Key, inbox: seq<Msg>, now: int, nonceS: Bytes, salt: nat)
    requires GoodHello(Head(inbox), ca, now, None) && Head(inbox).cert.Cert?
    ensures var cert, nonceC := Head(inbox).cert, Head(inbox).nonce.value;
            var later := Tail(inbox);
            var talk := ServerConversation(me, ca, AwaitKeyExchange(cert, nonceC, nonceS), later, now, nonceS, salt);
            && (ProvesClient(me, ca, inbox, now, nonceS) ==>
                  var ct := inbox[1].ct.value;
                  var preMaster, digest := OaepDecrypt(me.key, ct).value, [Sha(nonceC + nonceS + ct)];
                  && ServerResult(talk.state)
                     == Ok(Established(cert.claims.subject, cert,
                                       Keys([Hkdf(preMaster, nonceC + nonceS, 0)], [Hkdf(preMaster, nonceC + nonceS, 1)]), digest))
                  && talk.out == [SessionOk(Some([Sig(me.key, TranscriptBody(digest), salt)]))]
                  && talk.rest == inbox[3..])
            && (!ProvesClient(me, ca, inbox, now, nonceS) ==>
                  ServerResult(talk.state) == Err(AuthError) && talk.out == [AuthFailed])
  {
    hide VerifyCertificate, Width, OaepDecrypt, RsaVerify;
    var cert, nonceC := Head(inbox).cert, Head(inbox).nonce.value;
    var later := Tail(inbox);
    ServerTalks(me, ca, AwaitKeyExchange(cert, nonceC, nonceS), later, now, nonceS, salt);
    if GoodKeyExchange(me, Head(later)) {
      var ct := Head(later).ct.value;
      ServerAtProof(me, ca, cert, Exchange(nonceC, nonceS, ct, OaepDecrypt(me.key, ct).value, me.key), Tail(later), now, nonceS, salt);
      hide ServerConversation;
      assert |inbox| >= 3 ==> Tail(Tail(later)) == inbox[3..];
    }
  }

  lemma ServerAtProof(me: Identity, ca: Key, cert: Cert, x: Exchange, inbox: seq<Msg>, now: int, nonceS: Bytes, salt: nat)
    requires cert.Cert?
    ensures var m, digest := Head(inbox), [Sha(x.nonceC + x.nonceS + x.ct)];
            var talk := ServerConversation(me, ca, AwaitAuth(cert, x), inbox, now, nonceS, salt);
            var good := m.AuthResponse? && m.signature.Some? && RsaVerify(cert.claims.key, TranscriptBody(digest), m.signature.value);
            && talk.rest == Tail(inbox)
            && (good ==>
                  && ServerResult(talk.state)
                     == Ok(Established(cert.claims.subject, cert,
                                       Keys([Hkdf(x.preMaster, x.nonceC + x.nonceS, 0)], [Hkdf(x.preMaster, x.nonceC + x.nonceS, 1)]),
                                       digest))
                  && talk.out == [SessionOk(Some([Sig(me.key, TranscriptBody(digest), salt)]))])
            && (!good ==> ServerResult(talk.state) == Err(AuthError) && talk.out == [AuthFailed])
  {
    hide RsaVerify;
    ServerTalks(me, ca, AwaitAuth(cert, x), inbox, now, nonceS, salt);
  }

  // ---------- Client ----------

  /** A hello under a certificate in date of the expected server, and a signature of its key over the
      digest of both nonces and the ciphertext this client made. */
  predicate ProvesServer(ca: Key, expected: Option<string>, inbox: seq<Msg>, now: int, nonceC: Bytes, preMaster: Bytes, coin: nat) {
    && |inbox| >= 2 && GoodHello(inbox[0], ca, now, expected)
    && inbox[1].SessionOk? && inbox[1].proof.Some?
    && RsaVerify(inbox[0].cert.claims.key,
                 TranscriptBody([Sha(nonceC + inbox[0].nonce.value + [Oaep(inbox[0].cert.claims.key, preMaster, coin)])]),
                 inbox[1].proof.value)
  }

  /** Malformed messages are protocol errors; a wrong message, a bad certificate and a bad proof are
      authentication errors, and so is anything unreadable in place of SESSION_OK. */
  function ClientError(inbox: seq<Msg>, ca: Key, now: int, expected: Option<string>): Failure {
    if inbox == [] || inbox[0].Garbage? || inbox[0].HelloWithout? then ProtocolError
    else if !inbox[0].Hello? then AuthError
    else if inbox[0].nonce.None? || Width(inbox[0].nonce.value) != 16 then ProtocolError
    else if !VerifyCertificate(inbox[0].cert, ca, now, expected) then AuthError
    else if |inbox| >= 2 && inbox[1].SessionOk? && inbox[1].proof.None? then ProtocolError
    else AuthError
  }

  /** The client finishes exactly with a server that proves its key, and sends the pre-master and its
      own proof exactly to a server whose certificate verified. */
  lemma ClientFinishesIff(me: Identity, ca: Key, expected: Option<string>, inbox: seq<Msg>, now: int, nonceC: Bytes,
                          preMaster: Bytes, coin: nat, salt: nat)
    ensures var talk := ClientConversation(me, ca, expected, AwaitServerHello(nonceC), inbox, now, preMaster, coin, salt);
            && ClientEnded(talk.state)
            && (ProvesServer(ca, expected, inbox, now, nonceC, preMaster, coin) ==>
                  var cert, nonceS := inbox[0].cert, inbox[0].nonce.value;
                  ClientResult(talk.state)
                  == Ok(Established(cert.claims.subject, cert,
                                    Keys([Hkdf(preMaster, nonceC + nonceS, 0)], [Hkdf(preMaster, nonceC + nonceS, 1)]),
                                    [Sha(nonceC + nonceS + [Oaep(cert.claims.key, preMaster, coin)])])))
            && (!ProvesServer(ca, expected, inbox, now, nonceC, preMaster, coin) ==>
                  ClientResult(talk.state) == Err(ClientError(inbox, ca, now, expected)))
            && (if |inbox| >= 1 && GoodHello(inbox[0], ca, now, expected) then
                  inbox[0].cert.Cert?
                  && var ct := [Oaep(inbox[0].cert.claims.key, preMaster, coin)];
                     talk.out == [KeyExchange(Some(ct)),
                                  AuthResponse(Some([Sig(me.key, TranscriptBody([Sha(nonceC + inbox[0].nonce.value + ct)]), salt)]))]
                else talk.out == [])
  {
    hide Width, RsaVerify;
    ClientTalks(me, ca, expected, AwaitServerHello(nonceC), inbox, now, preMaster, coin, salt);
    var hello := Head(inbox);
    if GoodHello(hello, ca, now, expected) {
      HelloNamesCert(hello, ca, now, expected);
      hide VerifyCertificate;
      var key := hello.cert.claims.key;
      var x := Exchange(nonceC, hello.nonce.value, OaepEncrypt(key, preMaster, coin), preMaster, key);
      ClientTalks(me, ca, expected, AwaitSessionOk(hello.cert, x), Tail(inbox), now, preMaster, coin, salt);
    }
  }
}

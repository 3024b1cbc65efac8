/**
Any number of handshake runs over a network that drops, reorders, replays and injects
messages. Honest keys sign only in their own role; the network may deliver any message
whose honest signatures are in the log.
*/
module HandshakeNetwork {
  import opened Wrappers
  import opened Crypto
  import opened Handshake

  /** The keys of honest clients and of honest servers. */
  datatype Roles = Roles(ca: Key, clientKeys: set<Key>, serverKeys: set<Key>)

  /** signed is the exchange whose transcript this run has signed. */
  datatype ClientRun = ClientRun(me: Identity, expected: Option<string>, nonceC: Bytes, state: ClientState, signed: Option<Exchange>)
  datatype ServerRun = ServerRun(me: Identity, nonceS: Option<Bytes>, state: ServerState, signed: Option<Exchange>)

  datatype Net = Net(clients: map<nat, ClientRun>, servers: map<nat, ServerRun>, log: SigLog, used: set<Bytes>)

  const Quiet := Net(map[], map[], {}, {})

  datatype Event =
    | ClientBegins(id: nat, me: Identity, expected: Option<string>, nonceC: Bytes)
    | ClientGets(id: nat, m: Msg, now: int, preMaster: Bytes, coin: nat, salt: nat)
    | ServerBegins(id: nat, server: Identity)
    | ServerGets(id: nat, m: Msg, now: int, nonceS: Bytes, salt: nat)
    | SignsElsewhere(key: Key, body: Body)     // uploads, acks, revokes and certificates

  ghost predicate KnownMsg(m: Msg, honest: set<Key>, log: SigLog) {
    match m
    case AuthResponse(signature) => signature.Some? ==> Known(signature.value, honest, log)
    case SessionOk(proof) => proof.Some? ==> Known(proof.value, honest, log)
    case _ => true
  }

  function HonestKeys(roles: Roles): set<Key> {
    roles.clientKeys + roles.serverKeys
  }

  predicate FreshNonce(n: Bytes, used: set<Bytes>) {
    Width(n) == NONCE_BYTES && n !in used
  }

  /** The exchange a client signs when it accepts the server's hello. */
  function ClientSigns(before: ClientState, after: ClientState): Option<Exchange> {
    if before.AwaitServerHello? && after.AwaitSessionOk? then Some(after.x) else None
  }

  /** The exchange a server signs when it accepts the client's proof. */
  function ServerSigns(before: ServerState, after: ServerState): Option<Exchange> {
    if before.AwaitAuth? && after.ServerDone? then Some(after.x) else None
  }

  function LogSignature(log: SigLog, key: Key, signed: Option<Exchange>): SigLog {
    if signed.Some? then log + {(key, TranscriptBody(Transcript(signed.value)))} else log
  }

  function Keep(a: Option<Exchange>, b: Option<Exchange>): Option<Exchange> {
    if b.Some? then b else a
  }

  function ClientReceives(roles: Roles, net: Net, id: nat, m: Msg, now: int, preMaster: Bytes, coin: nat, salt: nat): Net
    requires id in net.clients
  {
    var run := net.clients[id];
    var after := ClientStep(run.me, roles.ca, run.expected, run.state, m, now, preMaster, coin, salt).state;
    var signed := ClientSigns(run.state, after);
    net.(clients := net.clients[id := run.(state := after, signed := Keep(run.signed, signed))],
         log := LogSignature(net.log, run.me.key, signed))
  }

  /** The server draws its nonce when it answers the client's hello. */
  function ServerReceives(roles: Roles, net: Net, id: nat, m: Msg, now: int, nonceS: Bytes, salt: nat): Net
    requires id in net.servers
  {
    var run := net.servers[id];
    var after := ServerStep(run.me, roles.ca, run.state, m, now, nonceS, salt).state;
    var signed := ServerSigns(run.state, after);
    var draws := run.state.AwaitHello? && after.AwaitKeyExchange?;
    net.(servers := net.servers[id := run.(state := after, signed := Keep(run.signed, signed),
                                           nonceS := if draws then Some(nonceS) else run.nonceS)],
         log := LogSignature(net.log, run.me.key, signed),
         used := if draws then net.used + {nonceS} else net.used)
  }

  /** An event whose guard fails does nothing. */
  ghost function Perform(roles: Roles, net: Net, e: Event): Net {
    match e
    case ClientBegins(id, me, expected, nonceC) =>
      if id !in net.clients && me.key in roles.clientKeys && FreshNonce(nonceC, net.used)
      then net.(clients := net.clients[id := ClientRun(me, expected, nonceC, AwaitServerHello(nonceC), None)],
                used := net.used + {nonceC})
      else net
    case ClientGets(id, m, now, preMaster, coin, salt) =>
      if id in net.clients && KnownMsg(m, HonestKeys(roles), net.log)
      then ClientReceives(roles, net, id, m, now, preMaster, coin, salt) else net
    case ServerBegins(id, me) =>
      if id !in net.servers && me.key in roles.serverKeys
      then net.(servers := net.servers[id := ServerRun(me, None, AwaitHello, None)]) else net
    case ServerGets(id, m, now, nonceS, salt) =>
      if id in net.servers && KnownMsg(m, HonestKeys(roles), net.log) && (net.servers[id].state.AwaitHello? ==> FreshNonce(nonceS, net.used))
      then ServerReceives(roles, net, id, m, now, nonceS, salt) else net
    case SignsElsewhere(key, body) =>
      if body.TranscriptBody? then net else net.(log := net.log + {(key, body)})
  }

  ghost function AfterEvents(roles: Roles, es: seq<Event>): Net {
    if es == [] then Quiet else Perform(roles, AfterEvents(roles, es[..|es| - 1]), es[|es| - 1])
  }

  // ---------- Invariant ----------

  predicate SoundExchange(x: Exchange) {
    Width(x.nonceC) == NONCE_BYTES && Width(x.nonceS) == NONCE_BYTES && OaepDecrypt(x.serverKey, x.ct) == Some(x.preMaster)
  }

  /** An honest peer has signed the transcript. */
  predicate PeerSigned(roles: Roles, log: SigLog, peer: Cert, x: Exchange) {
    peer.Cert? && (peer.claims.key in HonestKeys(roles) ==> (peer.claims.key, TranscriptBody(Transcript(x))) in log)
  }

  predicate ClientOk(roles: Roles, run: ClientRun, log: SigLog) {
    && run.me.key in roles.clientKeys && Width(run.nonceC) == NONCE_BYTES
    && (run.signed.Some? ==> SoundExchange(run.signed.value) && run.signed.value.nonceC == run.nonceC)
    && match run.state
       case AwaitServerHello(nonceC) => nonceC == run.nonceC && run.signed.None?
       case AwaitSessionOk(server, x) => run.signed == Some(x) && server.Cert? && server.claims.key == x.serverKey
       case ClientDone(x, session) =>
         run.signed == Some(x) && session.keys == KeysOf(x) && session.transcript == Transcript(x)
         && PeerSigned(roles, log, session.peerCert, x) && session.peerCert.claims.key == x.serverKey
       case ClientFailed(_) => true
  }

  predicate ServerOk(roles: Roles, run: ServerRun, log: SigLog) {
    && run.me.key in roles.serverKeys
    && (run.signed.Some? ==> run.state.ServerDone? && run.signed == Some(run.state.x))
    && match run.state
       case AwaitHello => true
       case AwaitKeyExchange(client, nonceC, nonceS) =>
         client.Cert? && run.nonceS == Some(nonceS) && Width(nonceC) == NONCE_BYTES && Width(nonceS) == NONCE_BYTES
       case AwaitAuth(client, x) => client.Cert? && run.nonceS == Some(x.nonceS) && SoundExchange(x) && x.serverKey == run.me.key
       case ServerDone(x, session) =>
         run.signed == Some(x) && run.nonceS == Some(x.nonceS) && SoundExchange(x) && x.serverKey == run.me.key
         && session.keys == KeysOf(x) && session.transcript == Transcript(x) && PeerSigned(roles, log, session.peerCert, x)
       case ServerFailed => true
  }

  ghost predicate ClientsOk(roles: Roles, clients: map<nat, ClientRun>, log: SigLog, used: set<Bytes>) {
    && (forall i | i in clients :: ClientOk(roles, clients[i], log) && clients[i].nonceC in used)
    && (forall i, j | i in clients && j in clients && clients[i].nonceC == clients[j].nonceC :: i == j)
  }

  ghost predicate ServersOk(roles: Roles, servers: map<nat, ServerRun>, log: SigLog, used: set<Bytes>) {
    && (forall i | i in servers :: ServerOk(roles, servers[i], log) && (servers[i].nonceS.Some? ==> servers[i].nonceS.value in used))
    && (forall i, j | i in servers && j in servers && servers[i].nonceS.Some? && servers[i].nonceS == servers[j].nonceS :: i == j)
  }

  ghost predicate ClientSigned(clients: map<nat, ClientRun>, key: Key, digest: Bytes) {
    exists i :: i in clients && clients[i].me.key == key && clients[i].signed.Some? && Transcript(clients[i].signed.value) == digest
  }

  ghost predicate ServerSigned(servers: map<nat, ServerRun>, key: Key, digest: Bytes) {
    exists j :: j in servers && servers[j].me.key == key && servers[j].signed.Some? && Transcript(servers[j].signed.value) == digest
  }

  /** Honest keys sign transcripts only in their own role. */
  ghost predicate LogOk(roles: Roles, net: Net) {
    forall key, digest | (key, TranscriptBody(digest)) in net.log ::
      && (key in roles.clientKeys ==> ClientSigned(net.clients, key, digest))
      && (key in roles.serverKeys ==> ServerSigned(net.servers, key, digest))
  }

  ghost predicate NetOk(roles: Roles, net: Net) {
    ClientsOk(roles, net.clients, net.log, net.used) && ServersOk(roles, net.servers, net.log, net.used) && LogOk(roles, net)
  }

  // ---------- Preservation ----------

  lemma RunsLast(roles: Roles, net: Net, log: SigLog, used: set<Bytes>)
    requires NetOk(roles, net) && net.log <= log && net.used <= used
    ensures ClientsOk(roles, net.clients, log, used) && ServersOk(roles, net.servers, log, used)
  {
  }

  lemma KnownProof(key: Key, body: Body, signature: Bytes, honest: set<Key>, log: SigLog)
    requires RsaVerify(key, body, signature) && Known(signature, honest, log)
    ensures key in honest ==> (key, body) in log
  {
    assert signature[0] in signature;
  }

  /** One message keeps a client run sound, whoever sent it. */
  lemma ClientStepOk(roles: Roles, run: ClientRun, log: SigLog, m: Msg, now: int, preMaster: Bytes, coin: nat, salt: nat)
    requires ClientOk(roles, run, log) && KnownMsg(m, HonestKeys(roles), log)
    ensures var after := ClientStep(run.me, roles.ca, run.expected, run.state, m, now, preMaster, coin, salt).state;
            var signed := ClientSigns(run.state, after);
            && ClientOk(roles, run.(state := after, signed := Keep(run.signed, signed)), LogSignature(log, run.me.key, signed))
            && (signed.None? ==> Keep(run.signed, signed) == run.signed)
  {
    if run.state.AwaitSessionOk? && m.SessionOk? && m.proof.Some? {
      var server, x := run.state.server, run.state.x;
      if RsaVerify(server.claims.key, TranscriptBody(Transcript(x)), m.proof.value) {
        KnownProof(server.claims.key, TranscriptBody(Transcript(x)), m.proof.value, HonestKeys(roles), log);
      }
    }
  }

  lemma ServerStepOk(roles: Roles, run: ServerRun, log: SigLog, m: Msg, now: int, nonceS: Bytes, salt: nat)
    requires ServerOk(roles, run, log) && KnownMsg(m, HonestKeys(roles), log)
    requires run.state.AwaitHello? ==> Width(nonceS) == NONCE_BYTES
    ensures var after := ServerStep(run.me, roles.ca, run.state, m, now, nonceS, salt).state;
            var signed := ServerSigns(run.state, after);
            var draws := run.state.AwaitHello? && after.AwaitKeyExchange?;
            ServerOk(roles, run.(state := after, signed := Keep(run.signed, signed), nonceS := if draws then Some(nonceS) else run.nonceS),
                     LogSignature(log, run.me.key, signed))
  {
    if run.state.AwaitAuth? && m.AuthResponse? && m.signature.Some? {
      var client, x := run.state.client, run.state.x;
      if RsaVerify(client.claims.key, TranscriptBody(Transcript(x)), m.signature.value) {
        KnownProof(client.claims.key, TranscriptBody(Transcript(x)), m.signature.value, HonestKeys(roles), log);
      }
    }
  }

  lemma ClientSignedLasts(a: map<nat, ClientRun>, b: map<nat, ClientRun>, key: Key, digest: Bytes)
    requires ClientSigned(a, key, digest)
    requires forall i | i in a :: i in b && b[i].me == a[i].me && (a[i].signed.Some? ==> b[i].signed == a[i].signed)
    ensures ClientSigned(b, key, digest)
  {
    var i :| i in a && a[i].me.key == key && a[i].signed.Some? && Transcript(a[i].signed.value) == digest;
    assert i in b && b[i].signed == a[i].signed;
  }

  lemma ServerSignedLasts(a: map<nat, ServerRun>, b: map<nat, ServerRun>, key: Key, digest: Bytes)
    requires ServerSigned(a, key, digest)
    requires forall i | i in a :: i in b && b[i].me == a[i].me && (a[i].signed.Some? ==> b[i].signed == a[i].signed)
    ensures ServerSigned(b, key, digest)
  {
    var i :| i in a && a[i].me.key == key && a[i].signed.Some? && Transcript(a[i].signed.value) == digest;
    assert i in b && b[i].signed == a[i].signed;
  }

  /** The log entries that one receiving run adds are covered by that run. */
  lemma LogGrows(roles: Roles, net: Net, z: Net, key: Key, signed: Option<Exchange>)
    requires LogOk(roles, net) && z.log == LogSignature(net.log, key, signed)
    requires forall i | i in net.clients :: i in z.clients && z.clients[i].me == net.clients[i].me
               && (net.clients[i].signed.Some? ==> z.clients[i].signed == net.clients[i].signed)
    requires forall i | i in net.servers :: i in z.servers && z.servers[i].me == net.servers[i].me
               && (net.servers[i].signed.Some? ==> z.servers[i].signed == net.servers[i].signed)
    requires signed.Some? ==>
               && (key in roles.clientKeys ==> ClientSigned(z.clients, key, Transcript(signed.value)))
               && (key in roles.serverKeys ==> ServerSigned(z.servers, key, Transcript(signed.value)))
    ensures LogOk(roles, z)
  {
    forall k, digest | (k, TranscriptBody(digest)) in z.log
      ensures (k in roles.clientKeys ==> ClientSigned(z.clients, k, digest))
           && (k in roles.serverKeys ==> ServerSigned(z.servers, k, digest))
    {
      if (k, TranscriptBody(digest)) in net.log {
        if k in roles.clientKeys {
          ClientSignedLasts(net.clients, z.clients, k, digest);
        }
        if k in roles.serverKeys {
          ServerSignedLasts(net.servers, z.servers, k, digest);
        }
      }
    }
  }

  lemma ClientGetsOk(roles: Roles, net: Net, id: nat, m: Msg, now: int, preMaster: Bytes, coin: nat, salt: nat)
    requires NetOk(roles, net) && id in net.clients && KnownMsg(m, HonestKeys(roles), net.log)
    requires roles.clientKeys !! roles.serverKeys
    ensures NetOk(roles, ClientReceives(roles, net, id, m, now, preMaster, coin, salt))
  {
    var run, z := net.clients[id], ClientReceives(roles, net, id, m, now, preMaster, coin, salt);
    var after := z.clients[id].state;
    var signed := ClientSigns(run.state, after);
    hide ClientStep, ClientOk, ServerOk;
    assert ClientOk(roles, run, net.log);
    ClientStepOk(roles, run, net.log, m, now, preMaster, coin, salt);
    ClientUnsigned(roles, run, net.log);
    RunsLast(roles, net, z.log, z.used);
    if signed.Some? {
      assert z.clients[id].signed == signed;
      assert ClientSigned(z.clients, run.me.key, Transcript(signed.value));
    }
    LogGrows(roles, net, z, run.me.key, signed);
  }

  lemma ClientUnsigned(roles: Roles, run: ClientRun, log: SigLog)
    requires ClientOk(roles, run, log)
    ensures run.me.key in roles.clientKeys
    ensures run.state.AwaitServerHello? ==> run.signed.None?
  {
  }

  lemma ServerGetsOk(roles: Roles, net: Net, id: nat, m: Msg, now: int, nonceS: Bytes, salt: nat)
    requires NetOk(roles, net) && id in net.servers && KnownMsg(m, HonestKeys(roles), net.log)
    requires net.servers[id].state.AwaitHello? ==> FreshNonce(nonceS, net.used)
    requires roles.clientKeys !! roles.serverKeys
    ensures NetOk(roles, ServerReceives(roles, net, id, m, now, nonceS, salt))
  {
    var run, z := net.servers[id], ServerReceives(roles, net, id, m, now, nonceS, salt);
    var after := z.servers[id].state;
    var signed := ServerSigns(run.state, after);
    hide ServerStep, ClientOk, ServerOk;
    assert ServerOk(roles, run, net.log);
    ServerStepOk(roles, run, net.log, m, now, nonceS, salt);
    ServerUnsigned(roles, run, net.log);
    RunsLast(roles, net, z.log, z.used);
    if signed.Some? {
      assert z.servers[id].signed == signed;
      assert ServerSigned(z.servers, run.me.key, Transcript(signed.value));
    }
    LogGrows(roles, net, z, run.me.key, signed);
  }

  lemma ServerUnsigned(roles: Roles, run: ServerRun, log: SigLog)
    requires ServerOk(roles, run, log)
    ensures run.me.key in roles.serverKeys
    ensures run.state.AwaitAuth? ==> run.signed.None?
  {
  }

  lemma ClientBeginsOk(roles: Roles, net: Net, id: nat, me: Identity, expected: Option<string>, nonceC: Bytes)
    requires NetOk(roles, net) && id !in net.clients && me.key in roles.clientKeys && FreshNonce(nonceC, net.used)
    ensures NetOk(roles, Perform(roles, net, ClientBegins(id, me, expected, nonceC)))
  {
    var z := Perform(roles, net, ClientBegins(id, me, expected, nonceC));
    assert ClientOk(roles, z.clients[id], z.log);
    hide ClientOk, ServerOk;
    RunsLast(roles, net, z.log, z.used);
    LogGrows(roles, net, z, 0, None);
  }

  lemma ServerBeginsOk(roles: Roles, net: Net, id: nat, me: Identity)
    requires NetOk(roles, net) && id !in net.servers && me.key in roles.serverKeys
    ensures NetOk(roles, Perform(roles, net, ServerBegins(id, me)))
  {
    var z := Perform(roles, net, ServerBegins(id, me));
    assert ServerOk(roles, z.servers[id], z.log);
    hide ClientOk, ServerOk;
    LogGrows(roles, net, z, 0, None);
  }

  lemma SignsElsewhereOk(roles: Roles, net: Net, key: Key, body: Body)
    requires NetOk(roles, net)
    ensures NetOk(roles, Perform(roles, net, SignsElsewhere(key, body)))
  {
    hide ClientOk, ServerOk;
    RunsLast(roles, net, net.log + {(key, body)}, net.used);
  }

  lemma PerformOk(roles: Roles, net: Net, e: Event)
    requires NetOk(roles, net) && roles.clientKeys !! roles.serverKeys
    ensures NetOk(roles, Perform(roles, net, e))
  {
    hide NetOk, ClientReceives, ServerReceives;
    match e
    case ClientGets(id, m, now, preMaster, coin, salt) =>
      if id in net.clients && KnownMsg(m, HonestKeys(roles), net.log) {
        ClientGetsOk(roles, net, id, m, now, preMaster, coin, salt);
      }
    case ServerGets(id, m, now, nonceS, salt) =>
      if id in net.servers && KnownMsg(m, HonestKeys(roles), net.log) && (net.servers[id].state.AwaitHello? ==> FreshNonce(nonceS, net.used)) {
        ServerGetsOk(roles, net, id, m, now, nonceS, salt);
      }
    case ClientBegins(id, me, expected, nonceC) =>
      if id !in net.clients && me.key in roles.clientKeys && FreshNonce(nonceC, net.used) {
        ClientBeginsOk(roles, net, id, me, expected, nonceC);
      }
    case ServerBegins(id, me) =>
      if id !in net.servers && me.key in roles.serverKeys {
        ServerBeginsOk(roles, net, id, me);
      }
    case SignsElsewhere(key, body) => SignsElsewhereOk(roles, net, key, body);
  }

  lemma {:induction false} NetHolds(roles: Roles, es: seq<Event>)
    requires roles.clientKeys !! roles.serverKeys
    ensures NetOk(roles, AfterEvents(roles, es))
  {
    if es != [] {
      NetHolds(roles, es[..|es| - 1]);
      PerformOk(roles, AfterEvents(roles, es[..|es| - 1]), es[|es| - 1]);
    }
  }

  // ---------- Agreement ----------

  /** A client that completes with an honest server's key shares both nonces, the encrypted and the
      plain pre-master and both session keys with a completed run of exactly that key, and no other
      server run has the same nonce. */
  lemma ClientAgrees(roles: Roles, es: seq<Event>, i: nat)
    requires roles.clientKeys !! roles.serverKeys
    requires var net := AfterEvents(roles, es);
             i in net.clients && net.clients[i].state.ClientDone? && net.clients[i].state.session.peerCert.Cert?
             && net.clients[i].state.session.peerCert.claims.key in roles.serverKeys
    ensures var net := AfterEvents(roles, es);
            var c := net.clients[i].state;
            exists j :: j in net.servers && net.servers[j].me.key == c.session.peerCert.claims.key
                        && net.servers[j].state.ServerDone? && net.servers[j].state.x == c.x
                        && net.servers[j].state.session.keys == c.session.keys
                        && forall k | k in net.servers && net.servers[k].nonceS == Some(c.x.nonceS) :: k == j
  {
    NetHolds(roles, es);
    var net := AfterEvents(roles, es);
    var c := net.clients[i].state;
    var key := c.session.peerCert.claims.key;
    assert ClientOk(roles, net.clients[i], net.log);
    assert ServerSigned(net.servers, key, Transcript(c.x));
    var j :| j in net.servers && net.servers[j].me.key == key && net.servers[j].signed.Some?
             && Transcript(net.servers[j].signed.value) == Transcript(c.x);
    assert ServerOk(roles, net.servers[j], net.log);
    SameExchange(c.x, net.servers[j].signed.value);
  }

  /** A server that completes with an honest client's key shares the same with exactly one run of
      that key, which encrypted the pre-master for this server's key. */
  lemma ServerAgrees(roles: Roles, es: seq<Event>, j: nat)
    requires roles.clientKeys !! roles.serverKeys
    requires var net := AfterEvents(roles, es);
             j in net.servers && net.servers[j].state.ServerDone? && net.servers[j].state.session.peerCert.Cert?
             && net.servers[j].state.session.peerCert.claims.key in roles.clientKeys
    ensures var net := AfterEvents(roles, es);
            var s := net.servers[j].state;
            exists i :: i in net.clients && net.clients[i].me.key == s.session.peerCert.claims.key
                        && net.clients[i].signed == Some(s.x) && s.x.serverKey == net.servers[j].me.key
                        && s.session.keys == KeysOf(net.clients[i].signed.value)
                        && forall k | k in net.clients && net.clients[k].nonceC == s.x.nonceC :: k == i
  {
    NetHolds(roles, es);
    var net := AfterEvents(roles, es);
    var s := net.servers[j].state;
    var key := s.session.peerCert.claims.key;
    assert ServerOk(roles, net.servers[j], net.log);
    assert ClientSigned(net.clients, key, Transcript(s.x));
    var i :| i in net.clients && net.clients[i].me.key == key && net.clients[i].signed.Some?
             && Transcript(net.clients[i].signed.value) == Transcript(s.x);
    assert ClientOk(roles, net.clients[i], net.log);
    SameExchange(s.x, net.clients[i].signed.value);
  }

  /** Equal transcripts come from equal exchanges: a ciphertext opens under one key, to one plaintext. */
  lemma SameExchange(x: Exchange, y: Exchange)
    requires SoundExchange(x) && SoundExchange(y)
    ensures Transcript(x) == Transcript(y) <==> x == y
  {
    TranscriptInjective(x.nonceC, x.nonceS, x.ct, y.nonceC, y.nonceS, y.ct);
  }
}

/**
The whole system: honest clients, an honest certificate authority, the interleaved server, and
a network that delivers anything it can put together. Honest signatures are logged when they
are made; what the network delivers may contain any bytes, but no honest signature that is
not in the log.
*/
module World {
  import opened Wrappers
  import opened Crypto
  import opened Store
  import opened FileCrypto
  import opened Messages
  import opened HandlerSpec
  import opened Threads
  import opened ThreadInvariant
  import opened ThreadSafety
  import opened CrashConsistency
  import opened Client

  /** The keys held by honest users, each by one of them. */
  type Owners = map<Key, User>

  datatype Receipt = Receipt(reader: Reader, fileId: FileId, payload: Payload, now: int, plain: Bytes)

  /** A revoke request that the holder of a key has signed. */
  datatype Recall = Recall(key: Key, fileId: FileId, timestamp: int)

  datatype World = World(y: System, log: SigLog, drafts: set<Draft>, receipts: set<Receipt>, recalls: set<Recall>)

  const Start := World(Boot, {}, {}, {}, {})

  datatype Act =
    | Serve(step: Label)
    | Issue(claims: Claims)
    | UploadFile(draft: Draft, recipientCert: Cert, now: int)
    | DownloadFile(key: Key, fileId: FileId, payload: Payload, now: int, ackTime: int)
    | RevokeFile(key: Key, fileId: FileId, timestamp: int)
    | ProveHandshake(key: Key, digest: Bytes)

  function Honest(cfg: Config, owners: Owners): set<Key> {
    owners.Keys + {cfg.ca}
  }

  /** The CA certifies for an honest user only a key that this user holds. */
  predicate CertifiesOwner(owners: Owners, claims: Claims) {
    claims.subject in owners.Values ==> claims.key in owners && owners[claims.key] == claims.subject
  }

  ghost predicate KnownField(b: Option<Bytes>, cfg: Config, owners: Owners, log: SigLog) {
    b.Some? ==> Known(b.value, Honest(cfg, owners), log)
  }

  /** The signatures that a label brings in from the network. */
  ghost predicate Deliverable(l: Label, cfg: Config, owners: Owners, log: SigLog) {
    match l
    case Connect(_, cert, _) => KnownCert(cert, Honest(cfg, owners), log)
    case Receive(_, e, _, _) => KnownRequest(e.request, cfg, owners, log)
    case _ => true
  }

  ghost predicate KnownRequest(r: Request, cfg: Config, owners: Owners, log: SigLog) {
    match r
    case Upload(p) => KnownField(p.signature, cfg, owners, log)
    case DownloadAck(n) => KnownField(n.signature, cfg, owners, log)
    case Revoke(n) => KnownField(n.signature, cfg, owners, log)
    case _ => true
  }

  ghost predicate KnownPayload(p: Payload, cfg: Config, owners: Owners, log: SigLog) {
    KnownField(p.signature, cfg, owners, log) && (p.senderCert.Some? ==> KnownCert(p.senderCert.value, Honest(cfg, owners), log))
  }

  /** An honest upload: own key, and a recipient certificate that verified. */
  predicate HonestDraft(cfg: Config, owners: Owners, d: Draft, cert: Cert, now: int) {
    && d.senderKey in owners && owners[d.senderKey] == d.sender
    && VerifyCertificate(cert, cfg.ca, now, Some(d.recipient)) && cert.claims.key == d.recipientKey
  }

  /** An act whose guard fails does nothing. */
  ghost function Perform(cfg: Config, owners: Owners, w: World, a: Act): World {
    match a
    case Serve(l) => if Deliverable(l, cfg, owners, w.log) then w.(y := Next(cfg, w.y, l).y) else w
    case Issue(claims) =>
      if CertifiesOwner(owners, claims) then w.(log := w.log + {(cfg.ca, CertBody(claims))}) else w
    case UploadFile(d, cert, now) =>
      if HonestDraft(cfg, owners, d, cert, now)
      then w.(log := w.log + {(d.senderKey, OriginBody(DraftOrigin(d)))}, drafts := w.drafts + {d}) else w
    case DownloadFile(key, f, payload, now, ackTime) =>
      if key in owners && KnownPayload(payload, cfg, owners, w.log) then
        var reader := Reader(owners[key], key, cfg.ca);
        (match VerifyAndDecrypt(reader, payload, f, now)
         case Err(_) => w
         case Ok(plain) => w.(log := w.log + {(key, AckBody(f, ackTime))},
                              receipts := w.receipts + {Receipt(reader, f, payload, now, plain)}))
      else w
    case RevokeFile(key, f, timestamp) =>
      if key in owners
      then w.(log := w.log + {(key, RevokeBody(owners[key], f, timestamp))}, recalls := w.recalls + {Recall(key, f, timestamp)}) else w
    case ProveHandshake(key, digest) =>
      if key in owners then w.(log := w.log + {(key, TranscriptBody(digest))}) else w
  }

  ghost function AfterActs(cfg: Config, owners: Owners, acts: seq<Act>): World {
    if acts == [] then Start else Perform(cfg, owners, AfterActs(cfg, owners, acts[..|acts| - 1]), acts[|acts| - 1])
  }

  // ---------- Invariant ----------

  /** Every honest signature in the log was made by the code that makes such signatures. */
  ghost predicate Accounted(cfg: Config, owners: Owners, w: World, key: Key, body: Body) {
    match body
    case OriginBody(o) => key in owners ==> exists d :: d in w.drafts && d.senderKey == key && DraftOrigin(d) == o
    case AckBody(f, _) => key in owners ==> exists r :: r in w.receipts && r.reader.key == key && r.fileId == f
    case RevokeBody(user, f, timestamp) => key in owners ==> user == owners[key] && Recall(key, f, timestamp) in w.recalls
    case CertBody(claims) => key == cfg.ca ==> CertifiesOwner(owners, claims)
    case TranscriptBody(_) => true
  }

  ghost predicate LogOk(cfg: Config, owners: Owners, w: World) {
    forall key, body | (key, body) in w.log :: Accounted(cfg, owners, w, key, body)
  }

  ghost predicate ReceiptOk(cfg: Config, owners: Owners, w: World, r: Receipt) {
    && r.reader.key in owners && r.reader == Reader(owners[r.reader.key], r.reader.key, cfg.ca)
    && KnownPayload(r.payload, cfg, owners, w.log)
    && VerifyAndDecrypt(r.reader, r.payload, r.fileId, r.now) == Ok(r.plain)
  }

  ghost predicate DraftsOk(owners: Owners, drafts: set<Draft>) {
    forall d | d in drafts :: d.senderKey in owners && owners[d.senderKey] == d.sender
  }

  /** What the server keeps of the network's signatures came from the network. */
  ghost predicate ServerKnown(cfg: Config, owners: Owners, y: System, log: SigLog) {
    && (forall cert | cert in y.shared.history.certs :: KnownCert(cert, Honest(cfg, owners), log))
    && (forall f | f in y.shared.acks :: Known(y.shared.acks[f].ackSignature, Honest(cfg, owners), log))
    && (forall p | p in y.shared.history.revokes :: Known(p.signature, Honest(cfg, owners), log))
    && (forall t | t in y.conns && !y.conns[t].pc.Idle? :: KnownRequest(y.conns[t].pc.e.request, cfg, owners, log))
  }

  ghost predicate WorldOk(cfg: Config, owners: Owners, w: World) {
    && Inv(cfg, w.y)
    && LogOk(cfg, owners, w)
    && (forall r | r in w.receipts :: ReceiptOk(cfg, owners, w, r))
    && DraftsOk(owners, w.drafts)
    && ServerKnown(cfg, owners, w.y, w.log)
  }

  // ---------- Preservation ----------

  lemma KnownLater(cfg: Config, owners: Owners, y: System, a: SigLog, b: SigLog)
    requires ServerKnown(cfg, owners, y, a) && a <= b
    ensures ServerKnown(cfg, owners, y, b)
  {
    forall t | t in y.conns && !y.conns[t].pc.Idle?
      ensures KnownRequest(y.conns[t].pc.e.request, cfg, owners, b)
    {
      assert KnownRequest(y.conns[t].pc.e.request, cfg, owners, a);
    }
  }

  /** The log, drafts, receipts and recalls only grow; one new log entry must be accounted for. */
  lemma Logged(cfg: Config, owners: Owners, w: World, z: World, key: Key, body: Body)
    requires WorldOk(cfg, owners, w) && z.y == w.y && z.log == w.log + {(key, body)}
    requires w.drafts <= z.drafts && w.receipts <= z.receipts && w.recalls <= z.recalls && DraftsOk(owners, z.drafts)
    requires Accounted(cfg, owners, z, key, body)
    requires forall r | r in z.receipts && r !in w.receipts :: ReceiptOk(cfg, owners, z, r)
    ensures WorldOk(cfg, owners, z)
  {
    forall k, b | (k, b) in z.log
      ensures Accounted(cfg, owners, z, k, b)
    {
      if (k, b) in w.log {
        AccountedLater(cfg, owners, w, z, k, b);
      }
    }
    forall r | r in z.receipts
      ensures ReceiptOk(cfg, owners, z, r)
    {
      if r in w.receipts {
        assert ReceiptOk(cfg, owners, w, r);
      }
    }
    KnownLater(cfg, owners, w.y, w.log, z.log);
  }

  lemma AccountedLater(cfg: Config, owners: Owners, w: World, z: World, key: Key, body: Body)
    requires Accounted(cfg, owners, w, key, body) && w.drafts <= z.drafts && w.receipts <= z.receipts && w.recalls <= z.recalls
    ensures Accounted(cfg, owners, z, key, body)
  {
    match body
    case OriginBody(o) =>
      if key in owners {
        var d :| d in w.drafts && d.senderKey == key && DraftOrigin(d) == o;
        assert d in z.drafts;
      }
    case AckBody(f, _) =>
      if key in owners {
        var r :| r in w.receipts && r.reader.key == key && r.fileId == f;
        assert r in z.receipts;
      }
    case _ =>
  }

  /** One operation stores an ack or revoke signature only from the envelope it is working on. */
  lemma GoAcks(cfg: Config, d: Shared, ses: Session, pc: Pc, now: int, chunk: nat, diskOk: bool)
    ensures var op := OnGo(cfg, d, ses, pc, now, chunk, diskOk);
            && op.shared.history.certs == d.history.certs
            && forall f | f in op.shared.acks :: (f in d.acks && op.shared.acks[f] == d.acks[f])
                 || (AckPc(pc) && op.shared.acks[f].ackSignature == pc.e.request.notice.signature.value)
    ensures var op := OnGo(cfg, d, ses, pc, now, chunk, diskOk);
            forall p | p in op.shared.history.revokes :: p in d.history.revokes
              || (pc.Held? && pc.e.request.Revoke? && pc.e.request.notice.signature == Some(p.signature))
  {
  }

  /** Signatures in an operation's acks and revokes are known if those before it and those of its
      envelope are. */
  lemma GoKnown(cfg: Config, owners: Owners, y: System, tid: nat, now: int, chunk: nat, diskOk: bool, log: SigLog)
    requires ServerKnown(cfg, owners, y, log) && tid in y.conns
    ensures var op := OnGo(cfg, y.shared, y.conns[tid].session, y.conns[tid].pc, now, chunk, diskOk);
            && (forall f | f in op.shared.acks :: Known(op.shared.acks[f].ackSignature, Honest(cfg, owners), log))
            && (forall p | p in op.shared.history.revokes :: Known(p.signature, Honest(cfg, owners), log))
            && op.shared.history.certs == y.shared.history.certs
            && (op.move.To? && !op.move.pc.Idle? ==> KnownRequest(op.move.pc.e.request, cfg, owners, log))
  {
    hide OnGo, Known;
    var c := y.conns[tid];
    GoAcks(cfg, y.shared, c.session, c.pc, now, chunk, diskOk);
    GoKeepsEnvelope(cfg, y.shared, c.session, c.pc, now, chunk, diskOk);
  }

  lemma ServerStepKnown(cfg: Config, owners: Owners, y: System, l: Label, log: SigLog)
    requires ServerKnown(cfg, owners, y, log) && Deliverable(l, cfg, owners, log)
    ensures ServerKnown(cfg, owners, Next(cfg, y, l).y, log)
  {
    hide OnGo, Dispatch, Known, KnownCert, KnownRequest, VerifyCertificate;
    if l.Go? && l.tid in y.conns {
      GoKnown(cfg, owners, y, l.tid, l.now, l.chunk, l.diskOk, log);
    }
  }

  lemma DownloadOk(cfg: Config, owners: Owners, w: World, key: Key, f: FileId, payload: Payload, now: int, ackTime: int)
    requires WorldOk(cfg, owners, w)
    ensures WorldOk(cfg, owners, Perform(cfg, owners, w, DownloadFile(key, f, payload, now, ackTime)))
  {
    hide Inv, ServerKnown, Next, Deliverable, VerifyAndDecrypt;
    var z := Perform(cfg, owners, w, DownloadFile(key, f, payload, now, ackTime));
    if z != w {
      var reader := Reader(owners[key], key, cfg.ca);
      assert Receipt(reader, f, payload, now, VerifyAndDecrypt(reader, payload, f, now).value) in z.receipts;
      Logged(cfg, owners, w, z, key, AckBody(f, ackTime));
    }
  }

  lemma PerformOk(cfg: Config, owners: Owners, w: World, a: Act)
    requires WorldOk(cfg, owners, w) && cfg.ca !in owners
    ensures WorldOk(cfg, owners, Perform(cfg, owners, w, a))
  {
    hide Inv, ServerKnown, Next, Deliverable, VerifyAndDecrypt;
    var z := Perform(cfg, owners, w, a);
    if z != w {
      match a
      case Serve(l) =>
        NextOk(cfg, w.y, l);
        ServerStepKnown(cfg, owners, w.y, l, w.log);
        ServedOk(cfg, owners, w, z);
      case Issue(claims) => Logged(cfg, owners, w, z, cfg.ca, CertBody(claims));
      case UploadFile(d, _, _) =>
        assert d in z.drafts;
        Logged(cfg, owners, w, z, d.senderKey, OriginBody(DraftOrigin(d)));
      case DownloadFile(key, f, payload, now, ackTime) => DownloadOk(cfg, owners, w, key, f, payload, now, ackTime);
      case RevokeFile(key, f, timestamp) => Logged(cfg, owners, w, z, key, RevokeBody(owners[key], f, timestamp));
      case ProveHandshake(key, digest) => Logged(cfg, owners, w, z, key, TranscriptBody(digest));
    }
  }

  lemma ServedOk(cfg: Config, owners: Owners, w: World, z: World)
    requires WorldOk(cfg, owners, w) && z == w.(y := z.y) && Inv(cfg, z.y) && ServerKnown(cfg, owners, z.y, w.log)
    ensures WorldOk(cfg, owners, z)
  {
    forall key, body | (key, body) in z.log
      ensures Accounted(cfg, owners, z, key, body)
    {
      AccountedLater(cfg, owners, w, z, key, body);
    }
    forall r | r in z.receipts
      ensures ReceiptOk(cfg, owners, z, r)
    {
      assert ReceiptOk(cfg, owners, w, r);
    }
  }

  lemma {:induction false} WorldHolds(cfg: Config, owners: Owners, acts: seq<Act>)
    requires cfg.ca !in owners
    ensures WorldOk(cfg, owners, AfterActs(cfg, owners, acts))
  {
    if acts == [] {
      InvHolds(cfg, []);
    } else {
      WorldHolds(cfg, owners, acts[..|acts| - 1]);
      PerformOk(cfg, owners, AfterActs(cfg, owners, acts[..|acts| - 1]), acts[|acts| - 1]);
    }
  }

  // ---------- Agreement ----------

  lemma KnownSignature(key: Key, body: Body, signature: Bytes, honest: set<Key>, log: SigLog)
    requires RsaVerify(key, body, signature) && Known(signature, honest, log) && key in honest
    ensures (key, body) in log
  {
    assert signature[0] in signature;
  }

  /** A delivered certificate that verifies names an honest user only with a key of that user. */
  lemma CertifiedKey(cfg: Config, owners: Owners, w: World, cert: Cert)
    requires LogOk(cfg, owners, w) && KnownCert(cert, Honest(cfg, owners), w.log) && CaSigned(cfg.ca, cert)
    ensures CertifiesOwner(owners, cert.claims)
  {
    KnownSignature(cfg.ca, CertBody(cert.claims), cert.signature, Honest(cfg, owners), w.log);
    assert Accounted(cfg, owners, w, cfg.ca, CertBody(cert.claims));
  }

  /** The draft an honest sender made for what reader r received. */
  ghost predicate SentBy(w: World, owners: Owners, d: Draft, r: Receipt) {
    && d in w.drafts && r.payload.sender == Text(d.sender)
    && d.senderKey in owners && owners[d.senderKey] == d.sender
    && (d.senderKey, OriginBody(DraftOrigin(d))) in w.log
    && d.recipient == r.reader.user && d.fileId == r.fileId && d.plain == r.plain
    && r.payload.ciphertext == Some(Ciphertext(d)) && r.payload.wrappedKey == Some(WrappedKey(d))
  }

  lemma ReceiptSent(cfg: Config, owners: Owners, w: World, r: Receipt) returns (d: Draft)
    requires WorldOk(cfg, owners, w) && r in w.receipts
    requires r.payload.sender.Text? && r.payload.sender.text in owners.Values
    ensures SentBy(w, owners, d, r)
  {
    hide Inv, ServerKnown;
    assert ReceiptOk(cfg, owners, w, r);
    var cert, o := r.payload.senderCert.value, ClaimedOrigin(r.reader, r.payload, r.fileId);
    var key := cert.claims.key;
    CertifiedKey(cfg, owners, w, cert);
    KnownSignature(key, OriginBody(o), r.payload.signature.value, Honest(cfg, owners), w.log);
    assert Accounted(cfg, owners, w, key, OriginBody(o));
    d :| d in w.drafts && d.senderKey == key && DraftOrigin(d) == o;
    AcceptedIsDrafted(d, r.reader, r.payload, r.fileId, r.now);
  }

  /** Whatever the server and the network do: a plaintext that an honest reader accepts from an
      honest claimed sender was encrypted by this sender for this reader under this file id, and the
      sender signed exactly the received bytes. */
  lemma ReceiptAgrees(cfg: Config, owners: Owners, acts: seq<Act>, r: Receipt)
    requires cfg.ca !in owners && r in AfterActs(cfg, owners, acts).receipts
    requires r.payload.sender.Text? && r.payload.sender.text in owners.Values
    ensures exists d :: SentBy(AfterActs(cfg, owners, acts), owners, d, r)
  {
    WorldHolds(cfg, owners, acts);
    var d := ReceiptSent(cfg, owners, AfterActs(cfg, owners, acts), r);
  }

  /** The recipient's client verified and decrypted this file. */
  ghost predicate ReceivedBy(w: World, cfg: Config, owners: Owners, r: Receipt, f: FileId, recipient: User) {
    && r in w.receipts && r.fileId == f && r.reader.user == recipient
    && r.reader.key in owners && owners[r.reader.key] == recipient && r.reader.ca == cfg.ca
    && VerifyAndDecrypt(r.reader, r.payload, f, r.now) == Ok(r.plain)
  }

  /** The certificate behind a stored ack was issued by the CA and delivered to the server. */
  lemma AckCertificate(cfg: Config, owners: Owners, y: System, log: SigLog, f: FileId, recipient: User) returns (cert: Cert)
    requires HistoryOk(cfg.ca, y.shared.history) && ServerKnown(cfg, owners, y, log) && f in y.shared.acks
    requires AckExplained(f, y.shared.acks[f], recipient, y.shared.history.certs)
    ensures CaSigned(cfg.ca, cert) && KnownCert(cert, Honest(cfg, owners), log) && cert.claims.subject == recipient
    ensures VerifyAck(cert, y.shared.acks[f].ackSignature, f, y.shared.acks[f].ackTime)
    ensures Known(y.shared.acks[f].ackSignature, Honest(cfg, owners), log)
  {
    cert :| cert in y.shared.history.certs && cert.Cert? && cert.claims.subject == recipient
            && VerifyAck(cert, y.shared.acks[f].ackSignature, f, y.shared.acks[f].ackTime);
  }

  /** A known ack signed under a certificate of an honest user was sent by that user's client. */
  lemma SignedAckReceived(cfg: Config, owners: Owners, w: World, cert: Cert, signature: Bytes, f: FileId, timestamp: int)
    returns (r: Receipt)
    requires LogOk(cfg, owners, w) && forall x | x in w.receipts :: ReceiptOk(cfg, owners, w, x)
    requires CaSigned(cfg.ca, cert) && KnownCert(cert, Honest(cfg, owners), w.log) && cert.claims.subject in owners.Values
    requires VerifyAck(cert, signature, f, timestamp) && Known(signature, Honest(cfg, owners), w.log)
    ensures ReceivedBy(w, cfg, owners, r, f, cert.claims.subject)
  {
    hide VerifyAndDecrypt;
    CertifiedKey(cfg, owners, w, cert);
    KnownSignature(cert.claims.key, AckBody(f, timestamp), signature, Honest(cfg, owners), w.log);
    assert Accounted(cfg, owners, w, cert.claims.key, AckBody(f, timestamp));
    r :| r in w.receipts && r.reader.key == cert.claims.key && r.fileId == f;
    assert ReceiptOk(cfg, owners, w, r);
  }

  /** In every run a file marked 'downloaded' for an honest recipient was verified and decrypted by
      that recipient's client, and if the sender it named is honest, the plaintext is the one that
      this sender encrypted, signed and addressed to this recipient under this file id. */
  lemma DownloadedMeansDelivered(cfg: Config, owners: Owners, acts: seq<Act>, f: FileId) returns (r: Receipt)
    requires cfg.ca !in owners
    requires var d := AfterActs(cfg, owners, acts).y.shared;
             f in d.files && d.files[f].status.Downloaded? && d.files[f].recipient in owners.Values
    ensures var w := AfterActs(cfg, owners, acts);
            && ReceivedBy(w, cfg, owners, r, f, w.y.shared.files[f].recipient)
            && (r.payload.sender.Text? && r.payload.sender.text in owners.Values ==> exists d :: SentBy(w, owners, d, r))
  {
    WorldHolds(cfg, owners, acts);
    var w := AfterActs(cfg, owners, acts);
    var d := w.y.shared;
    assert RowOk(cfg.ca, f, d.files[f], d.acks, d.disk.blob.Keys, d.history);
    assert AckExplained(f, d.acks[f], d.files[f].recipient, d.history.certs);
    var cert := AckCertificate(cfg, owners, w.y, w.log, f, d.files[f].recipient);
    hide Perform, Inv, ServerKnown, VerifyAndDecrypt, VerifyAck;
    r := SignedAckReceived(cfg, owners, w, cert, d.acks[f].ackSignature, f, d.acks[f].ackTime);
    if r.payload.sender.Text? && r.payload.sender.text in owners.Values {
      ReceiptAgrees(cfg, owners, acts, r);
    }
  }

  /** A known revoke proof under a certificate of an honest user was asked for by that user. */
  lemma SignedRevokeAsked(cfg: Config, owners: Owners, w: World, p: RevokeProof) returns (r: Recall)
    requires LogOk(cfg, owners, w) && KnownCert(p.cert, Honest(cfg, owners), w.log) && Known(p.signature, Honest(cfg, owners), w.log)
    requires CaSigned(cfg.ca, p.cert) && p.cert.claims.subject in owners.Values
    requires VerifyRevoke(p.cert, p.signature, p.cert.claims.subject, p.fileId, p.timestamp)
    ensures r in w.recalls && r.fileId == p.fileId && r.key in owners && owners[r.key] == p.cert.claims.subject
  {
    CertifiedKey(cfg, owners, w, p.cert);
    KnownSignature(p.cert.claims.key, RevokeBody(p.cert.claims.subject, p.fileId, p.timestamp), p.signature, Honest(cfg, owners), w.log);
    r := Recall(p.cert.claims.key, p.fileId, p.timestamp);
    assert Accounted(cfg, owners, w, r.key, RevokeBody(p.cert.claims.subject, p.fileId, p.timestamp));
  }

  lemma RevokeProofKnown(cfg: Config, owners: Owners, w: World, p: RevokeProof)
    requires WorldOk(cfg, owners, w) && p in w.y.shared.history.revokes
    ensures KnownCert(p.cert, Honest(cfg, owners), w.log) && Known(p.signature, Honest(cfg, owners), w.log)
    ensures CaSigned(cfg.ca, p.cert)
    ensures VerifyRevoke(p.cert, p.signature, p.cert.claims.subject, p.fileId, p.timestamp)
  {
    hide LogOk, VerifyRevoke, Known, KnownCert, RowsOk, AcksOk, DiskOk;
    assert HistoryOk(cfg.ca, w.y.shared.history);
  }

  /** In every run a file of an honest sender is marked 'revoked' only if that sender's client asked
      for it, whatever the network sends. */
  lemma RevokedMeansAsked(cfg: Config, owners: Owners, acts: seq<Act>, f: FileId)
    requires cfg.ca !in owners
    requires var d := AfterActs(cfg, owners, acts).y.shared;
             f in d.files && d.files[f].status.Revoked? && d.files[f].sender in owners.Values
    ensures var w := AfterActs(cfg, owners, acts);
            exists r :: r in w.recalls && r.fileId == f && r.key in owners && owners[r.key] == w.y.shared.files[f].sender
  {
    WorldHolds(cfg, owners, acts);
    var w := AfterActs(cfg, owners, acts);
    var d := w.y.shared;
    assert RowOk(cfg.ca, f, d.files[f], d.acks, d.disk.blob.Keys, d.history);
    var p :| p in d.history.revokes && p.fileId == f && p.cert.Cert? && p.cert.claims.subject == d.files[f].sender;
    RevokeProofKnown(cfg, owners, w, p);
    hide Perform, Inv, ServerKnown, RowOk, VerifyRevoke;
    var r := SignedRevokeAsked(cfg, owners, w, p);
  }
}

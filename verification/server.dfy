/**
The server object: a database connection and the blob directory, changed step by step by one
method per handler, by the connection loop and by the cleanup loop.
*/
module Server {
  import opened Wrappers
  import opened Crypto
  import opened Replay
  import opened Store
  import opened FileCrypto
  import opened Messages
  import opened HandlerSpec

  /** The state after a session's envelopes, up to the one whose handler drops the connection. */
  function Serve(cfg: Config, s: State, ses: Session, mail: seq<(Envelope, Ambient)>): (State, seq<Reply>)
    decreases mail
  {
    if mail == [] then (s, []) else
      var o := Handle(cfg, s, ses, mail[0].0, mail[0].1);
      if o.reply.Dropped? then (o.state, [Dropped]) else
        var rest := Serve(cfg, o.state, ses, mail[1..]);
        (rest.0, [o.reply] + rest.1)
  }

  function Passes(s: State, ticks: seq<Tick>): State
    decreases ticks
  {
    if ticks == [] then s else Passes(CleanupPass(s, ticks[0]), ticks[1..])
  }

  class Server {
    const cfg: Config
    const db: Database
    var blobs: map<FileId, Bytes>

    constructor (cfg: Config)
      ensures this.cfg == cfg && fresh(db) && View() == EmptyState
    {
      this.cfg := cfg;
      blobs := map[];
      db := new Database();
    }

    ghost function View(): State
      reads this, db
    {
      State(db.files, db.acks, db.seen, blobs)
    }

    method HandleGetPubkey(username: Field, c: Ambient) returns (reply: Reply)
      ensures forall ses: Session :: Outcome(View(), reply) == Dispatch(cfg, View(), ses, GetPubkey(username), c)
    {
      if !username.Text? {
        return Error(NOT_FOUND);
      }
      var cert := LookupCert(cfg, username.text, c.lookup);
      if cert.None? {
        return Error(NOT_FOUND);
      }
      return Send(cfg, PubkeyResponse(cert.value));
    }

    method HandleListPending(ses: Session, c: Ambient) returns (reply: Reply)
      ensures reply == Dispatch(cfg, View(), ses, Request.ListPending, c).reply
    {
      var rows := ListPendingFor(db.files, ses.subject, c.check);
      var todo, entries := rows, {};
      while todo != {}
        invariant todo <= rows <= db.files.Keys
        invariant entries == set f | f in rows && f !in todo :: PendingEntry(View(), f, c.diskOk)
        decreases todo
      {
        var f :| f in todo;
        var row := db.files[f];
        var size := if c.diskOk && f in blobs then Some(Width(blobs[f])) else None;
        entries := entries + {Entry(f, row.sender, row.uploadTime, row.expiration, size)};
        assert PendingEntry(View(), f, c.diskOk) in entries;
        todo := todo - {f};
      }
      assert entries == PendingEntries(View(), ses.subject, c.check, c.diskOk);
      return Send(cfg, PendingList(entries));
    }

    method HandleUploadRequest(ses: Session, p: Package, c: Ambient) returns (reply: Reply)
      modifies this, db
      ensures Outcome(View(), reply) == HandleUpload(cfg, old(View()), ses, p, c)
    {
      if !VerifyCertificate(ses.cert, cfg.ca, c.check, Some(ses.subject)) {
        return Error(AUTH_FAILED);
      }
      if !ValidPackage(p) {
        return Error(MALFORMED);
      }
      var f, ciphertext := p.fileId.text, p.ciphertext.value;
      var o := PackageOrigin(ses.subject, p);
      if !VerifyOrigin(ses.cert, p.signature.value, o) {
        return Error(AUTH_FAILED);
      }
      var recipientCert := LookupCert(cfg, o.recipient, c.lookup);
      if recipientCert.None? {
        return Error(NOT_FOUND);
      }
      if !c.diskOk {
        return Error(INTERNAL_ERROR);
      }
      blobs := blobs[f := ciphertext];
      var row := Row(ses.subject, o.recipient, o.timestamp, o.expiration, Pending, o.ciphertextSha,
                     p.wrappedKey.value, p.aesNonce.value, Aad(f, ses.subject, o.recipient), p.signature.value,
                     ses.cert);
      var ok := db.InsertFile(f, row);
      if !ok {
        return Dropped;
      }
      return UploadAck(f, o.expiration);
    }

    /** Returns the row to serve, or the error code to send. */
    method AuthoriseDownload(ses: Session, f: FileId, now: int) returns (r: Result<Row, Code>)
      modifies db`files
      ensures f !in old(db.files) ==> r == Err(NOT_FOUND) && db.files == old(db.files)
      ensures f in old(db.files) ==>
                && db.files == (if ExpiresOnDownload(old(db.files)[f], ses.subject, now)
                                then MarkStatus(old(db.files), f, Expired) else old(db.files))
                && r == match DownloadRefusal(old(db.files)[f], ses.subject, now)
                        case None => Ok(old(db.files)[f])
                        case Some(code) => Err(code)
    {
      var found := db.GetFile(f);
      if found.None? {
        return Err(NOT_FOUND);
      }
      var row := found.value;
      if row.recipient != ses.subject {
        return Err(AUTH_FAILED);
      }
      if row.expiration <= now {
        if row.status == Pending {
          db.SetStatus(f, Expired);
        }
        return Err(EXPIRED);
      }
      match row.status
      case Pending => return Ok(row);
      case Expired => return Err(EXPIRED);
      case Revoked => return Err(REVOKED);
      case Downloaded => return Err(ALREADY_DOWNLOADED);
    }

    method HandleDownloadRequest(ses: Session, fileId: Field, c: Ambient) returns (reply: Reply)
      modifies db`files
      ensures Outcome(View(), reply) == HandleDownload(cfg, old(View()), ses, fileId, c)
    {
      if fileId.Missing? {
        return Error(MALFORMED);
      }
      if fileId.Unbindable? {
        return Dropped;
      }
      if fileId.Scalar? {
        return Error(NOT_FOUND);
      }
      var f := fileId.text;
      var access := AuthoriseDownload(ses, f, c.check);
      if access.Err? {
        return Error(access.error);
      }
      if f !in blobs || !c.diskOk {
        return Error(INTERNAL_ERROR);
      }
      return Send(cfg, DownloadResponse(ResponseFor(f, access.value, blobs[f])));
    }

    method HandleDownloadAck(ses: Session, n: Notice, c: Ambient) returns (reply: Reply)
      modifies db
      ensures Outcome(View(), reply) == HandleAck(cfg, old(View()), ses, n, c)
    {
      if !ValidNotice(n) {
        return Error(MALFORMED);
      }
      var f := n.fileId.text;
      var found := db.GetFile(f);
      if found.None? {
        return Error(NOT_FOUND);
      }
      if found.value.recipient != ses.subject {
        return Error(NOT_AUTHORIZED);
      }
      if !SenderCertOk(cfg, ses, c.check) || !VerifyAck(ses.cert, n.signature.value, f, n.timestamp.value) {
        return Error(AUTH_FAILED);
      }
      var stored := db.AddAck(f, AckRow(n.signature.value, n.timestamp.value));
      if !stored {
        return Dropped;
      }
      db.SetStatus(f, Downloaded);
      return AckOk(f);
    }

    method HandleRevokeRequest(ses: Session, n: Notice, c: Ambient) returns (reply: Reply)
      modifies db`files
      ensures Outcome(View(), reply) == HandleRevoke(cfg, old(View()), ses, n, c)
    {
      if !ValidNotice(n) {
        return Error(MALFORMED);
      }
      var f := n.fileId.text;
      var found := db.GetFile(f);
      if found.None? {
        return Error(NOT_FOUND);
      }
      var row := found.value;
      if row.sender != ses.subject {
        return Error(NOT_AUTHORIZED);
      }
      if !SenderCertOk(cfg, ses, c.check) {
        return Error(AUTH_FAILED);
      }
      if !VerifyRevoke(ses.cert, n.signature.value, ses.subject, f, n.timestamp.value) {
        return Error(AUTH_FAILED);
      }
      if row.status == Revoked {
        return RevokeAck(f);
      }
      if row.status == Downloaded {
        return Error(ALREADY_DOWNLOADED);
      }
      if row.status == Expired {
        return Error(EXPIRED);
      }
      db.SetStatus(f, Revoked);
      return RevokeAck(f);
    }

    /** One envelope: the replay cache for the four guarded types, then the handler. */
    method HandleEnvelope(ses: Session, e: Envelope, c: Ambient) returns (reply: Reply)
      modifies this, db
      ensures Outcome(View(), reply) == Handle(cfg, old(View()), ses, e, c)
    {
      if Guarded(e.request) {
        var ok := db.CheckAndRecord(e.nonce, e.timestamp, c.replay);
        if !ok {
          return Error(STALE);
        }
      }
      match e.request
      case GetPubkey(username) => reply := HandleGetPubkey(username, c);
      case ListPending => reply := HandleListPending(ses, c);
      case Upload(p) => reply := HandleUploadRequest(ses, p, c);
      case Download(fileId) => reply := HandleDownloadRequest(ses, fileId, c);
      case DownloadAck(n) => reply := HandleDownloadAck(ses, n, c);
      case Revoke(n) => reply := HandleRevokeRequest(ses, n, c);
      case OtherType => reply := Error(MALFORMED);
    }

    /** The loop of serve_connection after the handshake; the mail ends where the peer closes. */
    method ServeConnection(ses: Session, mail: seq<(Envelope, Ambient)>) returns (replies: seq<Reply>)
      modifies this, db
      ensures (View(), replies) == Serve(cfg, old(View()), ses, mail)
    {
      replies := [];
      var i := 0;
      assert mail[0..] == mail;
      assert forall later: seq<Reply> :: replies + later == later;
      while i < |mail|
        invariant 0 <= i <= |mail|
        invariant var rest := Serve(cfg, View(), ses, mail[i..]);
                  Serve(cfg, old(View()), ses, mail) == (rest.0, replies + rest.1)
      {
        ghost var before := View();
        var reply := HandleEnvelope(ses, mail[i].0, mail[i].1);
        assert mail[i..][0] == mail[i] && mail[i..][1..] == mail[i + 1..];
        ghost var sent := replies;
        replies := replies + [reply];
        if reply.Dropped? {
          return;
        }
        i := i + 1;
        assert forall later: seq<Reply> :: sent + ([reply] + later) == replies + later;
      }
      assert mail[i..] == [] && replies + [] == replies;
    }

    method RunCleanupPass(t: Tick) returns (nonces: nat, expired: nat)
      modifies db
      ensures View() == CleanupPass(old(View()), t)
      ensures nonces == |old(db.seen)| - |db.seen|
      ensures expired == |set f | f in old(db.files) && db.files[f] != old(db.files)[f]|
    {
      nonces, expired := 0, 0;
      assert (set f | f in old(db.files) && db.files[f] != old(db.files)[f]) == {};
      if t.purgeOk {
        nonces := db.PurgeOldNonces(t.purgeNow);
        if t.markOk {
          expired := db.ExpirePending(t.now);
        }
      }
    }

    /** _cleanup_loop: a pass that fails part way is logged and the loop goes on. */
    method CleanupLoop(ticks: seq<Tick>)
      modifies db
      ensures View() == Passes(old(View()), ticks)
    {
      var i := 0;
      while i < |ticks|
        invariant 0 <= i <= |ticks|
        invariant Passes(old(View()), ticks) == Passes(View(), ticks[i..])
      {
        assert ticks[i..][0] == ticks[i] && ticks[i..][1..] == ticks[i + 1..];
        var nonces, expired := RunCleanupPass(ticks[i]);
        i := i + 1;
      }
    }
  }
}

/**
What each handler of server/handler.py does to the whole server state when nothing runs beside
it. The methods of class Server are proved against these functions; the lemmas about runs
are proved about them.
*/
module HandlerSpec {
  import opened Wrappers
  import opened Crypto
  import opened Replay
  import opened Store
  import opened FileCrypto
  import opened Messages

  datatype State = State(files: Files, acks: Acks, seen: Table, blobs: map<FileId, Bytes>)

  const EmptyState := State(map[], map[], map[], map[])

  datatype Outcome = Outcome(state: State, reply: Reply)

  function UploadedRow(ses: Session, p: Package): Row
    requires ValidPackage(p)
  {
    var o := PackageOrigin(ses.subject, p);
    Row(ses.subject, o.recipient, o.timestamp, o.expiration, Pending, o.ciphertextSha, p.wrappedKey.value,
        p.aesNonce.value, Aad(o.fileId, ses.subject, o.recipient), p.signature.value, ses.cert)
  }

  /** The error that refuses an upload before anything is written. */
  function UploadRefusal(cfg: Config, ses: Session, p: Package, c: Ambient): Option<Code> {
    if !SenderCertOk(cfg, ses, c.check) then Some(AUTH_FAILED)
    else if !ValidPackage(p) then Some(MALFORMED)
    else if !VerifyOrigin(ses.cert, p.signature.value, PackageOrigin(ses.subject, p)) then Some(AUTH_FAILED)
    else if LookupCert(cfg, p.recipient.text, c.lookup).None? then Some(NOT_FOUND)
    else if !c.diskOk then Some(INTERNAL_ERROR)
    else None
  }

  /** The blob is replaced before the row is inserted, so a refused INSERT leaves the new blob. */
  function HandleUpload(cfg: Config, s: State, ses: Session, p: Package, c: Ambient): Outcome {
    var refusal := UploadRefusal(cfg, ses, p, c);
    if refusal.Some? then Outcome(s, Error(refusal.value)) else
      var f := p.fileId.text;
      var row := UploadedRow(ses, p);
      var written := s.(blobs := s.blobs[f := p.ciphertext.value]);
      if CanInsertFile(s.files, f, row)
      then Outcome(written.(files := s.files[f := row]), UploadAck(f, row.expiration))
      else Outcome(written, Dropped)
  }

  function PendingEntry(s: State, f: FileId, diskOk: bool): Entry
    requires f in s.files
  {
    var row := s.files[f];
    Entry(f, row.sender, row.uploadTime, row.expiration,
          if diskOk && f in s.blobs then Some(Width(s.blobs[f])) else None)
  }

  function PendingEntries(s: State, recipient: User, now: int, diskOk: bool): set<Entry> {
    set f | f in ListPendingFor(s.files, recipient, now) :: PendingEntry(s, f, diskOk)
  }

  /** The refusal of _authorise_download, or None when the row may be served. */
  function DownloadRefusal(row: Row, requester: User, now: int): Option<Code> {
    if row.recipient != requester then Some(AUTH_FAILED)
    else if row.expiration <= now then Some(EXPIRED)
    else match row.status
      case Pending => None
      case Expired => Some(EXPIRED)
      case Revoked => Some(REVOKED)
      case Downloaded => Some(ALREADY_DOWNLOADED)
  }

  /** The opportunistic expiry write of a download. */
  predicate ExpiresOnDownload(row: Row, requester: User, now: int) {
    row.recipient == requester && row.expiration <= now && row.status == Pending
  }

  function ResponseFor(f: FileId, row: Row, ciphertext: Bytes): Response {
    Response(f, row.sender, row.uploadTime, row.expiration, ciphertext, row.wrappedKey, row.aesNonce, row.aad,
             row.signature, row.senderCert)
  }

  function DownloadRow(cfg: Config, s: State, ses: Session, f: FileId, c: Ambient): Outcome
    requires f in s.files
  {
    var row := s.files[f];
    var refusal := DownloadRefusal(row, ses.subject, c.check);
    if ExpiresOnDownload(row, ses.subject, c.check)
    then Outcome(s.(files := MarkStatus(s.files, f, Expired)), Error(EXPIRED))
    else if refusal.Some? then Outcome(s, Error(refusal.value))
    else if !c.diskOk || f !in s.blobs then Outcome(s, Error(INTERNAL_ERROR))
    else Outcome(s, Send(cfg, DownloadResponse(ResponseFor(f, row, s.blobs[f]))))
  }

  function HandleDownload(cfg: Config, s: State, ses: Session, fileId: Field, c: Ambient): Outcome {
    match fileId
    case Missing => Outcome(s, Error(MALFORMED))
    case Unbindable => Outcome(s, Dropped)
    case Scalar => Outcome(s, Error(NOT_FOUND))
    case Text(f) => if f in s.files then DownloadRow(cfg, s, ses, f, c) else Outcome(s, Error(NOT_FOUND))
  }

  function HandleAck(cfg: Config, s: State, ses: Session, n: Notice, c: Ambient): Outcome {
    if !ValidNotice(n) then Outcome(s, Error(MALFORMED)) else
      var f := n.fileId.text;
      if f !in s.files then Outcome(s, Error(NOT_FOUND))
      else if s.files[f].recipient != ses.subject then Outcome(s, Error(NOT_AUTHORIZED))
      else if !SenderCertOk(cfg, ses, c.check) then Outcome(s, Error(AUTH_FAILED))
      else if !VerifyAck(ses.cert, n.signature.value, f, n.timestamp.value) then Outcome(s, Error(AUTH_FAILED))
      else if !FitsSqlite(n.timestamp.value) then Outcome(s, Dropped)
      else Outcome(s.(acks := InsertAck(s.acks, f, AckRow(n.signature.value, n.timestamp.value)),
                      files := MarkStatus(s.files, f, Downloaded)),
                   AckOk(f))
  }

  function HandleRevoke(cfg: Config, s: State, ses: Session, n: Notice, c: Ambient): Outcome {
    if !ValidNotice(n) then Outcome(s, Error(MALFORMED)) else
      var f := n.fileId.text;
      if f !in s.files then Outcome(s, Error(NOT_FOUND))
      else if s.files[f].sender != ses.subject then Outcome(s, Error(NOT_AUTHORIZED))
      else if !SenderCertOk(cfg, ses, c.check) then Outcome(s, Error(AUTH_FAILED))
      else if !VerifyRevoke(ses.cert, n.signature.value, ses.subject, f, n.timestamp.value)
      then Outcome(s, Error(AUTH_FAILED))
      else match s.files[f].status
        case Revoked => Outcome(s, RevokeAck(f))
        case Downloaded => Outcome(s, Error(ALREADY_DOWNLOADED))
        case Expired => Outcome(s, Error(EXPIRED))
        case Pending => Outcome(s.(files := MarkStatus(s.files, f, Revoked)), RevokeAck(f))
  }

  /** These requests pass the replay cache before anything else. */
  predicate Guarded(r: Request) {
    r.Upload? || r.Download? || r.DownloadAck? || r.Revoke?
  }

  function Dispatch(cfg: Config, s: State, ses: Session, r: Request, c: Ambient): Outcome {
    match r
    case GetPubkey(username) =>
      var cert := if username.Text? then LookupCert(cfg, username.text, c.lookup) else None;
      Outcome(s, if cert.Some? then Send(cfg, PubkeyResponse(cert.value)) else Error(NOT_FOUND))
    case ListPending => Outcome(s, Send(cfg, PendingList(PendingEntries(s, ses.subject, c.check, c.diskOk))))
    case Upload(p) => HandleUpload(cfg, s, ses, p, c)
    case Download(fileId) => HandleDownload(cfg, s, ses, fileId, c)
    case DownloadAck(n) => HandleAck(cfg, s, ses, n, c)
    case Revoke(n) => HandleRevoke(cfg, s, ses, n, c)
    case OtherType => Outcome(s, Error(MALFORMED))
  }

  predicate Admits(s: State, e: Envelope, now: int) {
    Guarded(e.request) ==> Accepts(s.seen, e.nonce, e.timestamp, now)
  }

  function Recorded(s: State, e: Envelope, now: int): State {
    if Guarded(e.request) then s.(seen := Record(s.seen, e.nonce, e.timestamp, now)) else s
  }

  function Handle(cfg: Config, s: State, ses: Session, e: Envelope, c: Ambient): Outcome {
    if !Admits(s, e, c.replay) then Outcome(s, Error(STALE))
    else Dispatch(cfg, Recorded(s, e, c.replay), ses, e.request, c)
  }

  /** server/cleanup.py: a failed purge skips the rest of the pass. */
  function CleanupPass(s: State, t: Tick): State {
    if !t.purgeOk then s else
      var purged := s.(seen := Purge(s.seen, t.purgeNow));
      if !t.markOk then purged else purged.(files := MarkExpired(s.files, t.now))
  }
}

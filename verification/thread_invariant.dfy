/**
What holds in every state that the interleaved server can reach, crashes included.
*/
module ThreadInvariant {
  import opened Wrappers
  import opened Crypto
  import opened Replay
  import opened Store
  import opened FileCrypto
  import opened Messages
  import opened HandlerSpec
  import opened Threads

  // ---------- Nothing is taken back ----------

  /** Rows are never removed or replaced, and a row that left 'pending' never returns to it. */
  ghost predicate KeepsRows(a: Files, b: Files) {
    forall f | f in a ::
      f in b && b[f] == a[f].(status := b[f].status) && (a[f].status != Pending ==> b[f].status != Pending)
  }

  ghost predicate KeepsAcks(a: Acks, b: Acks) {
    forall f | f in a :: f in b && b[f] == a[f]
  }

  ghost predicate KeepsHistory(a: History, b: History) {
    a.readings <= b.readings && a.certs <= b.certs && a.revokes <= b.revokes
  }

  ghost predicate KeepsDisk(a: Disk, b: Disk) {
    a.blob.Keys <= b.blob.Keys && a.inodes.Keys <= b.inodes.Keys
  }

  ghost predicate Extends(d: Shared, z: Shared) {
    KeepsRows(d.files, z.files) && KeepsAcks(d.acks, z.acks) && KeepsHistory(d.history, z.history) && KeepsDisk(d.disk, z.disk)
  }

  lemma ExtendsItself(d: Shared)
    ensures Extends(d, d)
  {
  }

  lemma MarkKeepsRows(files: Files, f: FileId, status: Status)
    requires status != Pending
    ensures KeepsRows(files, MarkStatus(files, f, status))
  {
  }

  lemma UploadExtends(cfg: Config, d: Shared, ses: Session, pc: Pc, now: int, chunk: nat, diskOk: bool)
    requires UploadPc(pc)
    ensures Extends(d, OnUpload(cfg, d, ses, pc, now, chunk, diskOk).shared)
  {
    ExtendsItself(d);
    hide KeepsAcks;
  }

  lemma DecideExtends(cfg: Config, d: Shared, ses: Session, e: Envelope, row: Row, now: int)
    ensures Extends(d, OnDecide(cfg, d, ses, e, row, now).shared)
  {
    ExtendsItself(d);
    hide KeepsRows, KeepsAcks, KeepsDisk;
  }

  lemma GoExtends(cfg: Config, d: Shared, ses: Session, pc: Pc, now: int, chunk: nat, diskOk: bool)
    ensures Extends(d, OnGo(cfg, d, ses, pc, now, chunk, diskOk).shared)
  {
    ExtendsItself(d);
    hide KeepsRows, KeepsDisk, OnUpload, OnDecide;
    if UploadPc(pc) {
      UploadExtends(cfg, d, ses, pc, now, chunk, diskOk);
    } else if AckPc(pc) {
      if pc.AckStored? {
        MarkKeepsRows(d.files, pc.e.request.notice.fileId.text, Downloaded);
      }
    } else {
      match pc
      case Held(e, row) => DecideExtends(cfg, d, ses, e, row, now);
      case Expiring(e, _) => MarkKeepsRows(d.files, FileOf(e), Expired);
      case Revoking(e, _) => MarkKeepsRows(d.files, FileOf(e), Status.Revoked);
      case _ =>
    }
  }

  lemma TickExtends(y: System, now: int, ok: bool)
    ensures Extends(y.shared, OnTick(y, now, ok).shared)
  {
    ExtendsItself(y.shared);
  }

  lemma NextExtends(cfg: Config, y: System, l: Label)
    ensures Extends(y.shared, Next(cfg, y, l).y.shared)
  {
    ExtendsItself(y.shared);
    hide KeepsRows, KeepsAcks, KeepsDisk, OnGo, OnTick;
    match l
    case Go(tid, now, chunk, diskOk) =>
      if tid in y.conns {
        GoExtends(cfg, y.shared, y.conns[tid].session, y.conns[tid].pc, now, chunk, diskOk);
      }
    case Tick(now, ok) => TickExtends(y, now, ok);
    case _ =>
  }

  // ---------- Where every row came from ----------

  predicate CaSigned(ca: Key, cert: Cert) {
    cert.Cert? && RsaVerify(ca, CertBody(cert.claims), cert.signature)
  }

  /** A stored row's signature, certificate, hashes and associated data verify together. */
  predicate ValidRow(ca: Key, f: FileId, row: Row) {
    && IsUuid(f) && ValidUsername(row.recipient)
    && CaSigned(ca, row.senderCert) && row.senderCert.claims.subject == row.sender
    && VerifyOrigin(row.senderCert, row.signature,
                    Origin(row.sender, row.recipient, f, row.ciphertextSha, [Sha(row.wrappedKey)], row.uploadTime, row.expiration))
    && row.aad == Aad(f, row.sender, row.recipient)
  }

  ghost predicate RevokedBy(f: FileId, sender: User, h: History) {
    exists proof :: proof in h.revokes && proof.fileId == f && proof.cert.Cert? && proof.cert.claims.subject == sender
  }

  ghost predicate PassedBy(expiration: int, h: History) {
    exists t :: t in h.readings && expiration <= t
  }

  /** A status other than 'pending' has its cause on record. */
  ghost predicate StatusExplained(f: FileId, row: Row, acks: Acks, h: History) {
    match row.status
    case Pending => true
    case Downloaded => f in acks
    case Revoked => RevokedBy(f, row.sender, h)
    case Expired => PassedBy(row.expiration, h)
  }

  ghost predicate RowOk(ca: Key, f: FileId, row: Row, acks: Acks, blobs: set<FileId>, h: History) {
    ValidRow(ca, f, row) && f in blobs && StatusExplained(f, row, acks, h)
  }

  ghost predicate RowsOk(ca: Key, files: Files, acks: Acks, blobs: set<FileId>, h: History) {
    forall f | f in files :: RowOk(ca, f, files[f], acks, blobs, h)
  }

  /** An acknowledgement was signed under an accepted certificate of the row's recipient. */
  ghost predicate AckExplained(f: FileId, ack: AckRow, recipient: User, certs: set<Cert>) {
    exists cert :: cert in certs && cert.Cert? && cert.claims.subject == recipient
                   && VerifyAck(cert, ack.ackSignature, f, ack.ackTime)
  }

  ghost predicate AcksOk(files: Files, acks: Acks, certs: set<Cert>) {
    forall f | f in acks :: f in files && AckExplained(f, acks[f], files[f].recipient, certs)
  }

  ghost predicate DiskOk(disk: Disk) {
    && (forall f | f in disk.blob :: (f, disk.blob[f]) in disk.inodes)
    && (forall f | f in disk.tmp :: (f, disk.tmp[f]) in disk.inodes)
  }

  ghost predicate HistoryOk(ca: Key, h: History) {
    && (forall cert | cert in h.certs :: CaSigned(ca, cert))
    && (forall p | p in h.revokes :: p.cert in h.certs && p.cert.Cert?
                                     && VerifyRevoke(p.cert, p.signature, p.cert.claims.subject, p.fileId, p.timestamp))
  }

  ghost predicate SharedOk(ca: Key, d: Shared) {
    && RowsOk(ca, d.files, d.acks, d.disk.blob.Keys, d.history)
    && AcksOk(d.files, d.acks, d.history.certs)
    && DiskOk(d.disk) && HistoryOk(ca, d.history)
  }

  // ---------- What a thread knows at each point ----------

  ghost predicate SessionOk(ses: Session, h: History) {
    ses.cert in h.certs && ses.cert.Cert? && ses.cert.claims.subject == ses.subject
  }

  /** The snapshot is of a stored row that the user of the session owns. */
  ghost predicate SnapshotOk(d: Shared, ses: Session, e: Envelope, row: Row) {
    var f := FileOf(e);
    && (e.request.Download? || e.request.DownloadAck? || e.request.Revoke?)
    && !BadNotice(e.request) && NamedField(e.request) == Text(f)
    && f in d.files && row == d.files[f].(status := row.status)
    && (row.status != Pending ==> d.files[f].status != Pending)
    && Owner(e, row) == ses.subject
  }

  ghost predicate PcOk(cfg: Config, d: Shared, ses: Session, pc: Pc) {
    match pc
    case Idle => true
    case Checked(e) => Guarded(e.request)
    case Held(e, row) => SnapshotOk(d, ses, e, row)
    case Expiring(e, row) =>
      SnapshotOk(d, ses, e, row) && e.request.Download? && row.status == Pending && PassedBy(row.expiration, d.history)
    case Serving(e, row) => SnapshotOk(d, ses, e, row) && e.request.Download? && row.status == Pending
    case Revoking(e, row) =>
      SnapshotOk(d, ses, e, row) && e.request.Revoke? && row.status == Pending && RevokedBy(FileOf(e), row.sender, d.history)
    case Acking(e) => AckPc(pc) && AckSigned(d, ses, e)
    case AckStored(e) => AckPc(pc) && AckSigned(d, ses, e) && e.request.notice.fileId.text in d.acks
    case Replaced(e) => UploadPc(pc) && UploadSigned(cfg, ses, e) && FileOf(e) in d.disk.blob
    case _ => UploadPc(pc) && UploadSigned(cfg, ses, pc.e)
  }

  ghost predicate AckSigned(d: Shared, ses: Session, e: Envelope) {
    && e.request.DownloadAck? && ValidNotice(e.request.notice)
    && var n := e.request.notice;
       && n.fileId.text in d.files && d.files[n.fileId.text].recipient == ses.subject
       && VerifyAck(ses.cert, n.signature.value, n.fileId.text, n.timestamp.value)
  }

  ghost predicate UploadSigned(cfg: Config, ses: Session, e: Envelope) {
    && e.request.Upload? && ValidPackage(e.request.package)
    && CaSigned(cfg.ca, ses.cert)
    && VerifyOrigin(ses.cert, e.request.package.signature.value, PackageOrigin(ses.subject, e.request.package))
  }

  ghost predicate ConnOk(cfg: Config, d: Shared, c: Conn) {
    SessionOk(c.session, d.history) && PcOk(cfg, d, c.session, c.pc)
  }

  ghost predicate CleanerOk(cleaner: Cleaner, h: History) {
    match cleaner
    case Asleep => true
    case Woken(now) => now in h.readings
    case Purged(now) => now in h.readings
  }

  ghost predicate Inv(cfg: Config, y: System) {
    && SharedOk(cfg.ca, y.shared)
    && (forall tid | tid in y.conns :: ConnOk(cfg, y.shared, y.conns[tid]))
    && CleanerOk(y.cleaner, y.shared.history)
  }

  // ---------- Preservation ----------

  lemma RevokesLast(f: FileId, sender: User, a: History, b: History)
    requires KeepsHistory(a, b) && RevokedBy(f, sender, a)
    ensures RevokedBy(f, sender, b)
  {
    var proof :| proof in a.revokes && proof.fileId == f && proof.cert.Cert? && proof.cert.claims.subject == sender;
    assert proof in b.revokes;
  }

  lemma PassedLasts(expiration: int, a: History, b: History)
    requires KeepsHistory(a, b) && PassedBy(expiration, a)
    ensures PassedBy(expiration, b)
  {
    var t :| t in a.readings && expiration <= t;
    assert t in b.readings;
  }

  lemma AckLasts(f: FileId, ack: AckRow, recipient: User, a: set<Cert>, b: set<Cert>)
    requires a <= b && AckExplained(f, ack, recipient, a)
    ensures AckExplained(f, ack, recipient, b)
  {
    var cert :| cert in a && cert.Cert? && cert.claims.subject == recipient && VerifyAck(cert, ack.ackSignature, f, ack.ackTime);
    assert cert in b;
  }

  /** The other threads' knowledge survives any operation. */
  lemma PcLasts(cfg: Config, a: Shared, b: Shared, ses: Session, pc: Pc)
    requires Extends(a, b) && PcOk(cfg, a, ses, pc)
    ensures PcOk(cfg, b, ses, pc)
  {
    match pc
    case Expiring(e, row) => PassedLasts(row.expiration, a.history, b.history);
    case Revoking(e, row) => RevokesLast(FileOf(e), row.sender, a.history, b.history);
    case _ =>
  }

  lemma RowLasts(ca: Key, f: FileId, row: Row, acks: Acks, blobs: set<FileId>, h: History,
                 acks': Acks, blobs': set<FileId>, h': History)
    requires RowOk(ca, f, row, acks, blobs, h) && KeepsAcks(acks, acks') && blobs <= blobs' && KeepsHistory(h, h')
    ensures RowOk(ca, f, row, acks', blobs', h')
  {
    if row.status.Revoked? {
      RevokesLast(f, row.sender, h, h');
    } else if row.status.Expired? {
      PassedLasts(row.expiration, h, h');
    }
  }

  lemma RowsLast(ca: Key, files: Files, acks: Acks, blobs: set<FileId>, h: History,
                 acks': Acks, blobs': set<FileId>, h': History)
    requires RowsOk(ca, files, acks, blobs, h) && KeepsAcks(acks, acks') && blobs <= blobs' && KeepsHistory(h, h')
    ensures RowsOk(ca, files, acks', blobs', h')
  {
    forall f | f in files
      ensures RowOk(ca, f, files[f], acks', blobs', h')
    {
      RowLasts(ca, f, files[f], acks, blobs, h, acks', blobs', h');
    }
  }

  lemma AcksLast(files: Files, files': Files, acks: Acks, certs: set<Cert>, certs': set<Cert>)
    requires AcksOk(files, acks, certs) && KeepsRows(files, files') && certs <= certs'
    ensures AcksOk(files', acks, certs')
  {
    forall f | f in acks
      ensures f in files' && AckExplained(f, acks[f], files'[f].recipient, certs')
    {
      AckLasts(f, acks[f], files[f].recipient, certs, certs');
    }
  }

  // The five kinds of write, one component at a time.

  lemma HistoryGrows(ca: Key, d: Shared, h: History)
    requires SharedOk(ca, d) && KeepsHistory(d.history, h) && HistoryOk(ca, h)
    ensures SharedOk(ca, d.(history := h)) && Extends(d, d.(history := h))
  {
    ExtendsItself(d);
    RowsLast(ca, d.files, d.acks, d.disk.blob.Keys, d.history, d.acks, d.disk.blob.Keys, h);
    AcksLast(d.files, d.files, d.acks, d.history.certs, h.certs);
  }

  lemma DiskChanges(ca: Key, d: Shared, disk: Disk)
    requires SharedOk(ca, d) && KeepsDisk(d.disk, disk) && DiskOk(disk)
    ensures SharedOk(ca, d.(disk := disk)) && Extends(d, d.(disk := disk))
  {
    ExtendsItself(d);
    RowsLast(ca, d.files, d.acks, d.disk.blob.Keys, d.history, d.acks, disk.blob.Keys, d.history);
  }

  lemma NoncesChange(ca: Key, d: Shared, seen: Table)
    requires SharedOk(ca, d)
    ensures SharedOk(ca, d.(seen := seen)) && Extends(d, d.(seen := seen))
  {
    ExtendsItself(d);
  }

  lemma FilesChange(ca: Key, d: Shared, files: Files)
    requires SharedOk(ca, d) && KeepsRows(d.files, files)
    requires forall f | f in files ::
               (f in d.files && files[f] == d.files[f]) || RowOk(ca, f, files[f], d.acks, d.disk.blob.Keys, d.history)
    ensures SharedOk(ca, d.(files := files)) && Extends(d, d.(files := files))
  {
    ExtendsItself(d);
    AcksLast(d.files, files, d.acks, d.history.certs, d.history.certs);
  }

  lemma AckAppears(ca: Key, d: Shared, f: FileId, ack: AckRow)
    requires SharedOk(ca, d) && f in d.files && AckExplained(f, ack, d.files[f].recipient, d.history.certs)
    ensures SharedOk(ca, d.(acks := InsertAck(d.acks, f, ack))) && Extends(d, d.(acks := InsertAck(d.acks, f, ack)))
  {
    hide RowsOk, DiskOk, HistoryOk, AckExplained;
    ExtendsItself(d);
    var acks := InsertAck(d.acks, f, ack);
    assert KeepsAcks(d.acks, acks) && AcksOk(d.files, acks, d.history.certs);
    RowsLast(ca, d.files, d.acks, d.disk.blob.Keys, d.history, acks, d.disk.blob.Keys, d.history);
  }
}

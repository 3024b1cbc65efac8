/**
Every operation of every thread keeps the invariant, so it holds in every reachable state of
the interleaved server; from it follow the provenance of statuses and the order of downloads
and terminal writes.
*/
module ThreadSafety {
  import opened Wrappers
  import opened Crypto
  import opened Replay
  import opened Store
  import opened FileCrypto
  import opened Messages
  import opened HandlerSpec
  import opened Threads
  import opened ThreadInvariant

  ghost predicate OpOk(cfg: Config, ses: Session, op: Op) {
    SharedOk(cfg.ca, op.shared) && (op.move.To? ==> PcOk(cfg, op.shared, ses, op.move.pc))
  }

  lemma ClockOk(ca: Key, d: Shared, now: int)
    requires SharedOk(ca, d)
    ensures SharedOk(ca, ReadClock(d, now)) && Extends(d, ReadClock(d, now))
  {
    HistoryGrows(ca, d, d.history.(readings := d.history.readings + {now}));
  }

  lemma ReceiveOk(cfg: Config, d: Shared, ses: Session, e: Envelope, now: int, diskOk: bool)
    requires SharedOk(cfg.ca, d)
    ensures OpOk(cfg, ses, OnReceive(cfg, d, ses, e, now, diskOk))
    ensures Extends(d, OnReceive(cfg, d, ses, e, now, diskOk).shared)
  {
    ClockOk(cfg.ca, d, now);
    NoncesChange(cfg.ca, ReadClock(d, now), Record(d.seen, e.nonce, e.timestamp, now));
  }

  lemma LookupOk(cfg: Config, d: Shared, ses: Session, e: Envelope)
    requires SharedOk(cfg.ca, d) && Guarded(e.request) && !e.request.Upload?
    ensures OpOk(cfg, ses, OnLookup(d, ses, e))
  {
    hide SharedOk;
  }

  lemma UploadChecksOk(cfg: Config, d: Shared, ses: Session, e: Envelope, now: int)
    requires SharedOk(cfg.ca, d) && e.request.Upload? && SessionOk(ses, d.history)
    ensures OpOk(cfg, ses, OnUploadChecks(cfg, d, ses, e, e.request.package, now))
  {
    ClockOk(cfg.ca, d, now);
  }

  lemma DecideDownloadOk(cfg: Config, d: Shared, ses: Session, e: Envelope, row: Row, now: int)
    requires SharedOk(cfg.ca, d) && e.request.Download? && SnapshotOk(d, ses, e, row)
    ensures OpOk(cfg, ses, OnDecideDownload(d, ses, e, row, now))
  {
    hide SharedOk;
    ClockOk(cfg.ca, d, now);
    assert SnapshotOk(ReadClock(d, now), ses, e, row);
    assert now in ReadClock(d, now).history.readings;
  }

  lemma DecideAckOk(cfg: Config, d: Shared, ses: Session, e: Envelope, row: Row, now: int)
    requires SharedOk(cfg.ca, d) && e.request.DownloadAck? && SnapshotOk(d, ses, e, row)
    ensures OpOk(cfg, ses, OnDecideAck(cfg, d, ses, e, e.request.notice, now))
  {
    hide SharedOk, SenderCertOk;
    ClockOk(cfg.ca, d, now);
  }

  lemma ProofRecorded(ca: Key, d: Shared, proof: RevokeProof)
    requires SharedOk(ca, d) && proof.cert in d.history.certs && proof.cert.Cert?
    requires VerifyRevoke(proof.cert, proof.signature, proof.cert.claims.subject, proof.fileId, proof.timestamp)
    ensures var h := d.history.(revokes := d.history.revokes + {proof});
            SharedOk(ca, d.(history := h)) && RevokedBy(proof.fileId, proof.cert.claims.subject, h)
  {
    var h := d.history.(revokes := d.history.revokes + {proof});
    HistoryGrows(ca, d, h);
    assert proof in h.revokes;
  }

  lemma DecideRevokeOk(cfg: Config, d: Shared, ses: Session, e: Envelope, row: Row, now: int)
    requires SharedOk(cfg.ca, d) && e.request.Revoke? && SnapshotOk(d, ses, e, row) && SessionOk(ses, d.history)
    ensures OpOk(cfg, ses, OnDecideRevoke(cfg, d, ses, e, e.request.notice, row, now))
  {
    hide SharedOk, SenderCertOk;
    ClockOk(cfg.ca, d, now);
    var n := e.request.notice;
    if VerifyRevoke(ses.cert, n.signature.value, ses.subject, n.fileId.text, n.timestamp.value) {
      ProofRecorded(cfg.ca, ReadClock(d, now), RevokeProof(n.fileId.text, ses.cert, n.signature.value, n.timestamp.value));
    }
  }

  lemma DecideOk(cfg: Config, d: Shared, ses: Session, e: Envelope, row: Row, now: int)
    requires SharedOk(cfg.ca, d) && SnapshotOk(d, ses, e, row) && SessionOk(ses, d.history)
    ensures OpOk(cfg, ses, OnDecide(cfg, d, ses, e, row, now))
  {
    hide SharedOk;
    match e.request
    case Download(_) => DecideDownloadOk(cfg, d, ses, e, row, now);
    case DownloadAck(_) => DecideAckOk(cfg, d, ses, e, row, now);
    case Revoke(_) => DecideRevokeOk(cfg, d, ses, e, row, now);
  }

  lemma MarkOk(cfg: Config, d: Shared, ses: Session, f: FileId, status: Status, reply: Reply)
    requires SharedOk(cfg.ca, d) && f in d.files && status != Pending
    requires StatusExplained(f, d.files[f].(status := status), d.acks, d.history)
    ensures OpOk(cfg, ses, OnMark(d, f, status, reply))
  {
    hide DiskOk, HistoryOk, AcksOk;
    MarkKeepsRows(d.files, f, status);
    assert RowOk(cfg.ca, f, d.files[f], d.acks, d.disk.blob.Keys, d.history);
    assert RowOk(cfg.ca, f, d.files[f].(status := status), d.acks, d.disk.blob.Keys, d.history);
    FilesChange(cfg.ca, d, MarkStatus(d.files, f, status));
  }

  lemma SignedAckExplained(d: Shared, ses: Session, e: Envelope)
    requires SessionOk(ses, d.history) && AckSigned(d, ses, e)
    ensures var n := e.request.notice;
            AckExplained(n.fileId.text, AckRow(n.signature.value, n.timestamp.value), d.files[n.fileId.text].recipient, d.history.certs)
  {
    var n := e.request.notice;
    assert ses.cert in d.history.certs && VerifyAck(ses.cert, n.signature.value, n.fileId.text, n.timestamp.value);
  }

  lemma StoreAckOk(cfg: Config, d: Shared, ses: Session, e: Envelope)
    requires SharedOk(cfg.ca, d) && SessionOk(ses, d.history) && AckSigned(d, ses, e)
    ensures OpOk(cfg, ses, OnAck(d, Acking(e)))
  {
    hide SharedOk, AckExplained;
    var n := e.request.notice;
    SignedAckExplained(d, ses, e);
    AckAppears(cfg.ca, d, n.fileId.text, AckRow(n.signature.value, n.timestamp.value));
  }

  lemma InsertOk(cfg: Config, d: Shared, ses: Session, f: FileId, p: Package)
    requires SharedOk(cfg.ca, d) && SessionOk(ses, d.history) && ValidPackage(p) && f == p.fileId.text && f in d.disk.blob
    requires CaSigned(cfg.ca, ses.cert) && VerifyOrigin(ses.cert, p.signature.value, PackageOrigin(ses.subject, p))
    ensures OpOk(cfg, ses, OnInsert(d, f, UploadedRow(ses, p)))
  {
    var row := UploadedRow(ses, p);
    assert RowOk(cfg.ca, f, row, d.acks, d.disk.blob.Keys, d.history);
    if f !in d.files {
      assert KeepsRows(d.files, d.files[f := row]);
      FilesChange(cfg.ca, d, d.files[f := row]);
    }
  }

  lemma OpenKeepsDisk(disk: Disk, f: FileId)
    requires DiskOk(disk)
    ensures DiskOk(OpenTmp(disk, f)) && KeepsDisk(disk, OpenTmp(disk, f))
  {
  }

  lemma WriteKeepsDisk(disk: Disk, f: FileId, gen: nat, at: nat, chunk: Bytes)
    requires DiskOk(disk)
    ensures DiskOk(WriteAt(disk, f, gen, at, chunk)) && KeepsDisk(disk, WriteAt(disk, f, gen, at, chunk))
  {
  }

  lemma RenameKeepsDisk(disk: Disk, f: FileId)
    requires DiskOk(disk) && f in disk.tmp
    ensures DiskOk(Rename(disk, f)) && KeepsDisk(disk, Rename(disk, f))
  {
  }

  lemma WriteOk(cfg: Config, d: Shared, ses: Session, e: Envelope, gen: nat, written: nat, chunk: nat, diskOk: bool)
    requires SharedOk(cfg.ca, d) && DiskOk(d.disk) && UploadSigned(cfg, ses, e)
    ensures OpOk(cfg, ses, OnWrite(d, e, e.request.package.fileId.text, e.request.package.ciphertext.value, gen, written, chunk, diskOk))
  {
    hide SharedOk, DiskOk, WriteAt;
    var f, data := e.request.package.fileId.text, e.request.package.ciphertext.value;
    if written < |data| {
      var upto := if written + chunk < |data| then written + chunk else |data|;
      WriteKeepsDisk(d.disk, f, gen, written, data[written..upto]);
      DiskChanges(cfg.ca, d, WriteAt(d.disk, f, gen, written, data[written..upto]));
    } else if f in d.disk.tmp {
      RenameKeepsDisk(d.disk, f);
      DiskChanges(cfg.ca, d, Rename(d.disk, f));
    }
  }

  lemma OpenOk(cfg: Config, d: Shared, ses: Session, e: Envelope, diskOk: bool)
    requires SharedOk(cfg.ca, d) && DiskOk(d.disk) && UploadSigned(cfg, ses, e)
    ensures OpOk(cfg, ses, OnOpen(d, e, e.request.package.fileId.text, diskOk))
  {
    hide SharedOk, DiskOk, OpenTmp;
    OpenKeepsDisk(d.disk, e.request.package.fileId.text);
    DiskChanges(cfg.ca, d, OpenTmp(d.disk, e.request.package.fileId.text));
  }

  lemma UploadOk(cfg: Config, d: Shared, ses: Session, pc: Pc, now: int, chunk: nat, diskOk: bool)
    requires SharedOk(cfg.ca, d) && SessionOk(ses, d.history) && UploadPc(pc) && PcOk(cfg, d, ses, pc)
    ensures OpOk(cfg, ses, OnUpload(cfg, d, ses, pc, now, chunk, diskOk))
  {
    assert DiskOk(d.disk);
    hide SharedOk, DiskOk;
    match pc
    case Replaced(e) => InsertOk(cfg, d, ses, e.request.package.fileId.text, e.request.package);
    case Signed(_) => ClockOk(cfg.ca, d, now);
    case Ready(e) => OpenOk(cfg, d, ses, e, diskOk);
    case Writing(e, gen, written) => WriteOk(cfg, d, ses, e, gen, written, chunk, diskOk);
  }

  lemma GoOk(cfg: Config, d: Shared, ses: Session, pc: Pc, now: int, chunk: nat, diskOk: bool)
    requires SharedOk(cfg.ca, d) && SessionOk(ses, d.history) && PcOk(cfg, d, ses, pc)
    ensures OpOk(cfg, ses, OnGo(cfg, d, ses, pc, now, chunk, diskOk))
  {
    hide SharedOk;
    if UploadPc(pc) {
      UploadOk(cfg, d, ses, pc, now, chunk, diskOk);
    } else if AckPc(pc) {
      if pc.Acking? {
        StoreAckOk(cfg, d, ses, pc.e);
      } else {
        var f := pc.e.request.notice.fileId.text;
        MarkOk(cfg, d, ses, f, Downloaded, AckOk(f));
      }
    } else {
      match pc
      case Checked(e) =>
        if e.request.Upload? {
          UploadChecksOk(cfg, d, ses, e, now);
        } else {
          LookupOk(cfg, d, ses, e);
        }
      case Held(e, row) => DecideOk(cfg, d, ses, e, row, now);
      case Expiring(e, row) => MarkOk(cfg, d, ses, FileOf(e), Expired, Error(EXPIRED));
      case Revoking(e, row) => MarkOk(cfg, d, ses, FileOf(e), Status.Revoked, RevokeAck(FileOf(e)));
      case Serving(e, row) =>
      case Idle =>
    }
  }

  lemma CleanerMarkOk(ca: Key, d: Shared, now: int)
    requires SharedOk(ca, d) && now in d.history.readings
    ensures SharedOk(ca, d.(files := MarkExpired(d.files, now)))
  {
    var files := MarkExpired(d.files, now);
    assert KeepsRows(d.files, files);
    assert RowsOk(ca, d.files, d.acks, d.disk.blob.Keys, d.history);
    hide SharedOk, ValidRow;
    forall f | f in files
      ensures files[f] == d.files[f] || RowOk(ca, f, files[f], d.acks, d.disk.blob.Keys, d.history)
    {
      OverdueRowOk(ca, f, d.files[f], d.acks, d.disk.blob.Keys, d.history, now);
    }
    FilesChange(ca, d, files);
  }

  lemma OverdueRowOk(ca: Key, f: FileId, row: Row, acks: Acks, blobs: set<FileId>, h: History, now: int)
    requires RowOk(ca, f, row, acks, blobs, h) && now in h.readings
    ensures row.expiration < now ==> RowOk(ca, f, row.(status := Expired), acks, blobs, h)
  {
  }

  lemma TickOk(cfg: Config, y: System, now: int, ok: bool)
    requires SharedOk(cfg.ca, y.shared) && CleanerOk(y.cleaner, y.shared.history)
    ensures SharedOk(cfg.ca, OnTick(y, now, ok).shared) && CleanerOk(OnTick(y, now, ok).cleaner, OnTick(y, now, ok).shared.history)
  {
    ClockOk(cfg.ca, y.shared, now);
    match y.cleaner
    case Asleep =>
    case Woken(_) => NoncesChange(cfg.ca, ReadClock(y.shared, now), Purge(y.shared.seen, now));
    case Purged(start) => CleanerMarkOk(cfg.ca, y.shared, start);
  }

  lemma ConnectOk(cfg: Config, y: System, tid: nat, cert: Cert, now: int)
    requires SharedOk(cfg.ca, y.shared)
    ensures SharedOk(cfg.ca, OnConnect(cfg, y, tid, cert, now).shared)
  {
    if VerifyCertificate(cert, cfg.ca, now, None) {
      HistoryGrows(cfg.ca, y.shared, y.shared.history.(certs := y.shared.history.certs + {cert}));
    }
  }

  lemma CleanerLasts(cleaner: Cleaner, a: History, b: History)
    requires CleanerOk(cleaner, a) && KeepsHistory(a, b)
    ensures CleanerOk(cleaner, b)
  {
  }

  /** What an operation leaves in the other threads, and in its own. */
  lemma LandOk(cfg: Config, y: System, tid: nat, op: Op)
    requires Inv(cfg, y) && tid in y.conns
    requires OpOk(cfg, y.conns[tid].session, op) && Extends(y.shared, op.shared)
    ensures Inv(cfg, Land(y, tid, op).y)
  {
    var z := Land(y, tid, op).y;
    forall t | t in z.conns
      ensures ConnOk(cfg, z.shared, z.conns[t])
    {
      assert ConnOk(cfg, y.shared, y.conns[t]);
      if t != tid {
        PcLasts(cfg, y.shared, z.shared, y.conns[t].session, y.conns[t].pc);
      }
    }
    CleanerLasts(y.cleaner, y.shared.history, z.shared.history);
  }

  lemma OthersOk(cfg: Config, y: System, z: System)
    requires Inv(cfg, y) && Extends(y.shared, z.shared)
    requires forall t | t in z.conns :: (t in y.conns && z.conns[t] == y.conns[t]) || ConnOk(cfg, z.shared, z.conns[t])
    ensures forall t | t in z.conns :: ConnOk(cfg, z.shared, z.conns[t])
  {
    forall t | t in z.conns
      ensures ConnOk(cfg, z.shared, z.conns[t])
    {
      if t in y.conns && z.conns[t] == y.conns[t] {
        assert ConnOk(cfg, y.shared, y.conns[t]);
        PcLasts(cfg, y.shared, z.shared, y.conns[t].session, y.conns[t].pc);
      }
    }
  }

  lemma NextOk(cfg: Config, y: System, l: Label)
    requires Inv(cfg, y)
    ensures Inv(cfg, Next(cfg, y, l).y)
  {
    hide SharedOk, Extends, OnGo, OnReceive;
    var d, z := y.shared, Next(cfg, y, l).y;
    NextExtends(cfg, y, l);
    match l
    case Receive(tid, e, now, diskOk) =>
      if tid in y.conns && y.conns[tid].pc.Idle? {
        ReceiveOk(cfg, d, y.conns[tid].session, e, now, diskOk);
        LandOk(cfg, y, tid, OnReceive(cfg, d, y.conns[tid].session, e, now, diskOk));
      }
    case Go(tid, now, chunk, diskOk) =>
      if tid in y.conns {
        var ses, pc := y.conns[tid].session, y.conns[tid].pc;
        assert ConnOk(cfg, d, y.conns[tid]);
        GoOk(cfg, d, ses, pc, now, chunk, diskOk);
        LandOk(cfg, y, tid, OnGo(cfg, d, ses, pc, now, chunk, diskOk));
      }
    case Connect(tid, cert, now) =>
      ConnectOk(cfg, y, tid, cert, now);
      OthersOk(cfg, y, z);
      CleanerLasts(y.cleaner, d.history, z.shared.history);
    case Tick(now, ok) =>
      TickOk(cfg, y, now, ok);
      OthersOk(cfg, y, z);
    case Disconnect(_) => OthersOk(cfg, y, z);
    case Crash => OthersOk(cfg, y, z);
  }

  lemma {:induction false} InvHolds(cfg: Config, ls: seq<Label>)
    ensures Inv(cfg, AfterOps(cfg, ls))
  {
    if ls != [] {
      InvHolds(cfg, ls[..|ls| - 1]);
      NextOk(cfg, AfterOps(cfg, ls[..|ls| - 1]), ls[|ls| - 1]);
    }
  }
}

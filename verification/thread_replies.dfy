/**
What a reply of the interleaved server stands for, at the moment it is sent and whatever the other
threads and the disk did meanwhile; and the cleanup thread left alone.
*/
module ThreadReplies {
  import opened Wrappers
  import opened Crypto
  import opened Replay
  import opened Store
  import opened FileCrypto
  import opened Messages
  import opened HandlerSpec
  import opened Threads
  import opened ThreadInvariant
  import opened ThreadSafety
  import opened ThreadTheorems

  /** A positive reply is backed by what is stored: an upload by its pending row and a blob, an
      acknowledgement by a stored ack and the status, a revoke by a verified revoke of a file that has
      left 'pending', a download by the row and the blob as they are. */
  ghost predicate Backed(d: Shared, z: Shared, user: User, reply: Reply) {
    match reply
    case UploadAck(f, expiration) =>
      && f !in d.files && f in z.files && f in z.disk.blob
      && z.files[f].sender == user && z.files[f].status == Pending && z.files[f].expiration == expiration
    case AckOk(f) => f in z.files && z.files[f].recipient == user && z.files[f].status == Downloaded && f in z.acks
    case RevokeAck(f) =>
      f in z.files && z.files[f].sender == user && z.files[f].status != Pending && RevokedBy(f, user, z.history)
    case DownloadResponse(r) =>
      && r.fileId in z.files && BlobOf(z.disk, r.fileId) == Some(r.ciphertext)
      && var row := z.files[r.fileId];
         && row.recipient == user && r.sender == row.sender && r.timestamp == row.uploadTime && r.expiration == row.expiration
         && r.wrappedKey == row.wrappedKey && r.aesNonce == row.aesNonce && r.aad == row.aad
         && r.signature == row.signature && r.senderCert == row.senderCert
    case _ => true
  }

  lemma UploadBacked(cfg: Config, d: Shared, ses: Session, pc: Pc, now: int, chunk: nat, diskOk: bool)
    requires UploadPc(pc) && PcOk(cfg, d, ses, pc)
    ensures var op := OnUpload(cfg, d, ses, pc, now, chunk, diskOk);
            op.move.Done? ==> Backed(d, op.shared, ses.subject, op.move.reply)
  {
    hide CaSigned, VerifyOrigin, LookupCert, OpenTmp, WriteAt, Rename;
  }

  lemma DecideRevokeBacked(cfg: Config, d: Shared, ses: Session, e: Envelope, row: Row, now: int)
    requires e.request.Revoke? && SnapshotOk(d, ses, e, row) && SessionOk(ses, d.history)
    ensures var op := OnDecideRevoke(cfg, d, ses, e, e.request.notice, row, now);
            op.move.Done? ==> Backed(d, op.shared, ses.subject, op.move.reply)
  {
    var n := e.request.notice;
    var op := OnDecideRevoke(cfg, d, ses, e, n, row, now);
    if op.move.Done? && op.move.reply.RevokeAck? {
      assert RevokeProof(n.fileId.text, ses.cert, n.signature.value, n.timestamp.value) in op.shared.history.revokes;
    }
  }

  lemma GoBacked(cfg: Config, d: Shared, ses: Session, pc: Pc, now: int, chunk: nat, diskOk: bool)
    requires SessionOk(ses, d.history) && PcOk(cfg, d, ses, pc)
    ensures var op := OnGo(cfg, d, ses, pc, now, chunk, diskOk);
            op.move.Done? ==> Backed(d, op.shared, ses.subject, op.move.reply)
  {
    hide OnUpload, OnDecideRevoke, RevokedBy, VerifyOrigin;
    if UploadPc(pc) {
      UploadBacked(cfg, d, ses, pc, now, chunk, diskOk);
    } else if pc.Held? && pc.e.request.Revoke? {
      DecideRevokeBacked(cfg, d, ses, pc.e, pc.row, now);
    }
  }

  lemma ReceiveBacked(cfg: Config, d: Shared, ses: Session, e: Envelope, now: int, diskOk: bool)
    ensures var op := OnReceive(cfg, d, ses, e, now, diskOk);
            op.move.Done? ==> Backed(d, op.shared, ses.subject, op.move.reply)
  {
    hide HandleUpload, HandleDownload, HandleAck, HandleRevoke;
  }

  /** The session of the thread that a label runs. */
  function SessionOf(y: System, l: Label): Option<Session> {
    match Runner(l)
    case Some(tid) => if tid in y.conns then Some(y.conns[tid].session) else None
    case None => None
  }

  /** In every run, every reply is backed at the step that sends it, and it goes to a connected session. */
  lemma RepliesAreBacked(cfg: Config, ls: seq<Label>, k: nat)
    requires k < |ls| && StepAt(cfg, ls, k).reply.Some?
    ensures var y := AfterOps(cfg, ls[..k]);
            && SessionOf(y, ls[k]).Some?
            && Backed(y.shared, StepAt(cfg, ls, k).y.shared, SessionOf(y, ls[k]).value.subject, StepAt(cfg, ls, k).reply.value)
  {
    InvHolds(cfg, ls[..k]);
    StepBacked(cfg, AfterOps(cfg, ls[..k]), ls[k]);
  }

  lemma StepBacked(cfg: Config, y: System, l: Label)
    requires Inv(cfg, y) && Next(cfg, y, l).reply.Some?
    ensures SessionOf(y, l).Some?
    ensures Backed(y.shared, Next(cfg, y, l).y.shared, SessionOf(y, l).value.subject, Next(cfg, y, l).reply.value)
  {
    hide SharedOk, OnGo, OnReceive, Backed, OnTick, OnConnect;
    match l
    case Go(tid, now, chunk, diskOk) =>
      assert ConnOk(cfg, y.shared, y.conns[tid]);
      GoBacked(cfg, y.shared, y.conns[tid].session, y.conns[tid].pc, now, chunk, diskOk);
    case Receive(tid, e, now, diskOk) => ReceiveBacked(cfg, y.shared, y.conns[tid].session, e, now, diskOk);
    case _ =>
  }

  // ---------- The cleanup thread and the accept loop ----------

  /** The cleanup thread without interference does one pass and sleeps again, failing where the pass fails. */
  lemma CleanerAloneIsPass(y: System, t: Messages.Tick)
    requires y.cleaner == Asleep
    ensures var woken := OnTick(y, t.now, true);
            var purged := OnTick(woken, t.purgeNow, t.purgeOk);
            var z := if t.purgeOk then OnTick(purged, t.purgeNow, t.markOk) else purged;
            StateOf(z.shared) == CleanupPass(StateOf(y.shared), t) && z.cleaner == Asleep && z.conns == y.conns
  {
  }

  /** A new connection is open after the handshake exactly if its certificate is in date and the CA's,
      and it then speaks for the certificate's subject. */
  lemma ConnectedIffCertified(cfg: Config, y: System, tid: nat, cert: Cert, now: int)
    requires tid !in y.conns
    ensures var z := Next(cfg, y, Connect(tid, cert, now)).y;
            && (tid in z.conns <==> VerifyCertificate(cert, cfg.ca, now, None))
            && (tid in z.conns ==> z.conns[tid] == Conn(Session(cert.claims.subject, cert), Idle))
            && z.shared.files == y.shared.files && z.shared.acks == y.shared.acks && z.shared.seen == y.shared.seen
  {
  }
}

/**
Theorems about every run of the interleaved server: any number of handlers and the cleanup
thread in flight, any clock, crashes anywhere.
*/
module ThreadTheorems {
  import opened Wrappers
  import opened Crypto
  import opened Replay
  import opened Store
  import opened FileCrypto
  import opened Messages
  import opened HandlerSpec
  import opened Threads
  import opened ThreadInvariant
  import opened ThreadSafety

  /** The step taken at position k of a run. */
  function StepAt(cfg: Config, ls: seq<Label>, k: nat): Effect
    requires k < |ls|
  {
    Next(cfg, AfterOps(cfg, ls[..k]), ls[k])
  }

  lemma AfterStep(cfg: Config, ls: seq<Label>, k: nat)
    requires k < |ls|
    ensures AfterOps(cfg, ls[..k + 1]) == StepAt(cfg, ls, k).y
  {
    assert ls[..k + 1][..k] == ls[..k];
  }

  lemma ExtendsTransitive(a: Shared, b: Shared, c: Shared)
    requires Extends(a, b) && Extends(b, c)
    ensures Extends(a, c)
  {
  }

  /** Along any run rows are never removed or replaced, a file that left 'pending' stays out of
      it, and the first acknowledgement of a file is never replaced. */
  lemma {:induction false} RunExtends(cfg: Config, ls: seq<Label>, i: nat, j: nat)
    requires i <= j <= |ls|
    ensures Extends(AfterOps(cfg, ls[..i]).shared, AfterOps(cfg, ls[..j]).shared)
  {
    if i == j {
      ExtendsItself(AfterOps(cfg, ls[..i]).shared);
    } else {
      RunExtends(cfg, ls, i, j - 1);
      AfterStep(cfg, ls, j - 1);
      NextExtends(cfg, AfterOps(cfg, ls[..j - 1]), ls[j - 1]);
      ExtendsTransitive(AfterOps(cfg, ls[..i]).shared, AfterOps(cfg, ls[..j - 1]).shared, AfterOps(cfg, ls[..j]).shared);
    }
  }

  // ---------- Provenance ----------

  /** In every reachable state: 'downloaded' has an ack signed under a certificate of the row's
      recipient, 'revoked' a revoke signed under one of its sender, 'expired' a clock reading at or
      past expiration, and every ack belongs to a row. */
  lemma StatusProvenance(cfg: Config, ls: seq<Label>, f: FileId)
    ensures var d := AfterOps(cfg, ls).shared;
            && (f in d.acks ==> f in d.files)
            && (f in d.acks ==> exists cert ::
                  cert in d.history.certs && CaSigned(cfg.ca, cert) && cert.claims.subject == d.files[f].recipient
                  && VerifyAck(cert, d.acks[f].ackSignature, f, d.acks[f].ackTime))
            && (f in d.files && d.files[f].status.Downloaded? ==> f in d.acks)
            && (f in d.files && d.files[f].status.Revoked? ==> exists p ::
                  p in d.history.revokes && p.fileId == f && CaSigned(cfg.ca, p.cert)
                  && p.cert.claims.subject == d.files[f].sender
                  && VerifyRevoke(p.cert, p.signature, d.files[f].sender, f, p.timestamp))
            && (f in d.files && d.files[f].status.Expired? ==> exists t ::
                  t in d.history.readings && d.files[f].expiration <= t)
  {
    InvHolds(cfg, ls);
    var d := AfterOps(cfg, ls).shared;
    assert SharedOk(cfg.ca, d);
    if f in d.files {
      assert RowOk(cfg.ca, f, d.files[f], d.acks, d.disk.blob.Keys, d.history);
    }
    if f in d.acks {
      assert AckExplained(f, d.acks[f], d.files[f].recipient, d.history.certs);
    }
  }

  /** Every stored row verifies: a CA-signed certificate of its sender whose key signed the origin
      struct of exactly this row, and the associated data of its three names. */
  lemma StoredRowVerifies(cfg: Config, ls: seq<Label>, f: FileId)
    ensures var d := AfterOps(cfg, ls).shared; f in d.files ==> ValidRow(cfg.ca, f, d.files[f])
  {
    InvHolds(cfg, ls);
    var d := AfterOps(cfg, ls).shared;
    if f in d.files {
      assert RowOk(cfg.ca, f, d.files[f], d.acks, d.disk.blob.Keys, d.history);
    }
  }

  lemma DecideReadings(cfg: Config, d: Shared, ses: Session, e: Envelope, row: Row, now: int)
    ensures OnDecide(cfg, d, ses, e, row, now).shared.history.readings <= d.history.readings + {now}
  {
  }

  lemma UploadReadings(cfg: Config, d: Shared, ses: Session, pc: Pc, now: int, chunk: nat, diskOk: bool)
    requires UploadPc(pc)
    ensures OnUpload(cfg, d, ses, pc, now, chunk, diskOk).shared.history.readings <= d.history.readings + {now}
  {
  }

  lemma GoReadings(cfg: Config, d: Shared, ses: Session, pc: Pc, now: int, chunk: nat, diskOk: bool)
    ensures OnGo(cfg, d, ses, pc, now, chunk, diskOk).shared.history.readings <= d.history.readings + {now}
  {
    hide OnDecide, OnUpload;
    if UploadPc(pc) {
      UploadReadings(cfg, d, ses, pc, now, chunk, diskOk);
    } else if pc.Held? {
      DecideReadings(cfg, d, ses, pc.e, pc.row, now);
    }
  }

  lemma NewReading(cfg: Config, y: System, l: Label, t: int)
    requires t in Next(cfg, y, l).y.shared.history.readings && t !in y.shared.history.readings
    ensures ReadsClockAt(l, t)
  {
    hide Dispatch, OnGo;
    if l.Go? && l.tid in y.conns {
      GoReadings(cfg, y.shared, y.conns[l.tid].session, y.conns[l.tid].pc, l.now, l.chunk, l.diskOk);
    }
  }

  /** The recorded causes are operations of the run: a clock reading is the reading of a label... */
  lemma {:induction false} ReadingsAreReal(cfg: Config, ls: seq<Label>, t: int)
    requires t in AfterOps(cfg, ls).shared.history.readings
    ensures exists i :: 0 <= i < |ls| && ReadsClockAt(ls[i], t)
  {
    hide Next;
    var n := |ls| - 1;
    if t in AfterOps(cfg, ls[..n]).shared.history.readings {
      ReadingsAreReal(cfg, ls[..n], t);
      var i :| 0 <= i < n && ReadsClockAt(ls[..n][i], t);
      assert ReadsClockAt(ls[i], t);
    } else {
      NewReading(cfg, AfterOps(cfg, ls[..n]), ls[n], t);
    }
  }

  predicate ReadsClockAt(l: Label, t: int) {
    (l.Receive? || l.Go? || l.Tick?) && l.now == t
  }

  /** ...and a revoke proof was verified by a thread that held the row it names. */
  lemma {:induction false} RevokesAreReal(cfg: Config, ls: seq<Label>, p: RevokeProof)
    requires p in AfterOps(cfg, ls).shared.history.revokes
    ensures exists i :: 0 <= i < |ls| && VerifiesRevoke(cfg, ls, i, p)
  {
    var n := |ls| - 1;
    var y := AfterOps(cfg, ls[..n]);
    if p in y.shared.history.revokes {
      RevokesAreReal(cfg, ls[..n], p);
      var i :| 0 <= i < n && VerifiesRevoke(cfg, ls[..n], i, p);
      assert ls[..n][..i] == ls[..i];
      assert VerifiesRevoke(cfg, ls, i, p);
    } else {
      NewProof(cfg, y, ls[n], p);
      assert VerifiesRevoke(cfg, ls, n, p);
    }
  }

  predicate HoldsRevoke(y: System, l: Label, p: RevokeProof) {
    && l.Go? && l.tid in y.conns
    && var c := y.conns[l.tid];
       c.pc.Held? && c.pc.e.request.Revoke? && c.pc.e.request.notice.fileId == Text(p.fileId)
       && p.cert == c.session.cert && VerifyRevoke(p.cert, p.signature, c.session.subject, p.fileId, p.timestamp)
  }

  predicate VerifiesRevoke(cfg: Config, ls: seq<Label>, i: nat, p: RevokeProof)
    requires i < |ls|
  {
    HoldsRevoke(AfterOps(cfg, ls[..i]), ls[i], p)
  }

  lemma NewProof(cfg: Config, y: System, l: Label, p: RevokeProof)
    requires p in Next(cfg, y, l).y.shared.history.revokes && p !in y.shared.history.revokes
    ensures HoldsRevoke(y, l, p)
  {
    if l.Go? && l.tid in y.conns {
      GoProof(cfg, y.shared, y.conns[l.tid].session, y.conns[l.tid].pc, l.now, l.chunk, l.diskOk, p);
    }
  }

  lemma GoProof(cfg: Config, d: Shared, ses: Session, pc: Pc, now: int, chunk: nat, diskOk: bool, p: RevokeProof)
    requires p in OnGo(cfg, d, ses, pc, now, chunk, diskOk).shared.history.revokes && p !in d.history.revokes
    ensures pc.Held? && pc.e.request.Revoke? && pc.e.request.notice.fileId == Text(p.fileId)
            && p.cert == ses.cert && VerifyRevoke(p.cert, p.signature, ses.subject, p.fileId, p.timestamp)
  {
  }

  // ---------- No download after a terminal write ----------

  function Runner(l: Label): Option<nat> {
    match l
    case Connect(tid, _, _) => Some(tid)
    case Receive(tid, _, _, _) => Some(tid)
    case Go(tid, _, _, _) => Some(tid)
    case Disconnect(tid) => Some(tid)
    case Tick(_, _) => None
    case Crash => None
  }

  predicate Busy(y: System, tid: nat) {
    tid in y.conns && !y.conns[tid].pc.Idle?
  }

  /** The operation that reads the status of f for a download request of thread tid. */
  predicate ReadsStatus(y: System, l: Label, tid: nat, f: FileId) {
    && l.Go? && l.tid == tid && tid in y.conns
    && y.conns[tid].pc.Checked? && y.conns[tid].pc.e.request == Download(Text(f))
  }

  predicate LeftPending(y: System, f: FileId) {
    f in y.shared.files && y.shared.files[f].status != Pending
  }

  predicate HoldsTerminal(y: System, tid: nat) {
    && tid in y.conns && y.conns[tid].pc.Held? && y.conns[tid].pc.e.request.Download?
    && y.conns[tid].pc.row.status != Pending
  }

  predicate Serves(l: Label, reply: Option<Reply>, tid: nat) {
    Runner(l) == Some(tid) && reply.Some? && reply.value.DownloadResponse?
  }

  lemma ReadsTerminal(cfg: Config, y: System, l: Label, tid: nat, f: FileId)
    requires ReadsStatus(y, l, tid, f) && LeftPending(y, f)
    ensures !Serves(l, Next(cfg, y, l).reply, tid)
    ensures Busy(Next(cfg, y, l).y, tid) ==> HoldsTerminal(Next(cfg, y, l).y, tid)
  {
  }

  lemma StaysTerminal(cfg: Config, y: System, l: Label, tid: nat)
    requires HoldsTerminal(y, tid)
    ensures !Serves(l, Next(cfg, y, l).reply, tid)
    ensures Busy(Next(cfg, y, l).y, tid) ==> HoldsTerminal(Next(cfg, y, l).y, tid)
  {
    hide Dispatch;
    if l.Go? && l.tid == tid {
      var c := y.conns[tid];
      assert OnGo(cfg, y.shared, c.session, c.pc, l.now, l.chunk, l.diskOk) == OnDecideDownload(y.shared, c.session, c.pc.e, c.pc.row, l.now);
    }
  }

  lemma {:induction false} HeldUntil(cfg: Config, ls: seq<Label>, j: nat, k: nat, tid: nat, f: FileId)
    requires j < k <= |ls| && ReadsStatus(AfterOps(cfg, ls[..j]), ls[j], tid, f) && LeftPending(AfterOps(cfg, ls[..j]), f)
    requires forall m | j < m <= k :: Busy(AfterOps(cfg, ls[..m]), tid)
    ensures HoldsTerminal(AfterOps(cfg, ls[..k]), tid)
  {
    AfterStep(cfg, ls, k - 1);
    if k - 1 == j {
      ReadsTerminal(cfg, AfterOps(cfg, ls[..j]), ls[j], tid, f);
    } else {
      HeldUntil(cfg, ls, j, k - 1, tid, f);
      StaysTerminal(cfg, AfterOps(cfg, ls[..k - 1]), ls[k - 1], tid);
    }
  }

  /** Once a revoke, ack or expiry write on f has committed (by position i), a download request
      whose status read comes later (position j) is not answered with the file at any position k
      at which the thread is still working on it. */
  lemma NoServeAfterTerminalWrite(cfg: Config, ls: seq<Label>, i: nat, j: nat, k: nat, tid: nat, f: FileId)
    requires i <= j <= k < |ls| && LeftPending(AfterOps(cfg, ls[..i]), f)
    requires ReadsStatus(AfterOps(cfg, ls[..j]), ls[j], tid, f)
    requires forall m | j < m <= k :: Busy(AfterOps(cfg, ls[..m]), tid)
    ensures !Serves(ls[k], StepAt(cfg, ls, k).reply, tid)
  {
    RunExtends(cfg, ls, i, j);
    if j == k {
      ReadsTerminal(cfg, AfterOps(cfg, ls[..j]), ls[j], tid, f);
    } else {
      HeldUntil(cfg, ls, j, k, tid, f);
      StaysTerminal(cfg, AfterOps(cfg, ls[..k]), ls[k], tid);
    }
  }

  // ---------- Bounded changes under interleaving ----------

  /** A thread that read f as pending and may still write its status. */
  predicate Stale(c: Conn, f: FileId) {
    match c.pc
    case Held(e, row) => row.status == Pending && FileOf(e) == f && !e.request.DownloadAck?
    case Expiring(e, _) => FileOf(e) == f
    case Revoking(e, _) => FileOf(e) == f
    case _ => false
  }

  function StaleThreads(y: System, f: FileId): set<nat> {
    set tid | tid in y.conns && Stale(y.conns[tid], f)
  }

  /** The step in which an ack handler writes 'downloaded'. */
  predicate WritesAck(y: System, l: Label, f: FileId) {
    && l.Go? && l.tid in y.conns
    && var pc := y.conns[l.tid].pc; AckPc(pc) && pc.AckStored? && pc.e.request.notice.fileId.text == f
  }

  predicate Changed(y: System, z: System, f: FileId) {
    f in y.shared.files && f in z.shared.files && y.shared.files[f].status != z.shared.files[f].status
  }

  lemma NewPcFresh(cfg: Config, d: Shared, ses: Session, pc: Pc, now: int, chunk: nat, diskOk: bool, f: FileId)
    requires PcOk(cfg, d, ses, pc) && f in d.files && d.files[f].status != Pending
    ensures var op := OnGo(cfg, d, ses, pc, now, chunk, diskOk);
            && (op.move.To? && Stale(Conn(ses, op.move.pc), f) ==> pc.Held? && Stale(Conn(ses, pc), f))
            && (f in op.shared.files && op.shared.files[f].status != d.files[f].status ==>
                  (Stale(Conn(ses, pc), f) && op.move.Done?)
                  || (AckPc(pc) && pc.AckStored? && pc.e.request.notice.fileId.text == f))
  {
    match pc
    case Held(e, row) => DecideFresh(cfg, d, ses, e, row, now, f);
    case Checked(e) => CheckedFresh(cfg, d, ses, e, now, f);
    case Acking(_) =>
    case AckStored(_) =>
    case Idle =>
    case Expiring(_, _) =>
    case Revoking(_, _) =>
    case Serving(_, _) =>
    case _ => UploadFresh(cfg, d, ses, pc, now, chunk, diskOk, f);
  }

  lemma UploadFresh(cfg: Config, d: Shared, ses: Session, pc: Pc, now: int, chunk: nat, diskOk: bool, f: FileId)
    requires UploadPc(pc) && f in d.files
    ensures var op := OnUpload(cfg, d, ses, pc, now, chunk, diskOk);
            && f in op.shared.files && op.shared.files[f] == d.files[f]
            && (op.move.To? ==> !Stale(Conn(ses, op.move.pc), f))
  {
  }

  lemma CheckedFresh(cfg: Config, d: Shared, ses: Session, e: Envelope, now: int, f: FileId)
    requires f in d.files && d.files[f].status != Pending
    ensures var op := OnChecked(cfg, d, ses, e, now);
            op.shared.files == d.files && (op.move.To? ==> !Stale(Conn(ses, op.move.pc), f))
  {
  }

  lemma DecideFresh(cfg: Config, d: Shared, ses: Session, e: Envelope, row: Row, now: int, f: FileId)
    ensures var op := OnDecide(cfg, d, ses, e, row, now);
            op.shared.files == d.files && (op.move.To? && Stale(Conn(ses, op.move.pc), f) ==> Stale(Conn(ses, Held(e, row)), f))
  {
  }

  lemma StaleStep(cfg: Config, y: System, l: Label, f: FileId)
    requires Inv(cfg, y) && LeftPending(y, f)
    ensures StaleThreads(Next(cfg, y, l).y, f) <= StaleThreads(y, f)
    ensures Changed(y, Next(cfg, y, l).y, f) && !WritesAck(y, l, f) ==>
              l.Go? && l.tid in StaleThreads(y, f) && l.tid !in StaleThreads(Next(cfg, y, l).y, f)
  {
    hide SharedOk, OnGo, OnReceive, StatusExplained;
    var z := Next(cfg, y, l).y;
    match l
    case Go(tid, now, chunk, diskOk) =>
      if tid in y.conns {
        var c := y.conns[tid];
        assert ConnOk(cfg, y.shared, c);
        NewPcFresh(cfg, y.shared, c.session, c.pc, now, chunk, diskOk, f);
      }
    case Receive(tid, e, now, diskOk) =>
      if tid in y.conns {
        ReceiveFresh(cfg, y.shared, y.conns[tid].session, e, now, diskOk, f);
      }
    case _ =>
  }

  lemma ReceiveFresh(cfg: Config, d: Shared, ses: Session, e: Envelope, now: int, diskOk: bool, f: FileId)
    ensures var op := OnReceive(cfg, d, ses, e, now, diskOk);
            op.shared.files == d.files && (op.move.To? ==> !Stale(Conn(ses, op.move.pc), f))
  {
    hide Dispatch;
  }

  /** Status changes of f from position i on. */
  function ChangesSince(cfg: Config, ls: seq<Label>, i: nat, f: FileId): nat
    requires i <= |ls|
  {
    if i == |ls| then 0 else
      var y := AfterOps(cfg, ls[..|ls| - 1]);
      ChangesSince(cfg, ls[..|ls| - 1], i, f) + if Changed(y, Next(cfg, y, ls[|ls| - 1]).y, f) then 1 else 0
  }

  function AcksSince(cfg: Config, ls: seq<Label>, i: nat, f: FileId): nat
    requires i <= |ls|
  {
    if i == |ls| then 0 else
      AcksSince(cfg, ls[..|ls| - 1], i, f) + if WritesAck(AfterOps(cfg, ls[..|ls| - 1]), ls[|ls| - 1], f) then 1 else 0
  }

  lemma SmallerSet(a: set<nat>, b: set<nat>)
    requires a <= b
    ensures |a| <= |b|
    ensures a != b ==> |a| < |b|
  {
    assert b == a + (b - a);
    assert a != b ==> b - a != {};
  }

  /** After f has left 'pending', every status change is either an ack or uses up a thread that
      still held a stale pending read at that moment. */
  lemma {:induction false} LateChangesBounded(cfg: Config, ls: seq<Label>, i: nat, f: FileId)
    requires i <= |ls| && LeftPending(AfterOps(cfg, ls[..i]), f)
    ensures ChangesSince(cfg, ls, i, f) + |StaleThreads(AfterOps(cfg, ls), f)|
            <= |StaleThreads(AfterOps(cfg, ls[..i]), f)| + AcksSince(cfg, ls, i, f)
  {
    hide Next, Inv;
    if i == |ls| {
      assert ls[..i] == ls;
    } else {
      var n := |ls| - 1;
      assert ls[..n][..i] == ls[..i] && ls[..n][..n] == ls[..n];
      LateChangesBounded(cfg, ls[..n], i, f);
      RunExtends(cfg, ls, i, n);
      InvHolds(cfg, ls[..n]);
      var y := AfterOps(cfg, ls[..n]);
      StaleStep(cfg, y, ls[n], f);
      SmallerSet(StaleThreads(Next(cfg, y, ls[n]).y, f), StaleThreads(y, f));
    }
  }
}

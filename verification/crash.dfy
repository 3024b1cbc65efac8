/**
Crash consistency of a blob and its row: the temporary file is written in pieces, renamed,
and only then is the row inserted; a crash may fall between any two of these operations.
*/
module CrashConsistency {
  import opened Wrappers
  import opened Crypto
  import opened Replay
  import opened Store
  import opened FileCrypto
  import opened Messages
  import opened HandlerSpec
  import opened Threads
  import opened ThreadInvariant
  import opened ThreadSafety
  import opened ThreadTheorems

  /** Every row has a blob in every reachable state. */
  lemma RowHasBlob(cfg: Config, ls: seq<Label>, f: FileId)
    ensures var d := AfterOps(cfg, ls).shared; f in d.files ==> BlobOf(d.disk, f).Some?
  {
    InvHolds(cfg, ls);
    var d := AfterOps(cfg, ls).shared;
    if f in d.files {
      assert RowOk(cfg.ca, f, d.files[f], d.acks, d.disk.blob.Keys, d.history);
    }
  }

  predicate Uploading(pc: Pc, f: FileId) {
    !pc.Idle? && pc.e.request.Upload? && Names(pc.e.request, f)
  }

  predicate StartsUpload(l: Label, f: FileId) {
    l.Receive? && l.e.request.Upload? && Names(l.e.request, f)
  }

  function UploadsOf(ls: seq<Label>, f: FileId): nat {
    if ls == [] then 0 else UploadsOf(ls[..|ls| - 1], f) + if StartsUpload(ls[|ls| - 1], f) then 1 else 0
  }

  /** The blob of f is the complete ciphertext whose hash the row carries. */
  predicate Matches(disk: Disk, f: FileId, row: Row) {
    BlobOf(disk, f).Some? && row.ciphertextSha == [Sha(BlobOf(disk, f).value)]
  }

  predicate PhaseOk(disk: Disk, pc: Pc, f: FileId) {
    match pc
    case Writing(e, gen, written) =>
      && UploadPc(pc) && f in disk.tmp && disk.tmp[f] == gen && (f, gen) in disk.inodes
      && written <= |e.request.package.ciphertext.value|
      && disk.inodes[(f, gen)] == e.request.package.ciphertext.value[..written]
    case Replaced(e) => UploadPc(pc) && BlobOf(disk, f) == Some(e.request.package.ciphertext.value)
    case _ => true
  }

  ghost predicate Untouched(y: System, f: FileId) {
    f !in y.shared.files && forall tid | tid in y.conns :: !Uploading(y.conns[tid].pc, f)
  }

  ghost predicate OneUpload(y: System, f: FileId) {
    && (forall t, u | t in y.conns && u in y.conns && Uploading(y.conns[t].pc, f) && Uploading(y.conns[u].pc, f) :: t == u)
    && (forall t | t in y.conns && Uploading(y.conns[t].pc, f) ::
          f !in y.shared.files && PhaseOk(y.shared.disk, y.conns[t].pc, f))
    && (f in y.shared.files ==> Matches(y.shared.disk, f, y.shared.files[f]))
  }

  // ---------- Other threads ----------

  /** The part of the disk under the name f. */
  ghost predicate SameAt(a: Disk, b: Disk, f: FileId) {
    && (f in a.tmp <==> f in b.tmp) && (f in a.tmp ==> a.tmp[f] == b.tmp[f])
    && (f in a.blob <==> f in b.blob) && (f in a.blob ==> a.blob[f] == b.blob[f])
    && forall g :: ((f, g) in a.inodes <==> (f, g) in b.inodes) && ((f, g) in a.inodes ==> a.inodes[(f, g)] == b.inodes[(f, g)])
  }

  ghost predicate LeavesFile(a: Shared, b: Shared, f: FileId) {
    && SameAt(a.disk, b.disk, f)
    && (f in a.files <==> f in b.files) && (f in a.files ==> a.files[f].ciphertextSha == b.files[f].ciphertextSha)
  }

  lemma OtherNames(disk: Disk, g: FileId, f: FileId)
    requires g != f
    ensures SameAt(disk, disk, f) && SameAt(disk, OpenTmp(disk, g), f)
    ensures g in disk.tmp ==> SameAt(disk, Rename(disk, g), f)
  {
  }

  lemma OtherWrite(disk: Disk, g: FileId, gen: nat, at: nat, chunk: Bytes, f: FileId)
    requires g != f
    ensures SameAt(disk, WriteAt(disk, g, gen, at, chunk), f)
  {
    hide Overlay;
  }

  lemma OtherUploadLeaves(cfg: Config, d: Shared, ses: Session, pc: Pc, now: int, chunk: nat, diskOk: bool, f: FileId)
    requires UploadPc(pc) && !Uploading(pc, f)
    ensures LeavesFile(d, OnUpload(cfg, d, ses, pc, now, chunk, diskOk).shared, f)
  {
    var p := pc.e.request.package;
    var g := p.fileId.text;
    OtherNames(d.disk, g, f);
    if pc.Writing? && pc.written < |p.ciphertext.value| {
      var upto := if pc.written + chunk < |p.ciphertext.value| then pc.written + chunk else |p.ciphertext.value|;
      OtherWrite(d.disk, g, pc.gen, pc.written, p.ciphertext.value[pc.written..upto], f);
    }
    hide SameAt, OpenTmp, WriteAt, Rename;
  }

  lemma DecideKeepsData(cfg: Config, d: Shared, ses: Session, e: Envelope, row: Row, now: int)
    ensures var b := OnDecide(cfg, d, ses, e, row, now).shared; b.files == d.files && b.disk == d.disk
  {
  }

  lemma OtherGoLeaves(cfg: Config, d: Shared, ses: Session, pc: Pc, now: int, chunk: nat, diskOk: bool, f: FileId)
    requires !Uploading(pc, f)
    ensures LeavesFile(d, OnGo(cfg, d, ses, pc, now, chunk, diskOk).shared, f)
    ensures var op := OnGo(cfg, d, ses, pc, now, chunk, diskOk); op.move.To? ==> !Uploading(op.move.pc, f)
  {
    hide OnUpload, OnDecide;
    if UploadPc(pc) {
      OtherUploadLeaves(cfg, d, ses, pc, now, chunk, diskOk, f);
    } else if pc.Held? {
      DecideKeepsData(cfg, d, ses, pc.e, pc.row, now);
    }
    GoKeepsEnvelope(cfg, d, ses, pc, now, chunk, diskOk);
  }

  /** A handler works on one envelope until it returns. */
  lemma GoKeepsEnvelope(cfg: Config, d: Shared, ses: Session, pc: Pc, now: int, chunk: nat, diskOk: bool)
    ensures var op := OnGo(cfg, d, ses, pc, now, chunk, diskOk);
            op.move.To? ==> op.move.pc == pc || (!pc.Idle? && !op.move.pc.Idle? && op.move.pc.e == pc.e)
  {
  }

  // ---------- The uploading thread ----------

  lemma OverlayExtends(data: Bytes, at: nat, upto: nat)
    requires at <= upto <= |data|
    ensures Overlay(data[..at], at, data[at..upto]) == data[..upto]
  {
  }

  lemma WritePhase(d: Shared, e: Envelope, gen: nat, written: nat, chunk: nat, diskOk: bool, f: FileId)
    requires f !in d.files && Names(e.request, f) && PhaseOk(d.disk, Writing(e, gen, written), f)
    ensures var op := OnWrite(d, e, f, e.request.package.ciphertext.value, gen, written, chunk, diskOk);
            op.shared.files == d.files && (op.move.To? ==> PhaseOk(op.shared.disk, op.move.pc, f))
  {
    var data := e.request.package.ciphertext.value;
    if written < |data| {
      OverlayExtends(data, written, if written + chunk < |data| then written + chunk else |data|);
    } else {
      assert data[..written] == data;
    }
  }

  lemma OwnUploadPhase(cfg: Config, d: Shared, ses: Session, pc: Pc, now: int, chunk: nat, diskOk: bool, f: FileId)
    requires UploadPc(pc) && Uploading(pc, f) && f !in d.files && PhaseOk(d.disk, pc, f)
    ensures var op := OnUpload(cfg, d, ses, pc, now, chunk, diskOk);
            && (op.move.To? ==> f !in op.shared.files && PhaseOk(op.shared.disk, op.move.pc, f))
            && (f in op.shared.files ==> Matches(op.shared.disk, f, op.shared.files[f]))
  {
    if pc.Writing? {
      WritePhase(d, pc.e, pc.gen, pc.written, chunk, diskOk, f);
    }
  }

  lemma OwnGoPhase(cfg: Config, d: Shared, ses: Session, pc: Pc, now: int, chunk: nat, diskOk: bool, f: FileId)
    requires Uploading(pc, f) && f !in d.files && PhaseOk(d.disk, pc, f)
    ensures var op := OnGo(cfg, d, ses, pc, now, chunk, diskOk);
            && (op.move.To? ==> f !in op.shared.files && PhaseOk(op.shared.disk, op.move.pc, f))
            && (f in op.shared.files ==> Matches(op.shared.disk, f, op.shared.files[f]))
  {
    hide OnUpload, OnDecide;
    if UploadPc(pc) {
      OwnUploadPhase(cfg, d, ses, pc, now, chunk, diskOk, f);
    } else if pc.Held? {
      DecideKeepsData(cfg, d, ses, pc.e, pc.row, now);
      GoKeepsEnvelope(cfg, d, ses, pc, now, chunk, diskOk);
      HeldPhase(cfg, d, ses, pc.e, pc.row, now, f);
    }
  }

  lemma HeldPhase(cfg: Config, d: Shared, ses: Session, e: Envelope, row: Row, now: int, f: FileId)
    ensures var op := OnDecide(cfg, d, ses, e, row, now); op.move.To? ==> PhaseOk(op.shared.disk, op.move.pc, f)
  {
  }

  // ---------- The whole system ----------

  lemma PhaseStays(a: Disk, b: Disk, pc: Pc, f: FileId)
    requires SameAt(a, b, f) && PhaseOk(a, pc, f)
    ensures PhaseOk(b, pc, f)
  {
  }

  /** A step that leaves f's row and disk alone and starts no upload of f keeps either invariant. */
  lemma LeavingStep(y: System, z: System, f: FileId)
    requires LeavesFile(y.shared, z.shared, f)
    requires forall t | t in z.conns && Uploading(z.conns[t].pc, f) :: t in y.conns && z.conns[t] == y.conns[t]
    ensures Untouched(y, f) ==> Untouched(z, f)
    ensures OneUpload(y, f) ==> OneUpload(z, f)
  {
    if OneUpload(y, f) {
      forall t | t in z.conns && Uploading(z.conns[t].pc, f)
        ensures f !in z.shared.files && PhaseOk(z.shared.disk, z.conns[t].pc, f)
      {
        PhaseStays(y.shared.disk, z.shared.disk, z.conns[t].pc, f);
      }
    }
  }

  lemma OwnStep(cfg: Config, y: System, l: Label, f: FileId)
    requires OneUpload(y, f) && l.Go? && l.tid in y.conns && Uploading(y.conns[l.tid].pc, f)
    ensures OneUpload(Next(cfg, y, l).y, f)
  {
    hide OnGo;
    var c, z := y.conns[l.tid], Next(cfg, y, l).y;
    OwnGoPhase(cfg, y.shared, c.session, c.pc, l.now, l.chunk, l.diskOk, f);
    assert forall t | t in z.conns && t != l.tid :: t in y.conns && z.conns[t] == y.conns[t];
    assert forall t | t in z.conns && Uploading(z.conns[t].pc, f) :: t == l.tid;
  }

  lemma OtherStep(cfg: Config, y: System, l: Label, f: FileId)
    requires !StartsUpload(l, f)
    requires l.Go? && l.tid in y.conns ==> !Uploading(y.conns[l.tid].pc, f)
    ensures Untouched(y, f) ==> Untouched(Next(cfg, y, l).y, f)
    ensures OneUpload(y, f) ==> OneUpload(Next(cfg, y, l).y, f)
  {
    hide OnGo, Dispatch, Untouched, OneUpload, PhaseOk;
    if l.Go? && l.tid in y.conns {
      var c := y.conns[l.tid];
      OtherGoLeaves(cfg, y.shared, c.session, c.pc, l.now, l.chunk, l.diskOk, f);
    }
    LeavingStep(y, Next(cfg, y, l).y, f);
  }

  lemma FirstUploadStep(cfg: Config, y: System, l: Label, f: FileId)
    requires Untouched(y, f) && StartsUpload(l, f)
    ensures OneUpload(Next(cfg, y, l).y, f)
  {
    hide Dispatch;
  }

  lemma {:induction false} UploadInvariant(cfg: Config, ls: seq<Label>, f: FileId)
    requires UploadsOf(ls, f) <= 1
    ensures if UploadsOf(ls, f) == 0 then Untouched(AfterOps(cfg, ls), f) else OneUpload(AfterOps(cfg, ls), f)
  {
    if ls != [] {
      var n := |ls| - 1;
      UploadInvariant(cfg, ls[..n], f);
      var y := AfterOps(cfg, ls[..n]);
      if StartsUpload(ls[n], f) {
        FirstUploadStep(cfg, y, ls[n], f);
      } else if ls[n].Go? && ls[n].tid in y.conns && Uploading(y.conns[ls[n].tid].pc, f) {
        OwnStep(cfg, y, ls[n], f);
      } else {
        OtherStep(cfg, y, ls[n], f);
      }
    }
  }

  /** If the id of f is uploaded at most once, its row always has the complete blob that hashes to
      the row's digest, wherever the run crashed or other uploads interleaved. */
  lemma RowHasItsBlob(cfg: Config, ls: seq<Label>, f: FileId)
    requires UploadsOf(ls, f) <= 1
    ensures var d := AfterOps(cfg, ls).shared; f in d.files ==> Matches(d.disk, f, d.files[f])
  {
    UploadInvariant(cfg, ls, f);
  }
}

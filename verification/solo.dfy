/**
A thread whose operations run back to back does exactly what the handler does: the
interleaved program and the sequential handlers are the same program.
*/
module SoloRuns {
  import opened Wrappers
  import opened Crypto
  import opened Replay
  import opened Store
  import opened FileCrypto
  import opened Messages
  import opened HandlerSpec
  import opened Lifecycle
  import opened Threads

  /** What one operation meets: clock, chunk size, disk. */
  datatype Turn = Turn(now: int, chunk: nat, diskOk: bool)

  datatype Ended = Ended(shared: Shared, reply: Option<Reply>)

  /** The operations of one thread from pc on, with nothing in between, up to its reply. */
  function Alone(cfg: Config, d: Shared, ses: Session, pc: Pc, turns: seq<Turn>): Ended
    decreases turns
  {
    if turns == [] then Ended(d, None) else
      var op := OnGo(cfg, d, ses, pc, turns[0].now, turns[0].chunk, turns[0].diskOk);
      match op.move
      case Done(reply) => Ended(op.shared, Some(reply))
      case To(next) => Alone(cfg, op.shared, ses, next, turns[1..])
  }

  function HandleAlone(cfg: Config, d: Shared, ses: Session, e: Envelope, now: int, diskOk: bool, turns: seq<Turn>): Ended {
    var op := OnReceive(cfg, d, ses, e, now, diskOk);
    match op.move
    case Done(reply) => Ended(op.shared, Some(reply))
    case To(pc) => Alone(cfg, op.shared, ses, pc, turns)
  }

  /** The first operation is at the handler's first clock reading. */
  function FirstReading(r: Request, c: Ambient): int {
    if r.ListPending? then c.check else if r.GetPubkey? then c.lookup else c.replay
  }

  /** Enough turns for the longest handler, an upload: checks, lookup, open, write, rename, insert. */
  function Turns(r: Request, c: Ambient): seq<Turn> {
    if r.Upload? then
      var size := if r.package.ciphertext.Some? then |r.package.ciphertext.value| else 0;
      [Turn(c.check, 0, true), Turn(c.lookup, 0, true), Turn(0, 0, c.diskOk), Turn(0, size, true), Turn(0, 0, true), Turn(0, 0, true)]
    else [Turn(0, 0, true), Turn(c.check, 0, true), Turn(0, 0, c.diskOk), Turn(0, 0, true)]
  }

  ghost predicate SameAs(x: Ended, o: Outcome) {
    StateOf(x.shared) == o.state && x.reply == Some(o.reply)
  }

  lemma AloneStep(cfg: Config, d: Shared, ses: Session, pc: Pc, turns: seq<Turn>)
    requires turns != []
    ensures var op := OnGo(cfg, d, ses, pc, turns[0].now, turns[0].chunk, turns[0].diskOk);
            Alone(cfg, d, ses, pc, turns) ==
            match op.move
            case Done(reply) => Ended(op.shared, Some(reply))
            case To(next) => Alone(cfg, op.shared, ses, next, turns[1..])
  {
  }

  lemma DownloadAlone(cfg: Config, d: Shared, ses: Session, e: Envelope, c: Ambient)
    requires e.request.Download?
    ensures SameAs(Alone(cfg, d, ses, Checked(e), Turns(e.request, c)), HandleDownload(cfg, StateOf(d), ses, e.request.fileId, c))
  {
    var t := Turns(e.request, c);
    AloneStep(cfg, d, ses, Checked(e), t);
    var field := e.request.fileId;
    if field.Text? && field.text in d.files {
      var f := field.text;
      var row := d.files[f];
      DownloadRowShape(cfg, StateOf(d), ses, f, c);
      if row.recipient == ses.subject {
        AloneStep(cfg, d, ses, Held(e, row), t[1..]);
        var d' := ReadClock(d, c.check);
        AloneStep(cfg, d', ses, Expiring(e, row), t[1..][1..]);
        AloneStep(cfg, d', ses, Serving(e, row), t[1..][1..]);
      }
    }
  }

  lemma AckAlone(cfg: Config, d: Shared, ses: Session, e: Envelope, c: Ambient)
    requires e.request.DownloadAck?
    ensures SameAs(Alone(cfg, d, ses, Checked(e), Turns(e.request, c)), HandleAck(cfg, StateOf(d), ses, e.request.notice, c))
  {
    var t, n := Turns(e.request, c), e.request.notice;
    AloneStep(cfg, d, ses, Checked(e), t);
    if ValidNotice(n) && n.fileId.text in d.files {
      var f := n.fileId.text;
      var row := d.files[f];
      if row.recipient == ses.subject {
        AloneStep(cfg, d, ses, Held(e, row), t[1..]);
        var d' := ReadClock(d, c.check);
        AloneStep(cfg, d', ses, Acking(e), t[1..][1..]);
        var d'' := d'.(acks := InsertAck(d'.acks, f, AckRow(n.signature.value, n.timestamp.value)));
        AloneStep(cfg, d'', ses, AckStored(e), t[1..][1..][1..]);
      }
    }
  }

  lemma RevokeAlone(cfg: Config, d: Shared, ses: Session, e: Envelope, c: Ambient)
    requires e.request.Revoke?
    ensures SameAs(Alone(cfg, d, ses, Checked(e), Turns(e.request, c)), HandleRevoke(cfg, StateOf(d), ses, e.request.notice, c))
  {
    hide SenderCertOk, VerifyRevoke, IsUuid;
    var t, n := Turns(e.request, c), e.request.notice;
    AloneStep(cfg, d, ses, Checked(e), t);
    if ValidNotice(n) && n.fileId.text in d.files {
      var row := d.files[n.fileId.text];
      if row.sender == ses.subject {
        AloneStep(cfg, d, ses, Held(e, row), t[1..]);
        AloneStep(cfg, OnDecideRevoke(cfg, d, ses, e, n, row, c.check).shared, ses, Revoking(e, row), t[1..][1..]);
      }
    }
  }

  function Stored(disk: Disk, f: FileId, data: Bytes): Disk {
    var started := OpenTmp(disk, f);
    Rename(if data == [] then started else WriteAt(started, f, started.tmp[f], 0, data), f)
  }

  lemma StoredHere(disk: Disk, f: FileId, data: Bytes)
    ensures BlobOf(Stored(disk, f, data), f) == Some(data)
  {
    assert Overlay([], 0, data) == data;
  }

  lemma StoredElsewhere(disk: Disk, f: FileId, data: Bytes, g: FileId)
    requires g != f
    ensures BlobOf(Stored(disk, f, data), g) == BlobOf(disk, g)
  {
    hide Overlay;
  }

  /** Temporary file, write and rename together replace one blob and touch no other. */
  lemma StoredReplacesBlob(disk: Disk, f: FileId, data: Bytes)
    ensures Blobs(Stored(disk, f, data)) == Blobs(disk)[f := data]
  {
    hide Stored;
    var z := Stored(disk, f, data);
    StoredHere(disk, f, data);
    forall g | g != f
      ensures g in Blobs(z) <==> g in Blobs(disk)
      ensures g in Blobs(disk) ==> Blobs(z)[g] == Blobs(disk)[g]
    {
      StoredElsewhere(disk, f, data, g);
    }
  }

  lemma WriteAlone(cfg: Config, d: Shared, ses: Session, e: Envelope, turns: seq<Turn>)
    requires UploadPc(Ready(e)) && |turns| == 4 && turns[0].diskOk && turns[1].diskOk && turns[2].diskOk
    requires turns[1].chunk == |e.request.package.ciphertext.value|
    ensures var p := e.request.package;
            var z := d.(disk := Stored(d.disk, p.fileId.text, p.ciphertext.value));
            var op := OnInsert(z, p.fileId.text, UploadedRow(ses, p));
            Alone(cfg, d, ses, Ready(e), turns) == Ended(op.shared, Some(op.move.reply))
  {
    var p := e.request.package;
    var f, data := p.fileId.text, p.ciphertext.value;
    AloneStep(cfg, d, ses, Ready(e), turns);
    var started := OpenTmp(d.disk, f);
    var gen := started.tmp[f];
    var d1 := d.(disk := started);
    AloneStep(cfg, d1, ses, Writing(e, gen, 0), turns[1..]);
    if data == [] {
      var z := d1.(disk := Rename(started, f));
      AloneStep(cfg, z, ses, Replaced(e), turns[1..][1..]);
    } else {
      assert data[0..|data|] == data;
      var d2 := d1.(disk := WriteAt(started, f, gen, 0, data));
      AloneStep(cfg, d2, ses, Writing(e, gen, |data|), turns[1..][1..]);
      AloneStep(cfg, d2.(disk := Rename(d2.disk, f)), ses, Replaced(e), turns[1..][1..][1..]);
    }
  }

  lemma UploadAlone(cfg: Config, d: Shared, ses: Session, e: Envelope, c: Ambient)
    requires e.request.Upload?
    ensures SameAs(Alone(cfg, d, ses, Checked(e), Turns(e.request, c)), HandleUpload(cfg, StateOf(d), ses, e.request.package, c))
  {
    var t, p := Turns(e.request, c), e.request.package;
    AloneStep(cfg, d, ses, Checked(e), t);
    if SenderCertOk(cfg, ses, c.check) && ValidPackage(p) && VerifyOrigin(ses.cert, p.signature.value, PackageOrigin(ses.subject, p)) {
      var d1 := ReadClock(d, c.check);
      AloneStep(cfg, d1, ses, Signed(e), t[1..]);
      if LookupCert(cfg, p.recipient.text, c.lookup).Some? {
        var d2 := ReadClock(d1, c.lookup);
        if c.diskOk {
          WriteAlone(cfg, d2, ses, e, t[1..][1..]);
          StoredReplacesBlob(d.disk, p.fileId.text, p.ciphertext.value);
        } else {
          AloneStep(cfg, d2, ses, Ready(e), t[1..][1..]);
        }
      }
    }
  }

  /** Run without interference, a thread turns the state and answers exactly as the handler does. */
  lemma AloneIsHandle(cfg: Config, d: Shared, ses: Session, e: Envelope, c: Ambient)
    ensures SameAs(HandleAlone(cfg, d, ses, e, FirstReading(e.request, c), c.diskOk, Turns(e.request, c)),
                   Handle(cfg, StateOf(d), ses, e, c))
  {
    if Guarded(e.request) && Accepts(d.seen, e.nonce, e.timestamp, c.replay) {
      var d' := ReadClock(d, c.replay).(seen := Record(d.seen, e.nonce, e.timestamp, c.replay));
      assert StateOf(d') == Recorded(StateOf(d), e, c.replay);
      match e.request
      case Upload(_) => UploadAlone(cfg, d', ses, e, c);
      case Download(_) => DownloadAlone(cfg, d', ses, e, c);
      case DownloadAck(_) => AckAlone(cfg, d', ses, e, c);
      case Revoke(_) => RevokeAlone(cfg, d', ses, e, c);
    } else {
      assert StateOf(ReadClock(d, FirstReading(e.request, c))) == StateOf(d);
    }
  }
}

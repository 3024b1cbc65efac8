/**
The server as it runs: one thread per connection and the cleanup thread, interleaved at
every SQL transaction, clock reading and file operation, with a crash possible between any
two of them. A thread keeps what it read in its program counter until its next operation.
*/
module Threads {
  import opened Wrappers
  import opened Crypto
  import opened Replay
  import opened Store
  import opened FileCrypto
  import opened Messages
  import opened HandlerSpec

  datatype Pc =
    | Idle
    | Checked(e: Envelope)                           // the nonce is recorded
    | Held(e: Envelope, row: Row)                    // a snapshot of the row; ownership was checked
    | Expiring(e: Envelope, row: Row)                // download: about to write 'expired'
    | Serving(e: Envelope, row: Row)                 // download: about to read the blob
    | Acking(e: Envelope)                            // ack: signature verified
    | AckStored(e: Envelope)                         // ack: row in acks, status not written yet
    | Revoking(e: Envelope, row: Row)                // revoke: about to write 'revoked'
    | Signed(e: Envelope)                            // upload: certificate and signature verified
    | Ready(e: Envelope)                             // upload: recipient found
    | Writing(e: Envelope, gen: nat, written: nat)   // upload: temporary file open
    | Replaced(e: Envelope)                          // upload: blob in place, row not inserted yet

  datatype Conn = Conn(session: Session, pc: Pc)

  /** File names map to inodes; opening an existing temporary file truncates its inode. */
  datatype Disk = Disk(tmp: map<FileId, nat>, blob: map<FileId, nat>, inodes: map<(FileId, nat), Bytes>, next: nat)

  datatype Cleaner = Asleep | Woken(now: int) | Purged(now: int)

  /** A revoke signature that verified. */
  datatype RevokeProof = RevokeProof(fileId: FileId, cert: Cert, signature: Bytes, timestamp: int)

  /** What has happened so far: clock readings, certificates accepted by the handshake, and
      revoke signatures accepted by a handler. */
  datatype History = History(readings: set<int>, certs: set<Cert>, revokes: set<RevokeProof>)

  /** What the threads share. */
  datatype Shared = Shared(files: Files, acks: Acks, seen: Table, disk: Disk, history: History)

  datatype System = System(shared: Shared, conns: map<nat, Conn>, cleaner: Cleaner)

  const Boot := System(Shared(map[], map[], map[], Disk(map[], map[], map[], 0), History({}, {}, {})), map[], Asleep)

  /** One operation of one thread, with the clock reading, chunk size and disk behaviour it meets. */
  datatype Label =
    | Connect(tid: nat, cert: Cert, now: int)
    | Receive(tid: nat, e: Envelope, now: int, diskOk: bool)
    | Go(tid: nat, now: int, chunk: nat, diskOk: bool)
    | Disconnect(tid: nat)
    | Tick(now: int, ok: bool)
    | Crash

  /** An operation leaves the thread inside its handler, or ends the handler with a reply. */
  datatype Move = To(pc: Pc) | Done(reply: Reply)

  datatype Op = Op(shared: Shared, move: Move)

  function ReadClock(d: Shared, now: int): Shared {
    d.(history := d.history.(readings := d.history.readings + {now}))
  }

  function BlobOf(d: Disk, f: FileId): Option<Bytes> {
    if f in d.blob && (f, d.blob[f]) in d.inodes then Some(d.inodes[(f, d.blob[f])]) else None
  }

  /** The blobs by name, as the handlers see them. */
  function Blobs(d: Disk): map<FileId, Bytes> {
    map f | f in d.blob && BlobOf(d, f).Some? :: BlobOf(d, f).value
  }

  function StateOf(d: Shared): State {
    State(d.files, d.acks, d.seen, Blobs(d.disk))
  }

  /** Requests that need one operation are answered at once; the others pass the replay cache. */
  function OnReceive(cfg: Config, d: Shared, ses: Session, e: Envelope, now: int, diskOk: bool): Op {
    var d' := ReadClock(d, now);
    if !Guarded(e.request)
    then Op(d', Done(Dispatch(cfg, StateOf(d), ses, e.request, Ambient(now, now, now, diskOk)).reply))
    else if !Accepts(d.seen, e.nonce, e.timestamp, now) then Op(d', Done(Error(STALE)))
    else Op(d'.(seen := Record(d.seen, e.nonce, e.timestamp, now)), To(Checked(e)))
  }

  function NamedField(r: Request): Field {
    match r
    case Upload(p) => p.fileId
    case Download(fileId) => fileId
    case DownloadAck(n) => n.fileId
    case Revoke(n) => n.fileId
    case _ => Missing
  }

  /** The file a request names; meaningful once the request is known to name one. */
  function FileOf(e: Envelope): FileId {
    var field := NamedField(e.request);
    if field.Text? then field.text else ""
  }

  function Owner(e: Envelope, row: Row): User {
    if e.request.Revoke? then row.sender else row.recipient
  }

  predicate BadNotice(r: Request) {
    (r.DownloadAck? || r.Revoke?) && !ValidNotice(r.notice)
  }

  /** get_file, then the ownership check on what it returned. */
  function OnLookup(d: Shared, ses: Session, e: Envelope): Op {
    var field := NamedField(e.request);
    if BadNotice(e.request) || field.Missing? then Op(d, Done(Error(MALFORMED)))
    else if field.Unbindable? then Op(d, Done(Dropped))
    else if !field.Text? || field.text !in d.files then Op(d, Done(Error(NOT_FOUND)))
    else if Owner(e, d.files[field.text]) != ses.subject
    then Op(d, Done(Error(if e.request.Download? then AUTH_FAILED else NOT_AUTHORIZED)))
    else Op(d, To(Held(e, d.files[field.text])))
  }

  function OnUploadChecks(cfg: Config, d: Shared, ses: Session, e: Envelope, p: Package, now: int): Op {
    var d' := ReadClock(d, now);
    if !SenderCertOk(cfg, ses, now) then Op(d', Done(Error(AUTH_FAILED)))
    else if !ValidPackage(p) then Op(d', Done(Error(MALFORMED)))
    else if !VerifyOrigin(ses.cert, p.signature.value, PackageOrigin(ses.subject, p)) then Op(d', Done(Error(AUTH_FAILED)))
    else Op(d', To(Signed(e)))
  }

  // The checks on the snapshot, at the clock reading now.

  function OnDecideDownload(d: Shared, ses: Session, e: Envelope, row: Row, now: int): Op {
    var refusal := DownloadRefusal(row, ses.subject, now);
    Op(ReadClock(d, now),
       if ExpiresOnDownload(row, ses.subject, now) then To(Expiring(e, row))
       else if refusal.Some? then Done(Error(refusal.value))
       else To(Serving(e, row)))
  }

  function OnDecideAck(cfg: Config, d: Shared, ses: Session, e: Envelope, n: Notice, now: int): Op
    requires ValidNotice(n)
  {
    Op(ReadClock(d, now),
       if SenderCertOk(cfg, ses, now) && VerifyAck(ses.cert, n.signature.value, n.fileId.text, n.timestamp.value)
       then To(Acking(e)) else Done(Error(AUTH_FAILED)))
  }

  function OnDecideRevoke(cfg: Config, d: Shared, ses: Session, e: Envelope, n: Notice, row: Row, now: int): Op
    requires ValidNotice(n)
  {
    var d' := ReadClock(d, now);
    if !SenderCertOk(cfg, ses, now)
       || !VerifyRevoke(ses.cert, n.signature.value, ses.subject, n.fileId.text, n.timestamp.value)
    then Op(d', Done(Error(AUTH_FAILED)))
    else
      var proof := RevokeProof(n.fileId.text, ses.cert, n.signature.value, n.timestamp.value);
      Op(d'.(history := d'.history.(revokes := d'.history.revokes + {proof})),
         match row.status
         case Revoked => Done(RevokeAck(n.fileId.text))
         case Downloaded => Done(Error(ALREADY_DOWNLOADED))
         case Expired => Done(Error(EXPIRED))
         case Pending => To(Revoking(e, row)))
  }

  function OnDecide(cfg: Config, d: Shared, ses: Session, e: Envelope, row: Row, now: int): Op {
    match e.request
    case Download(_) => OnDecideDownload(d, ses, e, row, now)
    case DownloadAck(n) => if ValidNotice(n) then OnDecideAck(cfg, d, ses, e, n, now) else Op(d, To(Held(e, row)))
    case Revoke(n) => if ValidNotice(n) then OnDecideRevoke(cfg, d, ses, e, n, row, now) else Op(d, To(Held(e, row)))
    case _ => Op(d, To(Held(e, row)))
  }

  function OnMark(d: Shared, f: FileId, status: Status, reply: Reply): Op {
    Op(d.(files := MarkStatus(d.files, f, status)), Done(reply))
  }

  function OnServe(cfg: Config, d: Shared, f: FileId, row: Row, diskOk: bool): Op {
    var blob := BlobOf(d.disk, f);
    Op(d, Done(if blob.None? || !diskOk then Error(INTERNAL_ERROR)
               else Send(cfg, DownloadResponse(ResponseFor(f, row, blob.value)))))
  }

  function OnStoreAck(d: Shared, e: Envelope, f: FileId, ack: AckRow): Op {
    if FitsSqlite(ack.ackTime) then Op(d.(acks := InsertAck(d.acks, f, ack)), To(AckStored(e))) else Op(d, Done(Dropped))
  }

  // Disk operations. A failing one ends the upload with INTERNAL_ERROR.

  function OpenTmp(disk: Disk, f: FileId): Disk {
    if f in disk.tmp then disk.(inodes := disk.inodes[(f, disk.tmp[f]) := []])
    else Disk(disk.tmp[f := disk.next], disk.blob, disk.inodes[(f, disk.next) := []], disk.next + 1)
  }

  /** The file after chunk is written at offset at; a hole reads as zeros. */
  function Overlay(content: Bytes, at: nat, chunk: Bytes): Bytes {
    var head := if |content| < at then content + seq(at - |content|, _ => Byte(0)) else content[..at];
    head + chunk + if at + |chunk| < |content| then content[at + |chunk|..] else []
  }

  function WriteAt(disk: Disk, f: FileId, gen: nat, at: nat, chunk: Bytes): Disk {
    var content := if (f, gen) in disk.inodes then disk.inodes[(f, gen)] else [];
    disk.(inodes := disk.inodes[(f, gen) := Overlay(content, at, chunk)])
  }

  function Rename(disk: Disk, f: FileId): Disk
    requires f in disk.tmp
  {
    disk.(blob := disk.blob[f := disk.tmp[f]], tmp := disk.tmp - {f})
  }

  function OnOpen(d: Shared, e: Envelope, f: FileId, diskOk: bool): Op {
    if !diskOk then Op(d, Done(Error(INTERNAL_ERROR)))
    else
      var disk := OpenTmp(d.disk, f);
      Op(d.(disk := disk), To(Writing(e, disk.tmp[f], 0)))
  }

  /** Writes the next chunk, or renames the temporary file once everything is written. */
  function OnWrite(d: Shared, e: Envelope, f: FileId, data: Bytes, gen: nat, written: nat, chunk: nat, diskOk: bool): Op {
    if !diskOk then Op(d, Done(Error(INTERNAL_ERROR)))
    else if written < |data| then
      var upto := if written + chunk < |data| then written + chunk else |data|;
      Op(d.(disk := WriteAt(d.disk, f, gen, written, data[written..upto])), To(Writing(e, gen, upto)))
    else if f !in d.disk.tmp then Op(d, Done(Error(INTERNAL_ERROR)))
    else Op(d.(disk := Rename(d.disk, f)), To(Replaced(e)))
  }

  function OnInsert(d: Shared, f: FileId, row: Row): Op {
    if CanInsertFile(d.files, f, row) then Op(d.(files := d.files[f := row]), Done(UploadAck(f, row.expiration)))
    else Op(d, Done(Dropped))
  }

  predicate UploadPc(pc: Pc) {
    (pc.Signed? || pc.Ready? || pc.Writing? || pc.Replaced?) && pc.e.request.Upload? && ValidPackage(pc.e.request.package)
  }

  function OnUpload(cfg: Config, d: Shared, ses: Session, pc: Pc, now: int, chunk: nat, diskOk: bool): Op
    requires UploadPc(pc)
  {
    var p := pc.e.request.package;
    var f := p.fileId.text;
    match pc
    case Signed(e) =>
      Op(ReadClock(d, now), if LookupCert(cfg, p.recipient.text, now).None? then Done(Error(NOT_FOUND)) else To(Ready(e)))
    case Ready(e) => OnOpen(d, e, f, diskOk)
    case Writing(e, gen, written) => OnWrite(d, e, f, p.ciphertext.value, gen, written, chunk, diskOk)
    case Replaced(_) => OnInsert(d, f, UploadedRow(ses, p))
  }

  predicate AckPc(pc: Pc) {
    (pc.Acking? || pc.AckStored?) && pc.e.request.DownloadAck? && ValidNotice(pc.e.request.notice)
  }

  function OnAck(d: Shared, pc: Pc): Op
    requires AckPc(pc)
  {
    var n := pc.e.request.notice;
    if pc.Acking? then OnStoreAck(d, pc.e, n.fileId.text, AckRow(n.signature.value, n.timestamp.value))
    else OnMark(d, n.fileId.text, Downloaded, AckOk(n.fileId.text))
  }

  function OnChecked(cfg: Config, d: Shared, ses: Session, e: Envelope, now: int): Op {
    if e.request.Upload? then OnUploadChecks(cfg, d, ses, e, e.request.package, now) else OnLookup(d, ses, e)
  }

  function OnGo(cfg: Config, d: Shared, ses: Session, pc: Pc, now: int, chunk: nat, diskOk: bool): Op {
    if UploadPc(pc) then OnUpload(cfg, d, ses, pc, now, chunk, diskOk)
    else if AckPc(pc) then OnAck(d, pc)
    else match pc
      case Checked(e) => OnChecked(cfg, d, ses, e, now)
      case Held(e, row) => OnDecide(cfg, d, ses, e, row, now)
      case Expiring(e, _) => OnMark(d, FileOf(e), Expired, Error(EXPIRED))
      case Revoking(e, _) => OnMark(d, FileOf(e), Status.Revoked, RevokeAck(FileOf(e)))
      case Serving(e, row) => OnServe(cfg, d, FileOf(e), row, diskOk)
      case _ => Op(d, To(pc))
  }

  // ---------- The whole system ----------

  datatype Effect = Effect(y: System, reply: Option<Reply>)

  function Silent(y: System): Effect { Effect(y, None) }

  /** After a dropped reply the connection is closed; after any other the thread waits again. */
  function Land(y: System, tid: nat, op: Op): Effect
    requires tid in y.conns
  {
    match op.move
    case To(pc) => Silent(System(op.shared, y.conns[tid := y.conns[tid].(pc := pc)], y.cleaner))
    case Done(reply) =>
      Effect(System(op.shared, if reply.Dropped? then y.conns - {tid} else y.conns[tid := y.conns[tid].(pc := Idle)], y.cleaner),
             Some(reply))
  }

  function OnConnect(cfg: Config, y: System, tid: nat, cert: Cert, now: int): System {
    if tid in y.conns || !VerifyCertificate(cert, cfg.ca, now, None) then y
    else System(y.shared.(history := y.shared.history.(certs := y.shared.history.certs + {cert})),
                y.conns[tid := Conn(Session(cert.claims.subject, cert), Idle)], y.cleaner)
  }

  function OnTick(y: System, now: int, ok: bool): System {
    var d := y.shared;
    match y.cleaner
    case Asleep => y.(shared := ReadClock(d, now), cleaner := Woken(now))
    case Woken(start) =>
      if ok then y.(shared := ReadClock(d, now).(seen := Purge(d.seen, now)), cleaner := Purged(start)) else y.(cleaner := Asleep)
    case Purged(start) =>
      if ok then y.(shared := d.(files := MarkExpired(d.files, start)), cleaner := Asleep) else y.(cleaner := Asleep)
  }

  /** A crash loses the threads; the database and the disk stay as the last operation left them. */
  function Next(cfg: Config, y: System, l: Label): Effect {
    match l
    case Connect(tid, cert, now) => Silent(OnConnect(cfg, y, tid, cert, now))
    case Receive(tid, e, now, diskOk) =>
      if tid in y.conns && y.conns[tid].pc.Idle?
      then Land(y, tid, OnReceive(cfg, y.shared, y.conns[tid].session, e, now, diskOk)) else Silent(y)
    case Go(tid, now, chunk, diskOk) =>
      if tid in y.conns
      then Land(y, tid, OnGo(cfg, y.shared, y.conns[tid].session, y.conns[tid].pc, now, chunk, diskOk)) else Silent(y)
    case Disconnect(tid) =>
      if tid in y.conns && y.conns[tid].pc.Idle? then Silent(y.(conns := y.conns - {tid})) else Silent(y)
    case Tick(now, ok) => Silent(OnTick(y, now, ok))
    case Crash => Silent(y.(conns := map[], cleaner := Asleep))
  }

  function AfterOps(cfg: Config, ls: seq<Label>): System {
    if ls == [] then Boot else Next(cfg, AfterOps(cfg, ls[..|ls| - 1]), ls[|ls| - 1]).y
  }
}

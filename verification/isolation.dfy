/**
Non-interference: what other users send to the server cannot change the answers that the
users of a file get about it.
*/
module Isolation {
  import opened Wrappers
  import opened Crypto
  import opened Replay
  import opened Store
  import opened FileCrypto
  import opened Messages
  import opened HandlerSpec
  import opened Lifecycle

  /** Everything the server stores about one file. */
  datatype Slice = Slice(row: Option<Row>, blob: Option<Bytes>, ack: Option<AckRow>)

  function SliceOf(s: State, f: FileId): Slice {
    Slice(if f in s.files then Some(s.files[f]) else None,
          if f in s.blobs then Some(s.blobs[f]) else None,
          if f in s.acks then Some(s.acks[f]) else None)
  }

  predicate OwnRow(s: State, f: FileId, users: set<User>) {
    f in s.files ==> s.files[f].sender in users && s.files[f].recipient in users
  }

  /** The two states agree on file f and on the nonces in mine. */
  ghost predicate AgreeOn(s: State, u: State, f: FileId, users: set<User>, mine: Nonce -> bool) {
    SliceOf(s, f) == SliceOf(u, f) && OwnRow(s, f, users) && AgreeNonces(s.seen, u.seen, mine)
  }

  ghost predicate AgreeNonces(p: Table, q: Table, mine: Nonce -> bool) {
    forall n | mine(n) :: (n in p <==> n in q) && (n in p ==> p[n] == q[n])
  }

  /** An upload that names f comes from one of its users and goes to one of them. */
  predicate OwnUpload(e: Event, f: FileId, users: set<User>) {
    e.Arrive? && e.envelope.request.Upload? && Names(e.envelope.request, f) ==>
      && e.session.subject in users
      && (e.envelope.request.package.recipient.Text? ==> e.envelope.request.package.recipient.text in users)
  }

  predicate By(e: Event, users: set<User>) {
    e.Cleanup? || e.session.subject in users
  }

  ghost predicate NoncesSeparate(es: seq<Event>, users: set<User>, mine: Nonce -> bool) {
    forall e | e in es && e.Arrive? :: mine(e.envelope.nonce) <==> By(e, users)
  }

  /** The answers about f: replies to requests that name it, and its entry in a delivered list. */
  ghost predicate SameAbout(r: Request, a: Reply, b: Reply, f: FileId) {
    && (Names(r, f) ==> a == b)
    && (r.GetPubkey? ==> a == b)
    && (r.ListPending? && a.PendingList? && b.PendingList? ==> EntriesFor(a.entries, f) == EntriesFor(b.entries, f))
  }

  function EntriesFor(entries: set<Entry>, f: FileId): set<Entry> {
    set entry | entry in entries && entry.fileId == f
  }

  // ---------- One request ----------

  lemma SliceOfUpload(cfg: Config, s: State, f: FileId, ses: Session, p: Package, c: Ambient)
    requires p.fileId == Text(f) && UploadRefusal(cfg, ses, p, c).None?
    ensures var row, x, o := UploadedRow(ses, p), SliceOf(s, f), HandleUpload(cfg, s, ses, p, c);
            var inserts := x.row.None? && FitsSqlite(row.uploadTime) && FitsSqlite(row.expiration);
            && SliceOf(o.state, f) == Slice(if inserts then Some(row) else x.row, Some(p.ciphertext.value), x.ack)
            && o.reply == if inserts then UploadAck(f, row.expiration) else Dropped
  {
  }

  lemma SliceUpload(cfg: Config, s: State, u: State, f: FileId, ses: Session, p: Package, c: Ambient)
    requires SliceOf(s, f) == SliceOf(u, f) && p.fileId == Text(f)
    ensures SliceOf(HandleUpload(cfg, s, ses, p, c).state, f) == SliceOf(HandleUpload(cfg, u, ses, p, c).state, f)
    ensures HandleUpload(cfg, s, ses, p, c).reply == HandleUpload(cfg, u, ses, p, c).reply
  {
    if UploadRefusal(cfg, ses, p, c).None? {
      SliceOfUpload(cfg, s, f, ses, p, c);
      SliceOfUpload(cfg, u, f, ses, p, c);
    }
  }

  lemma SliceDownload(cfg: Config, s: State, u: State, f: FileId, ses: Session, c: Ambient)
    requires SliceOf(s, f) == SliceOf(u, f)
    ensures SliceOf(HandleDownload(cfg, s, ses, Text(f), c).state, f) == SliceOf(HandleDownload(cfg, u, ses, Text(f), c).state, f)
    ensures HandleDownload(cfg, s, ses, Text(f), c).reply == HandleDownload(cfg, u, ses, Text(f), c).reply
  {
    assert f in s.files <==> f in u.files;
    if f in s.files {
      DownloadRowShape(cfg, s, ses, f, c);
      DownloadRowShape(cfg, u, ses, f, c);
    }
  }

  lemma SliceAck(cfg: Config, s: State, u: State, f: FileId, ses: Session, n: Notice, c: Ambient)
    requires SliceOf(s, f) == SliceOf(u, f) && n.fileId == Text(f)
    ensures SliceOf(HandleAck(cfg, s, ses, n, c).state, f) == SliceOf(HandleAck(cfg, u, ses, n, c).state, f)
    ensures HandleAck(cfg, s, ses, n, c).reply == HandleAck(cfg, u, ses, n, c).reply
  {
    assert f in s.files <==> f in u.files;
    assert f in s.acks <==> f in u.acks;
  }

  lemma SliceRevoke(cfg: Config, s: State, u: State, f: FileId, ses: Session, n: Notice, c: Ambient)
    requires SliceOf(s, f) == SliceOf(u, f) && n.fileId == Text(f)
    ensures SliceOf(HandleRevoke(cfg, s, ses, n, c).state, f) == SliceOf(HandleRevoke(cfg, u, ses, n, c).state, f)
    ensures HandleRevoke(cfg, s, ses, n, c).reply == HandleRevoke(cfg, u, ses, n, c).reply
  {
    assert f in s.files <==> f in u.files;
  }

  /** A request that does not name f, or that comes from a stranger, leaves f alone: ownership is
      checked before every write, the expiry write of a download included. */
  lemma LeavesAlone(cfg: Config, s: State, f: FileId, ses: Session, r: Request, c: Ambient)
    requires Names(r, f) ==> !r.Upload? && (f in s.files ==> ses.subject !in {s.files[f].sender, s.files[f].recipient})
    ensures SliceOf(Dispatch(cfg, s, ses, r, c).state, f) == SliceOf(s, f)
  {
    if r.Download? && r.fileId.Text? && r.fileId.text in s.files {
      DownloadRowShape(cfg, s, ses, r.fileId.text, c);
    }
  }

  /** The owners of a row never change, and a row appears only through its own upload. */
  lemma OwnersStay(cfg: Config, s: State, f: FileId, users: set<User>, ses: Session, r: Request, c: Ambient)
    requires OwnRow(s, f, users)
    requires r.Upload? && Names(r, f) ==>
               ses.subject in users && (r.package.recipient.Text? ==> r.package.recipient.text in users)
    ensures OwnRow(Dispatch(cfg, s, ses, r, c).state, f, users)
  {
    if r.Download? && r.fileId.Text? && r.fileId.text in s.files {
      DownloadRowShape(cfg, s, ses, r.fileId.text, c);
    }
  }

  lemma EntriesOf(s: State, f: FileId, r: User, now: int, diskOk: bool)
    ensures EntriesFor(PendingEntries(s, r, now, diskOk), f)
            == if f in ListPendingFor(s.files, r, now) then {PendingEntry(s, f, diskOk)} else {}
  {
    if f in ListPendingFor(s.files, r, now) {
      assert PendingEntry(s, f, diskOk) in PendingEntries(s, r, now, diskOk);
    }
  }

  lemma SliceDispatch(cfg: Config, s: State, u: State, f: FileId, ses: Session, r: Request, c: Ambient)
    requires SliceOf(s, f) == SliceOf(u, f)
    ensures SliceOf(Dispatch(cfg, s, ses, r, c).state, f) == SliceOf(Dispatch(cfg, u, ses, r, c).state, f)
    ensures SameAbout(r, Dispatch(cfg, s, ses, r, c).reply, Dispatch(cfg, u, ses, r, c).reply, f)
  {
    if !Names(r, f) {
      LeavesAlone(cfg, s, f, ses, r, c);
      LeavesAlone(cfg, u, f, ses, r, c);
      if r.ListPending? {
        EntriesOf(s, f, ses.subject, c.check, c.diskOk);
        EntriesOf(u, f, ses.subject, c.check, c.diskOk);
        assert f in s.files <==> f in u.files;
        assert f in s.blobs <==> f in u.blobs;
      }
    } else {
      match r
      case Upload(p) => SliceUpload(cfg, s, u, f, ses, p, c);
      case Download(_) => SliceDownload(cfg, s, u, f, ses, c);
      case DownloadAck(n) => SliceAck(cfg, s, u, f, ses, n, c);
      case Revoke(n) => SliceRevoke(cfg, s, u, f, ses, n, c);
    }
  }

  lemma AgreeRecord(p: Table, q: Table, mine: Nonce -> bool, nonce: Nonce, timestamp: int, now: int)
    requires AgreeNonces(p, q, mine)
    ensures mine(nonce) ==> Accepts(p, nonce, timestamp, now) == Accepts(q, nonce, timestamp, now)
    ensures mine(nonce) ==> AgreeNonces(Record(p, nonce, timestamp, now), Record(q, nonce, timestamp, now), mine)
    ensures !mine(nonce) ==> AgreeNonces(Record(p, nonce, timestamp, now), q, mine)
  {
  }

  lemma AgreeDispatch(cfg: Config, s: State, u: State, f: FileId, users: set<User>, mine: Nonce -> bool,
                      ses: Session, r: Request, c: Ambient)
    requires AgreeOn(s, u, f, users, mine)
    requires r.Upload? && Names(r, f) ==>
               ses.subject in users && (r.package.recipient.Text? ==> r.package.recipient.text in users)
    ensures AgreeOn(Dispatch(cfg, s, ses, r, c).state, Dispatch(cfg, u, ses, r, c).state, f, users, mine)
    ensures SameAbout(r, Dispatch(cfg, s, ses, r, c).reply, Dispatch(cfg, u, ses, r, c).reply, f)
  {
    SliceDispatch(cfg, s, u, f, ses, r, c);
    OwnersStay(cfg, s, f, users, ses, r, c);
    DispatchKeepsNonces(cfg, s, ses, r, c);
    DispatchKeepsNonces(cfg, u, ses, r, c);
  }

  lemma AgreeRecorded(s: State, u: State, f: FileId, users: set<User>, mine: Nonce -> bool, e: Envelope, now: int)
    requires AgreeOn(s, u, f, users, mine)
    ensures mine(e.nonce) ==> Admits(s, e, now) == Admits(u, e, now)
    ensures mine(e.nonce) ==> AgreeOn(Recorded(s, e, now), Recorded(u, e, now), f, users, mine)
    ensures !mine(e.nonce) ==> AgreeOn(Recorded(s, e, now), u, f, users, mine)
  {
    AgreeRecord(s.seen, u.seen, mine, e.nonce, e.timestamp, now);
    assert SliceOf(Recorded(s, e, now), f) == SliceOf(s, f) && SliceOf(Recorded(u, e, now), f) == SliceOf(u, f);
  }

  lemma AgreeArrival(cfg: Config, s: State, u: State, f: FileId, users: set<User>, mine: Nonce -> bool, e: Event)
    requires AgreeOn(s, u, f, users, mine) && e.Arrive? && OwnUpload(e, f, users)
    requires By(e, users) && mine(e.envelope.nonce)
    ensures AgreeOn(Step(cfg, s, e), Step(cfg, u, e), f, users, mine)
    ensures SameAbout(e.envelope.request, ReplyTo(cfg, s, e), ReplyTo(cfg, u, e), f)
  {
    var now := e.ambient.replay;
    AgreeRecorded(s, u, f, users, mine, e.envelope, now);
    if Admits(s, e.envelope, now) {
      AgreeDispatch(cfg, Recorded(s, e.envelope, now), Recorded(u, e.envelope, now), f, users, mine,
                    e.session, e.envelope.request, e.ambient);
    }
  }

  lemma StrangerLeavesAlone(cfg: Config, s: State, u: State, f: FileId, users: set<User>, mine: Nonce -> bool, e: Event)
    requires AgreeOn(s, u, f, users, mine) && e.Arrive? && OwnUpload(e, f, users)
    requires !By(e, users) && !mine(e.envelope.nonce)
    ensures AgreeOn(Step(cfg, s, e), u, f, users, mine)
  {
    var now := e.ambient.replay;
    AgreeRecorded(s, u, f, users, mine, e.envelope, now);
    if Admits(s, e.envelope, now) {
      StrangerDispatch(cfg, Recorded(s, e.envelope, now), u, f, users, mine, e.session, e.envelope.request, e.ambient);
    }
  }

  lemma StrangerDispatch(cfg: Config, s: State, u: State, f: FileId, users: set<User>, mine: Nonce -> bool,
                         ses: Session, r: Request, c: Ambient)
    requires AgreeOn(s, u, f, users, mine)
    requires ses.subject !in users && !(r.Upload? && Names(r, f))
    ensures AgreeOn(Dispatch(cfg, s, ses, r, c).state, u, f, users, mine)
  {
    LeavesAlone(cfg, s, f, ses, r, c);
    OwnersStay(cfg, s, f, users, ses, r, c);
    DispatchKeepsNonces(cfg, s, ses, r, c);
  }

  lemma AgreeCleanup(s: State, u: State, f: FileId, users: set<User>, mine: Nonce -> bool, tick: Tick)
    requires AgreeOn(s, u, f, users, mine)
    ensures AgreeOn(CleanupPass(s, tick), CleanupPass(u, tick), f, users, mine)
  {
    assert f in s.files <==> f in u.files;
    assert f in s.blobs <==> f in u.blobs;
    assert f in s.acks <==> f in u.acks;
  }

  // ---------- Runs ----------

  lemma {:induction false} AgreeRuns(cfg: Config, es: seq<Event>, f: FileId, users: set<User>, mine: Nonce -> bool)
    requires NoncesSeparate(es, users, mine)
    requires forall e | e in es :: OwnUpload(e, f, users)
    ensures var keep := e => By(e, users);
            && AgreeOn(After(cfg, EmptyState, es), After(cfg, EmptyState, Filter(es, keep)), f, users, mine)
            && var a := Answers(cfg, EmptyState, es, keep);
               var b := Answers(cfg, EmptyState, Filter(es, keep), keep);
               |a| == |b| && forall i | 0 <= i < |a| :: SameAnswerAbout(a[i], b[i], f)
  {
    var keep := e => By(e, users);
    if es != [] {
      var n := |es| - 1;
      var e := es[n];
      AgreeRuns(cfg, es[..n], f, users, mine);
      var s, u := After(cfg, EmptyState, es[..n]), After(cfg, EmptyState, Filter(es[..n], keep));
      if !keep(e) {
        StrangerLeavesAlone(cfg, s, u, f, users, mine, e);
      } else {
        var kept := Filter(es, keep);
        assert kept[..|kept| - 1] == Filter(es[..n], keep);
        if e.Arrive? {
          AgreeArrival(cfg, s, u, f, users, mine, e);
        } else {
          AgreeCleanup(s, u, f, users, mine, e.tick);
        }
      }
    }
  }

  ghost predicate SameAnswerAbout(a: Answer, b: Answer, f: FileId) {
    a.event == b.event && a.event.Arrive? && SameAbout(a.event.envelope.request, a.reply, b.reply, f)
  }

  /** Erasing every request of other users leaves every answer about f unchanged, given that the
      nonces of the two groups differ and that f is only uploaded among its own users. */
  lemma NonInterference(cfg: Config, es: seq<Event>, f: FileId, users: set<User>)
    requires forall d, e | d in es && e in es && d.Arrive? && e.Arrive? && By(d, users) && !By(e, users) ::
               d.envelope.nonce != e.envelope.nonce
    requires forall e | e in es :: OwnUpload(e, f, users)
    ensures var keep := e => By(e, users);
            var a := Answers(cfg, EmptyState, es, keep);
            var b := Answers(cfg, EmptyState, Filter(es, keep), keep);
            |a| == |b| && forall i | 0 <= i < |a| :: SameAnswerAbout(a[i], b[i], f)
  {
    var own := set e | e in es && e.Arrive? && By(e, users) :: e.envelope.nonce;
    AgreeRuns(cfg, es, f, users, n => n in own);
  }
}

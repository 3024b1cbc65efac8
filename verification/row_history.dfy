/**
What a run can do to one file: how often its status changes, and when the recipient's list
and the download handler agree about it.
*/
module RowHistory {
  import opened Wrappers
  import opened Crypto
  import opened Replay
  import opened Store
  import opened FileCrypto
  import opened Messages
  import opened HandlerSpec
  import opened Lifecycle

  // ---------- Bounded status changes ----------

  function Rank(s: Status): nat {
    match s
    case Pending => 0
    case Expired => 1
    case Revoked => 1
    case Downloaded => 2
  }

  function RankIn(files: Files, f: FileId): nat {
    if f in files then Rank(files[f].status) else 0
  }

  predicate StatusChanges(a: Files, b: Files, f: FileId) {
    f in a && f in b && a[f].status != b[f].status
  }

  /** A row is never removed or replaced, a new row is pending, and a status only moves up. */
  predicate GrowsAt(a: Files, b: Files, f: FileId) {
    && (f in a ==> f in b && b[f] == a[f].(status := b[f].status)
                   && (b[f].status == a[f].status || Rank(a[f].status) < Rank(b[f].status)))
    && (f in b && f !in a ==> b[f].status == Pending)
  }

  /** The one thing a handler may do to the table: insert a pending row, or raise one status. */
  predicate OneWrite(a: Files, b: Files, f: FileId) {
    || b == a
    || (f !in a && f in b && b[f].status == Pending && b == a[f := b[f]])
    || (f in a && f in b && b == MarkStatus(a, f, b[f].status) && Rank(a[f].status) < Rank(b[f].status))
  }

  lemma AckWritesOnce(cfg: Config, s: State, ses: Session, n: Notice, c: Ambient)
    requires n.fileId.Text?
    ensures OneWrite(s.files, HandleAck(cfg, s, ses, n, c).state.files, n.fileId.text)
  {
  }

  lemma DispatchWritesOnce(cfg: Config, s: State, ses: Session, r: Request, c: Ambient)
    ensures var b := Dispatch(cfg, s, ses, r, c).state.files;
            b == s.files || exists f :: Names(r, f) && OneWrite(s.files, b, f)
  {
    match r
    case Download(fileId) =>
      if fileId.Text? && fileId.text in s.files {
        DownloadRowShape(cfg, s, ses, fileId.text, c);
        assert Names(r, fileId.text);
      }
    case DownloadAck(n) =>
      if n.fileId.Text? {
        AckWritesOnce(cfg, s, ses, n, c);
        assert Names(r, n.fileId.text);
      }
    case Revoke(n) =>
      RevokeShape(cfg, s, ses, n, c);
      if n.fileId.Text? {
        assert Names(r, n.fileId.text);
      }
    case Upload(p) =>
      if p.fileId.Text? {
        assert Names(r, p.fileId.text);
      }
    case GetPubkey(_) =>
    case ListPending =>
    case OtherType =>
  }

  lemma DispatchGrows(cfg: Config, s: State, ses: Session, r: Request, c: Ambient, f: FileId)
    ensures GrowsAt(s.files, Dispatch(cfg, s, ses, r, c).state.files, f)
  {
    DispatchWritesOnce(cfg, s, ses, r, c);
  }

  lemma StepGrows(cfg: Config, s: State, e: Event, f: FileId)
    ensures GrowsAt(s.files, Step(cfg, s, e).files, f)
  {
    if e.Arrive? {
      DispatchGrows(cfg, Recorded(s, e.envelope, e.ambient.replay), e.session, e.envelope.request, e.ambient, f);
    }
  }

  function Changes(cfg: Config, s: State, es: seq<Event>, f: FileId): nat {
    if es == [] then 0 else
      var before := After(cfg, s, es[..|es| - 1]);
      Changes(cfg, s, es[..|es| - 1], f)
      + if StatusChanges(before.files, Step(cfg, before, es[|es| - 1]).files, f) then 1 else 0
  }

  /** In any run from any state every status change climbs one of at most two ranks. */
  lemma {:induction false} AtMostTwoChanges(cfg: Config, s: State, es: seq<Event>, f: FileId)
    ensures RankIn(s.files, f) + Changes(cfg, s, es, f) <= RankIn(After(cfg, s, es).files, f) <= 2
  {
    if es != [] {
      AtMostTwoChanges(cfg, s, es[..|es| - 1], f);
      StepGrows(cfg, After(cfg, s, es[..|es| - 1]), es[|es| - 1], f);
    }
  }

  // ---------- Listing agrees with downloading ----------

  ghost predicate RowsHaveBlobs(s: State) {
    forall f | f in s.files :: f in s.blobs
  }

  lemma DispatchKeepsBlobs(cfg: Config, s: State, ses: Session, r: Request, c: Ambient)
    requires RowsHaveBlobs(s)
    ensures RowsHaveBlobs(Dispatch(cfg, s, ses, r, c).state)
  {
    if r.Download? && r.fileId.Text? && r.fileId.text in s.files {
      DownloadRowShape(cfg, s, ses, r.fileId.text, c);
    }
  }

  lemma {:induction false} ReachableRowsHaveBlobs(cfg: Config, es: seq<Event>)
    ensures RowsHaveBlobs(After(cfg, EmptyState, es))
  {
    if es != [] {
      var e := es[|es| - 1];
      ReachableRowsHaveBlobs(cfg, es[..|es| - 1]);
      var s := After(cfg, EmptyState, es[..|es| - 1]);
      if e.Arrive? {
        DispatchKeepsBlobs(cfg, Recorded(s, e.envelope, e.ambient.replay), e.session, e.envelope.request, e.ambient);
      }
    }
  }

  ghost predicate Lists(reply: Reply, f: FileId) {
    reply.PendingList? && exists entry :: entry in reply.entries && entry.fileId == f
  }

  lemma ListsExactly(cfg: Config, s: State, ses: Session, c: Ambient, f: FileId)
    requires cfg.fits(PendingList(PendingEntries(s, ses.subject, c.check, c.diskOk)))
    ensures Lists(Dispatch(cfg, s, ses, Request.ListPending, c).reply, f)
            <==> f in ListPendingFor(s.files, ses.subject, c.check)
  {
    if f in ListPendingFor(s.files, ses.subject, c.check) {
      assert PendingEntry(s, f, c.diskOk) in PendingEntries(s, ses.subject, c.check, c.diskOk);
    }
  }

  lemma ListingSurvivesCleanup(s: State, tick: Tick, r: User, now: int)
    requires tick.now <= now
    ensures ListPendingFor(CleanupPass(s, tick).files, r, now) == ListPendingFor(s.files, r, now)
  {
  }

  lemma Served(cfg: Config, s: State, ses: Session, f: FileId, c: Ambient)
    requires f in ListPendingFor(s.files, ses.subject, c.check) && f in s.blobs && c.diskOk
    requires cfg.fits(DownloadResponse(ResponseFor(f, s.files[f], s.blobs[f])))
    ensures HandleDownload(cfg, s, ses, Text(f), c).reply == DownloadResponse(ResponseFor(f, s.files[f], s.blobs[f]))
  {
    DownloadRowShape(cfg, s, ses, f, c);
  }

  lemma NotServed(cfg: Config, s: State, ses: Session, f: FileId, c: Ambient)
    requires f !in ListPendingFor(s.files, ses.subject, c.check)
    ensures !HandleDownload(cfg, s, ses, Text(f), c).reply.DownloadResponse?
  {
    if f in s.files {
      DownloadRowShape(cfg, s, ses, f, c);
    }
  }

  /** In every reachable state a file is in the list sent to its reader at some time exactly when
      a fresh download of it at that time is served, and a cleanup pass in between changes neither. */
  lemma ListedIffServed(cfg: Config, es: seq<Event>, ses: Session, f: FileId, c: Ambient, nonce: Nonce, timestamp: int, tick: Tick)
    requires tick.now <= c.check && c.diskOk
    requires var s := After(cfg, EmptyState, es);
             && Accepts(s.seen, nonce, timestamp, c.replay)
             && cfg.fits(PendingList(PendingEntries(s, ses.subject, c.check, true)))
             && (f in s.files && f in s.blobs ==> cfg.fits(DownloadResponse(ResponseFor(f, s.files[f], s.blobs[f]))))
    ensures var s := After(cfg, EmptyState, es);
            var list := Handle(cfg, s, ses, Envelope(nonce, timestamp, Request.ListPending), c).reply;
            var ask := Envelope(nonce, timestamp, Download(Text(f)));
            && (Lists(list, f) <==> Handle(cfg, s, ses, ask, c).reply.DownloadResponse?)
            && (Lists(list, f) <==> HandleDownload(cfg, CleanupPass(s, tick), ses, Text(f), c).reply.DownloadResponse?)
  {
    ReachableRowsHaveBlobs(cfg, es);
    var s := After(cfg, EmptyState, es);
    var recorded, cleaned := Recorded(s, Envelope(nonce, timestamp, Download(Text(f))), c.replay), CleanupPass(s, tick);
    ListsExactly(cfg, s, ses, c, f);
    ListingSurvivesCleanup(s, tick, ses.subject, c.check);
    if f in ListPendingFor(s.files, ses.subject, c.check) {
      assert cleaned.files[f] == s.files[f];
      Served(cfg, recorded, ses, f, c);
      Served(cfg, cleaned, ses, f, c);
    } else {
      NotServed(cfg, recorded, ses, f, c);
      NotServed(cfg, cleaned, ses, f, c);
    }
  }
}

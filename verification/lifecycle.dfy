/**
Whole runs of the server with one handler at a time: any requests from any sessions, with
cleanup passes anywhere between them.
*/
module Lifecycle {
  import opened Wrappers
  import opened Crypto
  import opened Replay
  import opened Store
  import opened FileCrypto
  import opened Messages
  import opened HandlerSpec

  datatype Event =
    | Arrive(session: Session, envelope: Envelope, ambient: Ambient)
    | Cleanup(tick: Tick)

  function Step(cfg: Config, s: State, e: Event): State {
    match e
    case Arrive(ses, envelope, c) => Handle(cfg, s, ses, envelope, c).state
    case Cleanup(tick) => CleanupPass(s, tick)
  }

  function ReplyTo(cfg: Config, s: State, e: Event): Reply
    requires e.Arrive?
  {
    Handle(cfg, s, e.session, e.envelope, e.ambient).reply
  }

  function After(cfg: Config, s: State, es: seq<Event>): State {
    if es == [] then s else Step(cfg, After(cfg, s, es[..|es| - 1]), es[|es| - 1])
  }

  predicate Arrives(e: Event) { e.Arrive? }

  function Filter(es: seq<Event>, keep: Event -> bool): seq<Event> {
    if es == [] then [] else
      var before := Filter(es[..|es| - 1], keep);
      if keep(es[|es| - 1]) then before + [es[|es| - 1]] else before
  }

  /** late marks a revoke that names a row already past its expiration. */
  datatype Answer = Answer(event: Event, reply: Reply, late: bool)

  predicate LateRevoke(s: State, e: Event) {
    && e.Arrive? && e.envelope.request.Revoke? && e.envelope.request.notice.fileId.Text?
    && var f := e.envelope.request.notice.fileId.text;
       f in s.files && s.files[f].expiration < e.ambient.replay
  }

  /** The answers of the run to the requests that satisfy keep, in order. */
  function Answers(cfg: Config, s: State, es: seq<Event>, keep: Event -> bool): seq<Answer> {
    if es == [] then [] else
      var before := Answers(cfg, s, es[..|es| - 1], keep);
      var at := After(cfg, s, es[..|es| - 1]);
      var e := es[|es| - 1];
      if e.Arrive? && keep(e) then before + [Answer(e, ReplyTo(cfg, at, e), LateRevoke(at, e))] else before
  }

  // ---------- Time ----------

  function Begin(e: Event): int {
    if e.Arrive? then e.ambient.replay else e.tick.now
  }

  function End(e: Event): int {
    if e.Arrive? then e.ambient.lookup else e.tick.purgeNow
  }

  predicate Ordered(e: Event) {
    if e.Arrive? then e.ambient.replay <= e.ambient.check <= e.ambient.lookup else e.tick.now <= e.tick.purgeNow
  }

  ghost predicate Monotone(es: seq<Event>) {
    && (forall i :: 0 <= i < |es| ==> Ordered(es[i]))
    && (forall i, j :: 0 <= i < j < |es| ==> End(es[i]) <= Begin(es[j]))
  }

  ghost predicate OneStamp(es: seq<Event>) {
    forall i, j :: 0 <= i < j < |es| && es[i].Arrive? && es[j].Arrive?
                   && es[i].envelope.nonce == es[j].envelope.nonce ==>
      es[i].envelope.timestamp == es[j].envelope.timestamp
  }

  ghost predicate Stamps(es: seq<Event>, stamp: Nonce -> int) {
    forall i :: 0 <= i < |es| && es[i].Arrive? ==> es[i].envelope.timestamp == stamp(es[i].envelope.nonce)
  }

  ghost predicate Dates(es: seq<Event>, n: Nonce, t: int) {
    exists i :: 0 <= i < |es| && es[i].Arrive? && es[i].envelope.nonce == n && es[i].envelope.timestamp == t
  }

  lemma StampsExist(es: seq<Event>) returns (stamp: Nonce -> int)
    requires OneStamp(es)
    ensures Stamps(es, stamp)
  {
    stamp := n => if exists t :: Dates(es, n, t) then var t :| Dates(es, n, t); t else 0;
    forall i | 0 <= i < |es| && es[i].Arrive?
      ensures es[i].envelope.timestamp == stamp(es[i].envelope.nonce)
    {
      assert Dates(es, es[i].envelope.nonce, es[i].envelope.timestamp);
    }
  }

  // ---------- Cleanup is invisible ----------

  predicate AlikeRow(a: Row, b: Row, t: int) {
    a == b.(status := a.status) && (a.status == b.status || a.expiration < t)
  }

  ghost predicate AlikeFiles(a: Files, b: Files, t: int) {
    a.Keys == b.Keys && forall f | f in a :: AlikeRow(a[f], b[f], t)
  }

  ghost predicate AlikeData(s: State, u: State, t: int) {
    s.acks == u.acks && s.blobs == u.blobs && AlikeFiles(s.files, u.files, t)
  }

  /** s ran with cleanup and u without: rows differ in status only when past expiration at t. */
  ghost predicate Alike(s: State, u: State, stamp: Nonce -> int, t: int) {
    AlikeData(s, u, t) && Shadows(s.seen, u.seen, stamp, t)
  }

  lemma AlikeMark(a: Files, b: Files, t: int, f: FileId, status: Status)
    requires AlikeFiles(a, b, t)
    ensures AlikeFiles(MarkStatus(a, f, status), MarkStatus(b, f, status), t)
    ensures f in a && a[f].expiration < t ==> AlikeFiles(MarkStatus(a, f, status), b, t)
    ensures f in a && a[f].expiration < t ==> AlikeFiles(a, MarkStatus(b, f, status), t)
  {
  }

  /** The files after the opportunistic expiry write of a download. */
  function Expiring(files: Files, f: FileId, requester: User, now: int): Files
    requires f in files
  {
    if ExpiresOnDownload(files[f], requester, now) then MarkStatus(files, f, Expired) else files
  }

  lemma AlikeExpiring(a: Files, b: Files, t: int, f: FileId, requester: User, now: int)
    requires AlikeFiles(a, b, t) && f in a && t <= now
    ensures AlikeFiles(Expiring(a, f, requester, now), Expiring(b, f, requester, now), t)
    ensures DownloadRefusal(a[f], requester, now) == DownloadRefusal(b[f], requester, now)
    ensures DownloadRefusal(a[f], requester, now).None? ==> a[f] == b[f]
  {
    assert AlikeRow(a[f], b[f], t);
    AlikeMark(a, b, t, f, Expired);
  }

  lemma DownloadRowShape(cfg: Config, s: State, ses: Session, f: FileId, c: Ambient)
    requires f in s.files
    ensures DownloadRow(cfg, s, ses, f, c).state == s.(files := Expiring(s.files, f, ses.subject, c.check))
    ensures DownloadRow(cfg, s, ses, f, c).reply ==
            match DownloadRefusal(s.files[f], ses.subject, c.check)
            case Some(code) => Error(code)
            case None => if !c.diskOk || f !in s.blobs then Error(INTERNAL_ERROR)
                         else Send(cfg, DownloadResponse(ResponseFor(f, s.files[f], s.blobs[f])))
  {
  }

  lemma AlikeDownloadRow(cfg: Config, s: State, u: State, t: int, ses: Session, f: FileId, c: Ambient)
    requires AlikeData(s, u, t) && t <= c.check && f in s.files
    ensures AlikeData(DownloadRow(cfg, s, ses, f, c).state, DownloadRow(cfg, u, ses, f, c).state, t)
    ensures DownloadRow(cfg, s, ses, f, c).reply == DownloadRow(cfg, u, ses, f, c).reply
  {
    AlikeExpiring(s.files, u.files, t, f, ses.subject, c.check);
    DownloadRowShape(cfg, s, ses, f, c);
    DownloadRowShape(cfg, u, ses, f, c);
  }

  lemma AlikeDownload(cfg: Config, s: State, u: State, t: int, ses: Session, fileId: Field, c: Ambient)
    requires AlikeData(s, u, t) && t <= c.check
    ensures AlikeData(HandleDownload(cfg, s, ses, fileId, c).state, HandleDownload(cfg, u, ses, fileId, c).state, t)
    ensures HandleDownload(cfg, s, ses, fileId, c).reply == HandleDownload(cfg, u, ses, fileId, c).reply
  {
    if fileId.Text? && fileId.text in s.files {
      AlikeDownloadRow(cfg, s, u, t, ses, fileId.text, c);
    }
  }

  lemma AlikeAck(cfg: Config, s: State, u: State, t: int, ses: Session, n: Notice, c: Ambient)
    requires AlikeData(s, u, t)
    ensures AlikeData(HandleAck(cfg, s, ses, n, c).state, HandleAck(cfg, u, ses, n, c).state, t)
    ensures HandleAck(cfg, s, ses, n, c).reply == HandleAck(cfg, u, ses, n, c).reply
  {
    if ValidNotice(n) {
      var f := n.fileId.text;
      if f in s.files {
        assert AlikeRow(s.files[f], u.files[f], t);
        AlikeMark(s.files, u.files, t, f, Downloaded);
      }
    }
  }

  lemma RevokeShape(cfg: Config, s: State, ses: Session, n: Notice, c: Ambient)
    ensures var o := HandleRevoke(cfg, s, ses, n, c);
            o.state == s || (n.fileId.Text? && n.fileId.text in s.files && s.files[n.fileId.text].status == Pending
                             && o.state == s.(files := MarkStatus(s.files, n.fileId.text, Status.Revoked)))
  {
  }

  lemma AlikeRevoke(cfg: Config, s: State, u: State, t: int, ses: Session, n: Notice, c: Ambient)
    requires AlikeData(s, u, t)
    ensures AlikeData(HandleRevoke(cfg, s, ses, n, c).state, HandleRevoke(cfg, u, ses, n, c).state, t)
    ensures HandleRevoke(cfg, s, ses, n, c).reply == HandleRevoke(cfg, u, ses, n, c).reply
            || (n.fileId.Text? && n.fileId.text in u.files && u.files[n.fileId.text].expiration < t)
  {
    if n.fileId.Text? && n.fileId.text in s.files {
      var f := n.fileId.text;
      assert AlikeRow(s.files[f], u.files[f], t);
      AlikeMark(s.files, u.files, t, f, Status.Revoked);
      if s.files[f].expiration < t {
        RevokeShape(cfg, s, ses, n, c);
        RevokeShape(cfg, u, ses, n, c);
      }
    }
  }

  lemma AlikeUpload(cfg: Config, s: State, u: State, t: int, ses: Session, p: Package, c: Ambient)
    requires AlikeData(s, u, t)
    ensures AlikeData(HandleUpload(cfg, s, ses, p, c).state, HandleUpload(cfg, u, ses, p, c).state, t)
    ensures HandleUpload(cfg, s, ses, p, c).reply == HandleUpload(cfg, u, ses, p, c).reply
  {
    if UploadRefusal(cfg, ses, p, c).None? {
      var f, row := p.fileId.text, UploadedRow(ses, p);
      assert f in s.files <==> f in u.files;
      assert CanInsertFile(s.files, f, row) == CanInsertFile(u.files, f, row);
      assert AlikeFiles(s.files[f := row], u.files[f := row], t);
    }
  }

  lemma AlikeList(s: State, u: State, t: int, r: User, now: int, diskOk: bool)
    requires AlikeData(s, u, t) && t <= now
    ensures PendingEntries(s, r, now, diskOk) == PendingEntries(u, r, now, diskOk)
  {
    forall f | f in s.files
      ensures f in ListPendingFor(s.files, r, now) <==> f in ListPendingFor(u.files, r, now)
      ensures PendingEntry(s, f, diskOk) == PendingEntry(u, f, diskOk)
    {
      assert AlikeRow(s.files[f], u.files[f], t);
    }
    assert ListPendingFor(s.files, r, now) == ListPendingFor(u.files, r, now);
  }

  lemma AlikeDispatch(cfg: Config, s: State, u: State, t: int, ses: Session, r: Request, c: Ambient)
    requires AlikeData(s, u, t) && t <= c.check
    ensures AlikeData(Dispatch(cfg, s, ses, r, c).state, Dispatch(cfg, u, ses, r, c).state, t)
    ensures Dispatch(cfg, s, ses, r, c).reply == Dispatch(cfg, u, ses, r, c).reply
            || (r.Revoke? && r.notice.fileId.Text? && r.notice.fileId.text in u.files
                && u.files[r.notice.fileId.text].expiration < t)
  {
    match r
    case Upload(p) => AlikeUpload(cfg, s, u, t, ses, p, c);
    case Download(fileId) => AlikeDownload(cfg, s, u, t, ses, fileId, c);
    case DownloadAck(n) => AlikeAck(cfg, s, u, t, ses, n, c);
    case Revoke(n) => AlikeRevoke(cfg, s, u, t, ses, n, c);
    case ListPending => AlikeList(s, u, t, ses.subject, c.check, c.diskOk);
    case GetPubkey(_) =>
    case OtherType =>
  }

  /** Handlers past the replay cache leave the nonce table alone. */
  lemma DispatchKeepsNonces(cfg: Config, s: State, ses: Session, r: Request, c: Ambient)
    ensures Dispatch(cfg, s, ses, r, c).state.seen == s.seen
  {
  }

  lemma AlikeLater(a: Files, b: Files, t: int, t': int)
    requires AlikeFiles(a, b, t) && t <= t'
    ensures AlikeFiles(a, b, t')
  {
    assert forall f | f in a && AlikeRow(a[f], b[f], t) :: AlikeRow(a[f], b[f], t');
  }

  lemma ShadowsLater(p: Table, f: Table, stamp: Nonce -> int, t: int, t': int)
    requires Shadows(p, f, stamp, t) && t <= t'
    ensures Shadows(p, f, stamp, t')
  {
  }

  lemma AlikeArrival(cfg: Config, s: State, u: State, stamp: Nonce -> int, t: int, e: Event)
    requires Alike(s, u, stamp, t) && e.Arrive? && Ordered(e) && t <= Begin(e)
    requires e.envelope.timestamp == stamp(e.envelope.nonce)
    ensures Alike(Step(cfg, s, e), Step(cfg, u, e), stamp, End(e))
    ensures ReplyTo(cfg, s, e) == ReplyTo(cfg, u, e) || LateRevoke(u, e)
    ensures LateRevoke(s, e) == LateRevoke(u, e)
  {
    var envelope, c := e.envelope, e.ambient;
    LateAlike(s, u, t, e);
    var s1, u1 := Recorded(s, envelope, c.replay), Recorded(u, envelope, c.replay);
    if Guarded(envelope.request) {
      ShadowsRecord(s.seen, u.seen, stamp, t, envelope.nonce, c.replay);
    } else {
      ShadowsLater(s.seen, u.seen, stamp, t, c.replay);
    }
    if Admits(s, envelope, c.replay) {
      AlikeDispatch(cfg, s1, u1, t, e.session, envelope.request, c);
      DispatchKeepsNonces(cfg, s1, e.session, envelope.request, c);
      DispatchKeepsNonces(cfg, u1, e.session, envelope.request, c);
    }
    AlikeLater(Step(cfg, s, e).files, Step(cfg, u, e).files, t, End(e));
    ShadowsLater(s1.seen, u1.seen, stamp, c.replay, End(e));
  }

  lemma LateAlike(s: State, u: State, t: int, e: Event)
    requires AlikeData(s, u, t)
    ensures LateRevoke(s, e) == LateRevoke(u, e)
  {
    if e.Arrive? && e.envelope.request.Revoke? && e.envelope.request.notice.fileId.Text? {
      var f := e.envelope.request.notice.fileId.text;
      if f in s.files {
        assert AlikeRow(s.files[f], u.files[f], t);
      }
    }
  }

  lemma AlikeCleanup(s: State, u: State, stamp: Nonce -> int, t: int, tick: Tick)
    requires Alike(s, u, stamp, t) && t <= tick.now <= tick.purgeNow
    ensures Alike(CleanupPass(s, tick), u, stamp, tick.purgeNow)
  {
    ShadowsPurge(s.seen, u.seen, stamp, t, tick.purgeNow);
    ShadowsLater(s.seen, u.seen, stamp, t, tick.purgeNow);
    AlikeLater(s.files, u.files, t, tick.purgeNow);
    var marked := MarkExpired(s.files, tick.now);
    forall f | f in s.files
      ensures AlikeRow(marked[f], u.files[f], tick.purgeNow)
    {
      assert AlikeRow(s.files[f], u.files[f], tick.purgeNow);
    }
    assert AlikeFiles(marked, u.files, tick.purgeNow);
  }

  /** Latest reading of a run that starts at epoch. */
  function LatestTime(es: seq<Event>, epoch: int): int {
    if es == [] then epoch else End(es[|es| - 1])
  }

  ghost predicate StartsAt(es: seq<Event>, epoch: int) {
    es != [] ==> epoch <= Begin(es[0])
  }

  lemma {:induction false} AlikeRuns(cfg: Config, es: seq<Event>, stamp: Nonce -> int, epoch: int)
    requires Monotone(es) && Stamps(es, stamp) && StartsAt(es, epoch)
    ensures Alike(After(cfg, EmptyState, es), After(cfg, EmptyState, Filter(es, Arrives)), stamp, LatestTime(es, epoch))
    ensures var a := Answers(cfg, EmptyState, es, Arrives);
            var b := Answers(cfg, EmptyState, Filter(es, Arrives), Arrives);
            |a| == |b| && forall i | 0 <= i < |a| :: SameAnswer(a[i], b[i])
  {
    if es != [] {
      var n := |es| - 1;
      var e := es[n];
      AlikeRuns(cfg, es[..n], stamp, epoch);
      assert n > 0 ==> End(es[n - 1]) <= Begin(es[n]);
      var t := LatestTime(es[..n], epoch);
      var s, u := After(cfg, EmptyState, es[..n]), After(cfg, EmptyState, Filter(es[..n], Arrives));
      if e.Arrive? {
        AlikeArrival(cfg, s, u, stamp, t, e);
        var kept := Filter(es, Arrives);
        assert kept[..|kept| - 1] == Filter(es[..n], Arrives);
      } else {
        AlikeCleanup(s, u, stamp, t, e.tick);
      }
    }
  }

  predicate SameAnswer(a: Answer, b: Answer) {
    a.event == b.event && a.late == b.late && (a.reply == b.reply || a.late)
  }

  /** Two runs with the same requests and any cleanup passes give the same answers; only a
      revoke of a row already past its expiration may be answered differently. */
  lemma CleanupInvisible(cfg: Config, es: seq<Event>, es': seq<Event>)
    requires Monotone(es) && Monotone(es') && OneStamp(es)
    requires Filter(es, Arrives) == Filter(es', Arrives)
    ensures var a := Answers(cfg, EmptyState, es, Arrives);
            var b := Answers(cfg, EmptyState, es', Arrives);
            |a| == |b| && forall i | 0 <= i < |a| :: SameAnswer(a[i], b[i])
  {
    var stamp := StampsExist(es);
    FilterStamps(es, stamp);
    FilterStamps(es', stamp);
    AlikeRuns(cfg, es, stamp, if es == [] then 0 else Begin(es[0]));
    AlikeRuns(cfg, es', stamp, if es' == [] then 0 else Begin(es'[0]));
  }

  lemma {:induction false} FilterStamps(es: seq<Event>, stamp: Nonce -> int)
    ensures Stamps(Filter(es, Arrives), stamp) <==> Stamps(es, stamp)
  {
    if es != [] {
      var n := |es| - 1;
      FilterStamps(es[..n], stamp);
      var before, kept := Filter(es[..n], Arrives), Filter(es, Arrives);
      if Stamps(es, stamp) {
        assert Stamps(es[..n], stamp);
      }
      if Stamps(kept, stamp) {
        assert Stamps(before, stamp) by {
          forall i | 0 <= i < |before| && before[i].Arrive?
            ensures before[i].envelope.timestamp == stamp(before[i].envelope.nonce)
          {
            assert kept[i] == before[i];
          }
        }
        if es[n].Arrive? {
          assert kept[|before|] == es[n];
        }
      }
    }
  }

  /** The exception is real: an overdue pending row answers REVOKE_ACK, and EXPIRED once a pass
      has marked it. */
  lemma LateRevokeSeesCleanup(cfg: Config, s: State, ses: Session, n: Notice, c: Ambient, tick: Tick)
    requires ValidNotice(n) && n.fileId.text in s.files && s.files[n.fileId.text].sender == ses.subject
    requires SenderCertOk(cfg, ses, c.check)
    requires VerifyRevoke(ses.cert, n.signature.value, ses.subject, n.fileId.text, n.timestamp.value)
    requires s.files[n.fileId.text].status == Pending && tick.purgeOk && tick.markOk
    ensures HandleRevoke(cfg, s, ses, n, c).reply == RevokeAck(n.fileId.text)
    ensures HandleRevoke(cfg, CleanupPass(s, tick), ses, n, c).reply
            == if s.files[n.fileId.text].expiration < tick.now then Error(EXPIRED) else RevokeAck(n.fileId.text)
  {
  }
}

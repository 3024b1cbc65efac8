/**
What the server answers, case by case, with the codes that go on the wire; and what the
answer to one request says about the answers to later ones.
*/
module Answers {
  import opened Wrappers
  import opened Crypto
  import opened Replay
  import opened Store
  import opened Messages
  import opened HandlerSpec
  import opened Lifecycle
  import opened RowHistory
  import opened Isolation
  import opened Client
  import opened Delivery

  // ---------- The replay cache ----------

  /** STALE goes to exactly the uploads, downloads, acks and revokes with a nonce of the wrong length, a
      timestamp more than 30 seconds off, or a nonce seen before, and leaves everything as it was;
      any other of the four puts its nonce on record, and the rest never touch the table. */
  lemma StaleAnswers(cfg: Config, s: State, ses: Session, e: Envelope, c: Ambient)
    ensures var o := Handle(cfg, s, ses, e, c);
            var guarded := e.request.Upload? || e.request.Download? || e.request.DownloadAck? || e.request.Revoke?;
            var unfit := Width(e.nonce) != 16 || e.timestamp < c.replay - 30 || e.timestamp > c.replay + 30 || e.nonce in s.seen;
            && (o.reply == Error(STALE) <==> guarded && unfit)
            && (o.reply == Error(STALE) ==> o.state == s)
            && (o.reply != Error(STALE) ==> o.state.seen == if guarded then s.seen[e.nonce := c.replay] else s.seen)
  {
    DispatchKeepsNonces(cfg, Recorded(s, e, c.replay), ses, e.request, c);
    DispatchNotStale(cfg, Recorded(s, e, c.replay), ses, e.request, c);
    hide Dispatch;
  }

  lemma DispatchNotStale(cfg: Config, s: State, ses: Session, r: Request, c: Ambient)
    ensures Dispatch(cfg, s, ses, r, c).reply != Error(STALE)
  {
    if r.Download? && r.fileId.Text? && r.fileId.text in s.files {
      DownloadRowShape(cfg, s, ses, r.fileId.text, c);
    }
  }

  // ---------- GET_PUBKEY ----------

  /** The directory holds for this user a certificate that verifies for this user at that moment. */
  predicate Listed(cfg: Config, user: User, now: int) {
    user in cfg.directory && VerifyCertificate(cfg.directory[user], cfg.ca, now, Some(user))
  }

  lemma PubkeyAnswers(cfg: Config, s: State, ses: Session, username: Field, c: Ambient)
    ensures var o := Dispatch(cfg, s, ses, GetPubkey(username), c);
            && o.state == s
            && (username.Text? && ValidUsername(username.text) && Listed(cfg, username.text, c.lookup) ==>
                  var reply := PubkeyResponse(cfg.directory[username.text]);
                  o.reply == if cfg.fits(reply) then reply else Dropped)
            && (!(username.Text? && ValidUsername(username.text) && Listed(cfg, username.text, c.lookup)) ==>
                  o.reply == Error(NOT_FOUND))
  {
  }

  // ---------- UPLOAD_REQUEST ----------

  predicate OwnCert(cfg: Config, ses: Session, now: int) {
    VerifyCertificate(ses.cert, cfg.ca, now, Some(ses.subject))
  }

  /** The key of the session's certificate signed the package's own seven fields. */
  predicate SignedByUploader(ses: Session, p: Package) {
    && ValidPackage(p) && ses.cert.Cert?
    && RsaVerify(ses.cert.claims.key,
                 OriginBody(Origin(ses.subject, p.recipient.text, p.fileId.text, [Sha(p.ciphertext.value)], [Sha(p.wrappedKey.value)],
                                   p.timestamp.value, p.expiration.value)),
                 p.signature.value)
  }

  predicate SixtyFourBit(n: int) {
    -9223372036854775808 <= n <= 9223372036854775807
  }

  /** Which uploads get which answer: in the order of the checks, and the positive answer exactly for
      a recipient whose listed certificate verifies. */
  lemma UploadAnswers(cfg: Config, s: State, ses: Session, p: Package, c: Ambient)
    ensures var reply := HandleUpload(cfg, s, ses, p, c).reply;
            && (!OwnCert(cfg, ses, c.check) ==> reply == Error(AUTH_FAILED))
            && (OwnCert(cfg, ses, c.check) && !ValidPackage(p) ==> reply == Error(MALFORMED))
            && (OwnCert(cfg, ses, c.check) && ValidPackage(p) && !SignedByUploader(ses, p) ==> reply == Error(AUTH_FAILED))
            && (OwnCert(cfg, ses, c.check) && SignedByUploader(ses, p) ==>
                  var f, expiration := p.fileId.text, p.expiration.value;
                  reply == if !Listed(cfg, p.recipient.text, c.lookup) then Error(NOT_FOUND)
                           else if !c.diskOk then Error(INTERNAL_ERROR)
                           else if f in s.files || !SixtyFourBit(p.timestamp.value) || !SixtyFourBit(expiration) then Dropped
                           else UploadAck(f, expiration))
  {
  }

  /** What each answer to an upload says about the state: an error left it alone, an acknowledgement
      stored exactly this row and blob, a dropped connection replaced the blob alone. */
  lemma UploadEffects(cfg: Config, s: State, ses: Session, p: Package, c: Ambient)
    ensures var o := HandleUpload(cfg, s, ses, p, c);
            && (o.reply.Error? ==> o.state == s)
            && (o.reply.UploadAck? || o.reply.Dropped? ==>
                  ValidPackage(p)
                  && var f := p.fileId.text;
                     && o.state.blobs == s.blobs[f := p.ciphertext.value] && o.state.acks == s.acks && o.state.seen == s.seen
                     && o.state.files ==
                        if o.reply.Dropped? then s.files
                        else s.files[f := Row(ses.subject, p.recipient.text, p.timestamp.value, p.expiration.value, Pending,
                                              [Sha(p.ciphertext.value)], p.wrappedKey.value, p.aesNonce.value,
                                              f + "|" + ses.subject + "|" + p.recipient.text, p.signature.value, ses.cert)])
            && (o.reply.Error? || o.reply.UploadAck? || o.reply.Dropped?)
  {
  }

  // ---------- DOWNLOAD_REQUEST ----------

  /** Which downloads get which answer. */
  lemma DownloadAnswers(cfg: Config, s: State, ses: Session, fileId: Field, c: Ambient)
    ensures var o := HandleDownload(cfg, s, ses, fileId, c);
            match fileId
            case Missing => o == Outcome(s, Error(MALFORMED))
            case Scalar => o == Outcome(s, Error(NOT_FOUND))
            case Unbindable => o == Outcome(s, Dropped)
            case Text(f) =>
              if f !in s.files then o == Outcome(s, Error(NOT_FOUND))
              else if s.files[f].recipient != ses.subject then o == Outcome(s, Error(AUTH_FAILED))
              else if s.files[f].expiration <= c.check then
                && o.reply == Error(EXPIRED)
                && o.state == if s.files[f].status == Pending
                              then s.(files := s.files[f := s.files[f].(status := Expired)]) else s
              else if s.files[f].status == Status.Revoked then o == Outcome(s, Error(REVOKED))
              else if s.files[f].status == Downloaded then o == Outcome(s, Error(ALREADY_DOWNLOADED))
              else if s.files[f].status == Expired then o == Outcome(s, Error(EXPIRED))
              else if !c.diskOk || f !in s.blobs then o == Outcome(s, Error(INTERNAL_ERROR))
              else
                var row := s.files[f];
                var reply := DownloadResponse(Response(f, row.sender, row.uploadTime, row.expiration, s.blobs[f], row.wrappedKey,
                                                       row.aesNonce, row.aad, row.signature, row.senderCert));
                o == Outcome(s, if cfg.fits(reply) then reply else Dropped)
  {
  }

  // ---------- DOWNLOAD_ACK and REVOKE_REQUEST ----------

  lemma AckAnswers(cfg: Config, s: State, ses: Session, n: Notice, c: Ambient)
    ensures var o := HandleAck(cfg, s, ses, n, c);
            && (!ValidNotice(n) ==> o == Outcome(s, Error(MALFORMED)))
            && (ValidNotice(n) ==>
                  var f, at := n.fileId.text, n.timestamp.value;
                  if f !in s.files then o == Outcome(s, Error(NOT_FOUND))
                  else if s.files[f].recipient != ses.subject then o == Outcome(s, Error(NOT_AUTHORIZED))
                  else if !OwnCert(cfg, ses, c.check) || !RsaVerify(ses.cert.claims.key, AckBody(f, at), n.signature.value)
                  then o == Outcome(s, Error(AUTH_FAILED))
                  else if !SixtyFourBit(at) then o == Outcome(s, Dropped)
                  else
                    && o.reply == AckOk(f)
                    && o.state == s.(files := s.files[f := s.files[f].(status := Downloaded)],
                                     acks := if f in s.acks then s.acks else s.acks[f := AckRow(n.signature.value, at)]))
  {
  }

  lemma RevokeAnswers(cfg: Config, s: State, ses: Session, n: Notice, c: Ambient)
    ensures var o := HandleRevoke(cfg, s, ses, n, c);
            && (!ValidNotice(n) ==> o == Outcome(s, Error(MALFORMED)))
            && (ValidNotice(n) ==>
                  var f, at := n.fileId.text, n.timestamp.value;
                  if f !in s.files then o == Outcome(s, Error(NOT_FOUND))
                  else if s.files[f].sender != ses.subject then o == Outcome(s, Error(NOT_AUTHORIZED))
                  else if !OwnCert(cfg, ses, c.check)
                          || !RsaVerify(ses.cert.claims.key, RevokeBody(ses.subject, f, at), n.signature.value)
                  then o == Outcome(s, Error(AUTH_FAILED))
                  else if s.files[f].status == Downloaded then o == Outcome(s, Error(ALREADY_DOWNLOADED))
                  else if s.files[f].status == Expired then o == Outcome(s, Error(EXPIRED))
                  else o == Outcome(s.(files := s.files[f := s.files[f].(status := Status.Revoked)]), RevokeAck(f)))
  {
  }

  // ---------- LIST_PENDING ----------

  /** A delivered list holds exactly one entry for each pending, unexpired row of the caller, with the
      row's sender and times and the size of its blob if it can be read. */
  lemma ListAnswers(cfg: Config, s: State, ses: Session, c: Ambient, entry: Entry)
    ensures var o := Dispatch(cfg, s, ses, Request.ListPending, c);
            && o.state == s && (o.reply.PendingList? || o.reply == Dropped)
            && (o.reply.PendingList? ==>
                  (entry in o.reply.entries <==>
                     && entry.fileId in s.files
                     && var row := s.files[entry.fileId];
                        && row.recipient == ses.subject && row.status == Pending && c.check < row.expiration
                        && entry.sender == row.sender && entry.uploadTime == row.uploadTime && entry.expiration == row.expiration
                        && entry.size == if c.diskOk && entry.fileId in s.blobs then Some(Width(s.blobs[entry.fileId])) else None))
  {
    var f := entry.fileId;
    if f in ListPendingFor(s.files, ses.subject, c.check) {
      assert PendingEntry(s, f, c.diskOk) in PendingEntries(s, ses.subject, c.check, c.diskOk);
    }
  }

  // ---------- One cleanup pass ----------

  /** What a pass does to one row and to one nonce. */
  lemma CleanupEffects(s: State, t: Tick, f: FileId, n: Nonce)
    ensures var z := CleanupPass(s, t);
            && z.acks == s.acks && z.blobs == s.blobs && z.files.Keys == s.files.Keys
            && (f in s.files ==>
                  z.files[f] == if t.purgeOk && t.markOk && s.files[f].status == Pending && s.files[f].expiration < t.now
                                then s.files[f].(status := Expired) else s.files[f])
            && (n in z.seen <==> n in s.seen && (t.purgeOk ==> s.seen[n] >= t.purgeNow - 300))
            && (n in z.seen ==> z.seen[n] == s.seen[n])
  {
  }

  // ---------- Later answers ----------

  /** Rows outlive every event, and their statuses only climb. */
  lemma {:induction false} RowPersists(cfg: Config, s: State, es: seq<Event>, f: FileId)
    requires f in s.files
    ensures var t := After(cfg, s, es);
            && f in t.files && t.files[f] == s.files[f].(status := t.files[f].status)
            && (t.files[f].status == s.files[f].status || Rank(s.files[f].status) < Rank(t.files[f].status))
  {
    if es != [] {
      RowPersists(cfg, s, es[..|es| - 1], f);
      StepGrows(cfg, After(cfg, s, es[..|es| - 1]), es[|es| - 1], f);
    }
  }

  predicate AcksBy(e: Event, f: FileId, user: User) {
    e.Arrive? && e.envelope.request.DownloadAck? && Names(e.envelope.request, f) && e.session.subject == user
  }

  lemma RevokedStays(cfg: Config, s: State, ses: Session, r: Request, c: Ambient, f: FileId)
    requires f in s.files && s.files[f].status == Status.Revoked
    requires r.DownloadAck? && Names(r, f) ==> ses.subject != s.files[f].recipient
    ensures var z := Dispatch(cfg, s, ses, r, c).state; f in z.files && z.files[f] == s.files[f]
  {
    if r.Download? && r.fileId.Text? && r.fileId.text in s.files {
      DownloadRowShape(cfg, s, ses, r.fileId.text, c);
    } else if r.Revoke? {
      RevokeShape(cfg, s, ses, r.notice, c);
    }
  }

  lemma {:induction false} RevokedThrough(cfg: Config, s: State, es: seq<Event>, f: FileId)
    requires f in s.files && s.files[f].status == Status.Revoked
    requires forall e | e in es :: !AcksBy(e, f, s.files[f].recipient)
    ensures var t := After(cfg, s, es); f in t.files && t.files[f] == s.files[f]
  {
    if es != [] {
      var n := |es| - 1;
      RevokedThrough(cfg, s, es[..n], f);
      var t := After(cfg, s, es[..n]);
      assert !AcksBy(es[n], f, s.files[f].recipient);
      if es[n].Arrive? {
        RevokedStays(cfg, Recorded(t, es[n].envelope, es[n].ambient.replay), es[n].session, es[n].envelope.request, es[n].ambient, f);
      }
    }
  }

  /** Only a revoke is answered REVOKE_ACK, and then the row is revoked. */
  lemma RevokeAckMeans(cfg: Config, s: State, ses: Session, e: Envelope, c: Ambient, f: FileId)
    requires Handle(cfg, s, ses, e, c).reply == RevokeAck(f)
    ensures var z := Handle(cfg, s, ses, e, c).state;
            f in s.files && f in z.files && z.files[f] == s.files[f].(status := Status.Revoked)
  {
    NoticeReplies(cfg, Recorded(s, e, c.replay), ses, e.request, c);
    RevokeAnswers(cfg, Recorded(s, e, c.replay), ses, e.request.notice, c);
  }

  lemma AckOkMeans(cfg: Config, s: State, ses: Session, e: Envelope, c: Ambient, f: FileId)
    requires Handle(cfg, s, ses, e, c).reply == AckOk(f)
    ensures var z := Handle(cfg, s, ses, e, c).state;
            f in s.files && f in z.files && z.files[f] == s.files[f].(status := Downloaded)
  {
    NoticeReplies(cfg, Recorded(s, e, c.replay), ses, e.request, c);
    AckAnswers(cfg, Recorded(s, e, c.replay), ses, e.request.notice, c);
  }

  lemma NoticeReplies(cfg: Config, s: State, ses: Session, r: Request, c: Ambient)
    ensures Dispatch(cfg, s, ses, r, c).reply.RevokeAck? ==> r.Revoke?
    ensures Dispatch(cfg, s, ses, r, c).reply.AckOk? ==> r.DownloadAck?
  {
    if r.Download? && r.fileId.Text? && r.fileId.text in s.files {
      DownloadRowShape(cfg, s, ses, r.fileId.text, c);
    }
  }

  /** Once a revoke has been acknowledged, the recipient's download before expiration is answered
      REVOKED, whatever happens in between short of an ack by that recipient. */
  lemma DownloadAfterRevoke(cfg: Config, s: State, sender: Session, e: Envelope, c: Ambient, f: FileId, es: seq<Event>,
                            reader: Session, ask: Envelope, c': Ambient)
    requires Handle(cfg, s, sender, e, c).reply == RevokeAck(f)
    requires f in s.files && s.files[f].recipient == reader.subject
    requires forall x | x in es :: !AcksBy(x, f, reader.subject)
    requires ask.request == Download(Text(f)) && Admits(After(cfg, Handle(cfg, s, sender, e, c).state, es), ask, c'.replay)
    requires c'.check < s.files[f].expiration
    ensures Handle(cfg, After(cfg, Handle(cfg, s, sender, e, c).state, es), reader, ask, c').reply == Error(REVOKED)
  {
    RevokeAckMeans(cfg, s, sender, e, c, f);
    var z := Handle(cfg, s, sender, e, c).state;
    RevokedThrough(cfg, z, es, f);
    DownloadAnswers(cfg, Recorded(After(cfg, z, es), ask, c'.replay), reader, Text(f), c');
    hide HandleDownload, After;
  }

  /** Once an ack has been accepted, the recipient's download before expiration is answered
      ALREADY_DOWNLOADED for ever. */
  lemma DownloadAfterAck(cfg: Config, s: State, acker: Session, e: Envelope, c: Ambient, f: FileId, es: seq<Event>,
                         reader: Session, ask: Envelope, c': Ambient)
    requires Handle(cfg, s, acker, e, c).reply == AckOk(f)
    requires f in s.files && s.files[f].recipient == reader.subject
    requires ask.request == Download(Text(f)) && Admits(After(cfg, Handle(cfg, s, acker, e, c).state, es), ask, c'.replay)
    requires c'.check < s.files[f].expiration
    ensures Handle(cfg, After(cfg, Handle(cfg, s, acker, e, c).state, es), reader, ask, c').reply == Error(ALREADY_DOWNLOADED)
  {
    AckOkMeans(cfg, s, acker, e, c, f);
    var z := Handle(cfg, s, acker, e, c).state;
    RowPersists(cfg, z, es, f);
    DownloadAnswers(cfg, Recorded(After(cfg, z, es), ask, c'.replay), reader, Text(f), c');
    hide HandleDownload, After;
  }

  /** After an acknowledged upload and any events at all, a download by anyone but the recipient is
      answered AUTH_FAILED, and one by the recipient at or past expiration EXPIRED. */
  lemma DownloadAfterUpload(cfg: Config, s: State, sender: Session, p: Package, c: Ambient, es: seq<Event>,
                            reader: Session, ask: Envelope, c': Ambient)
    requires HandleUpload(cfg, s, sender, p, c).reply.UploadAck? && p.fileId.Text? && p.recipient.Text? && p.expiration.Some?
    requires ask.request == Download(p.fileId)
    requires Admits(After(cfg, HandleUpload(cfg, s, sender, p, c).state, es), ask, c'.replay)
    ensures var reply := Handle(cfg, After(cfg, HandleUpload(cfg, s, sender, p, c).state, es), reader, ask, c').reply;
            && (reader.subject != p.recipient.text ==> reply == Error(AUTH_FAILED))
            && (reader.subject == p.recipient.text && p.expiration.value <= c'.check ==> reply == Error(EXPIRED))
  {
    UploadEffects(cfg, s, sender, p, c);
    var z := HandleUpload(cfg, s, sender, p, c).state;
    RowPersists(cfg, z, es, p.fileId.text);
    DownloadAnswers(cfg, Recorded(After(cfg, z, es), ask, c'.replay), reader, p.fileId, c');
    hide HandleDownload, HandleUpload, After;
  }

  /** After an acknowledged upload and harmless events, the list delivered to the recipient before
      expiration holds exactly one entry for the file, and it says what the sender sent. */
  lemma ListAfterUpload(cfg: Config, s: State, sender: Session, d: Draft, c: Ambient, es: seq<Event>,
                        reader: Session, ask: Envelope, c': Ambient)
    requires sender.subject == d.sender && IsUuid(d.fileId) && ValidUsername(d.recipient)
    requires HandleUpload(cfg, s, sender, BuildPackage(d), c).reply.UploadAck?
    requires forall e | e in es :: Harmless(e, d)
    requires reader.subject == d.recipient && ask.request == Request.ListPending && c'.check < d.timestamp + d.lifetime
    ensures var t := After(cfg, HandleUpload(cfg, s, sender, BuildPackage(d), c).state, es);
            var reply := Handle(cfg, t, reader, ask, c').reply;
            && (reply.PendingList? || reply == Dropped)
            && (reply.PendingList? ==>
                  EntriesFor(reply.entries, d.fileId)
                  == {Entry(d.fileId, d.sender, d.timestamp, d.timestamp + d.lifetime,
                            if c'.diskOk then Some(Width(Ciphertext(d))) else None)})
  {
    AcceptedUploadHolds(cfg, s, sender, d, c);
    var z := HandleUpload(cfg, s, sender, BuildPackage(d), c).state;
    HoldsThrough(cfg, z, es, d, sender.cert);
    var t := After(cfg, z, es);
    var reply := Handle(cfg, t, reader, ask, c').reply;
    var told := Entry(d.fileId, d.sender, d.timestamp, d.timestamp + d.lifetime, if c'.diskOk then Some(Width(Ciphertext(d))) else None);
    forall entry: Entry | reply.PendingList? && entry.fileId == d.fileId
      ensures entry in reply.entries <==> entry == told
    {
      ListAnswers(cfg, t, reader, c', entry);
    }
  }
}

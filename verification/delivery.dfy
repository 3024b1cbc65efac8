/**
The honest round trip: upload_file is acknowledged, other requests and cleanup passes follow,
and the recipient's download_file recovers the plaintext.
*/
module Delivery {
  import opened Wrappers
  import opened Crypto
  import opened Replay
  import opened Store
  import opened FileCrypto
  import opened Messages
  import opened HandlerSpec
  import opened Lifecycle
  import opened Isolation
  import opened Client

  /** Row and blob are those of the draft, and the row is still pending. */
  predicate Holds(s: State, d: Draft, cert: Cert) {
    && ValidPackage(BuildPackage(d))
    && d.fileId in s.files && s.files[d.fileId] == UploadedRow(Session(d.sender, cert), BuildPackage(d))
    && d.fileId in s.blobs && s.blobs[d.fileId] == Ciphertext(d)
  }

  /** An event that neither uploads f again nor takes it out of reach: no ack by its recipient,
      no revoke by its sender, and no clock reading at which it is overdue. */
  predicate Harmless(e: Event, d: Draft) {
    match e
    case Cleanup(tick) => tick.now <= d.timestamp + d.lifetime
    case Arrive(ses, envelope, c) =>
      var r := envelope.request;
      Names(r, d.fileId) ==>
        && !r.Upload?
        && (r.DownloadAck? ==> ses.subject != d.recipient)
        && (r.Revoke? ==> ses.subject != d.sender)
        && (r.Download? ==> ses.subject != d.recipient || c.check < d.timestamp + d.lifetime)
  }

  lemma AcceptedUploadHolds(cfg: Config, s: State, ses: Session, d: Draft, c: Ambient)
    requires ses.subject == d.sender && IsUuid(d.fileId) && ValidUsername(d.recipient)
    requires HandleUpload(cfg, s, ses, BuildPackage(d), c).reply.UploadAck?
    ensures Holds(HandleUpload(cfg, s, ses, BuildPackage(d), c).state, d, ses.cert)
  {
    PackageIsValid(d);
  }

  lemma HarmlessDispatch(cfg: Config, s: State, ses: Session, r: Request, c: Ambient, d: Draft, cert: Cert)
    requires Holds(s, d, cert)
    requires Names(r, d.fileId) ==>
               && !r.Upload?
               && (r.DownloadAck? ==> ses.subject != d.recipient)
               && (r.Revoke? ==> ses.subject != d.sender)
               && (r.Download? ==> ses.subject != d.recipient || c.check < d.timestamp + d.lifetime)
    ensures Holds(Dispatch(cfg, s, ses, r, c).state, d, cert)
  {
    if !Names(r, d.fileId) {
      LeavesAlone(cfg, s, d.fileId, ses, r, c);
      SliceHolds(s, Dispatch(cfg, s, ses, r, c).state, d, cert);
    } else if r.Download? {
      DownloadRowShape(cfg, s, ses, d.fileId, c);
    }
  }

  lemma SliceHolds(s: State, t: State, d: Draft, cert: Cert)
    requires Holds(s, d, cert) && SliceOf(s, d.fileId) == SliceOf(t, d.fileId)
    ensures Holds(t, d, cert)
  {
    assert SliceOf(t, d.fileId).row.Some? && SliceOf(t, d.fileId).blob.Some?;
  }

  lemma {:induction false} HoldsThrough(cfg: Config, s: State, es: seq<Event>, d: Draft, cert: Cert)
    requires Holds(s, d, cert) && forall e | e in es :: Harmless(e, d)
    ensures Holds(After(cfg, s, es), d, cert)
  {
    if es != [] {
      var n := |es| - 1;
      HoldsThrough(cfg, s, es[..n], d, cert);
      var t := After(cfg, s, es[..n]);
      assert Harmless(es[n], d);
      if es[n].Arrive? {
        HarmlessDispatch(cfg, Recorded(t, es[n].envelope, es[n].ambient.replay), es[n].session, es[n].envelope.request,
                         es[n].ambient, d, cert);
      }
    }
  }

  /** From any server state: if the upload of a draft is acknowledged, then after any harmless events
      the recipient's fresh download before expiration is answered, and what it gets decrypts to the
      plaintext of the draft, provided the sender's certificate is still in date. */
  lemma RoundTrip(cfg: Config, s: State, sender: Session, d: Draft, c: Ambient, es: seq<Event>,
                  reader: Session, key: Key, envelope: Envelope, c': Ambient, now: int)
    requires sender.subject == d.sender && IsUuid(d.fileId) && ValidUsername(d.recipient)
    requires Width(d.secret) == AES_KEY_BYTES && Width(d.nonce) == AES_NONCE_BYTES
    requires sender.cert.Cert? && sender.cert.claims.key == d.senderKey
    requires VerifyCertificate(sender.cert, cfg.ca, now, Some(d.sender))
    requires HandleUpload(cfg, s, sender, BuildPackage(d), c).reply.UploadAck?
    requires forall e | e in es :: Harmless(e, d)
    requires reader.subject == d.recipient && key == d.recipientKey
    requires envelope.request == Download(Text(d.fileId)) && c'.check < d.timestamp + d.lifetime && c'.diskOk
    requires var t := After(cfg, HandleUpload(cfg, s, sender, BuildPackage(d), c).state, es);
             && Admits(t, envelope, c'.replay)
             && (d.fileId in t.files && d.fileId in t.blobs ==>
                   cfg.fits(DownloadResponse(ResponseFor(d.fileId, t.files[d.fileId], t.blobs[d.fileId]))))
    ensures var t := After(cfg, HandleUpload(cfg, s, sender, BuildPackage(d), c).state, es);
            var reply := Handle(cfg, t, reader, envelope, c').reply;
            reply.DownloadResponse?
            && VerifyAndDecrypt(Reader(d.recipient, key, cfg.ca), PayloadOf(reply.response), d.fileId, now) == Ok(d.plain)
  {
    AcceptedUploadHolds(cfg, s, sender, d, c);
    HoldsThrough(cfg, HandleUpload(cfg, s, sender, BuildPackage(d), c).state, es, d, sender.cert);
    var t := After(cfg, HandleUpload(cfg, s, sender, BuildPackage(d), c).state, es);
    ServeHeld(cfg, Recorded(t, envelope, c'.replay), d, sender.cert, reader, key, c', now);
  }

  lemma ServeHeld(cfg: Config, t: State, d: Draft, cert: Cert, reader: Session, key: Key, c: Ambient, now: int)
    requires Holds(t, d, cert) && IsUuid(d.fileId) && reader.subject == d.recipient && key == d.recipientKey
    requires Width(d.secret) == AES_KEY_BYTES && Width(d.nonce) == AES_NONCE_BYTES
    requires cert.Cert? && cert.claims.key == d.senderKey && VerifyCertificate(cert, cfg.ca, now, Some(d.sender))
    requires c.check < d.timestamp + d.lifetime && c.diskOk
    requires cfg.fits(DownloadResponse(ResponseFor(d.fileId, t.files[d.fileId], t.blobs[d.fileId])))
    ensures var reply := HandleDownload(cfg, t, reader, Text(d.fileId), c).reply;
            reply.DownloadResponse?
            && VerifyAndDecrypt(Reader(d.recipient, key, cfg.ca), PayloadOf(reply.response), d.fileId, now) == Ok(d.plain)
  {
    DownloadRowShape(cfg, t, reader, d.fileId, c);
    PackageOpens(d, cert, Reader(d.recipient, key, cfg.ca), now);
  }

  predicate BlobMatchesRow(s: State, f: FileId) {
    f in s.files ==> f in s.blobs && s.files[f].ciphertextSha == [Sha(s.blobs[f])]
  }

  /** A second accepted-looking upload of a stored id replaces the blob before its INSERT fails: the
      connection drops, the row stays, and blob and row still match exactly when the bytes are the same. */
  lemma SecondUpload(cfg: Config, s: State, ses: Session, p: Package, c: Ambient)
    requires UploadRefusal(cfg, ses, p, c).None? && p.fileId.text in s.files && BlobMatchesRow(s, p.fileId.text)
    ensures var o := HandleUpload(cfg, s, ses, p, c);
            && o.reply == Dropped && o.state.files == s.files
            && (BlobMatchesRow(o.state, p.fileId.text) <==> p.ciphertext.value == s.blobs[p.fileId.text])
  {
  }
}

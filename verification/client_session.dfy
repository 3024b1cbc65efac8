/**
upload_file, download_file and revoke_file as they act on the socket and on the disk: what is sent, what is
consumed, what is saved, and in which order the checks come.
*/
module ClientSession {
  import opened Wrappers
  import opened Crypto
  import opened Store
  import opened FileCrypto
  import opened Messages
  import opened HandlerSpec
  import opened Lifecycle
  import opened Client
  import Framing
  import Delivery

  /** What one receive-and-validate yields. Garbage stands for a framing or envelope error. */
  datatype Incoming =
    | Garbage
    | ErrorReply
    | PubkeyReply(cert: Option<Cert>)
    | UploadAckReply(expiration: int)
    | DownloadReply(payload: Payload)
    | RevokeAckReply
    | OtherReply

  datatype Outgoing =
    | AskPubkey(username: User)
    | SendUpload(package: Package)
    | AskDownload(fileId: FileId)
    | SendAck(notice: Notice)
    | SendRevoke(notice: Notice)

  datatype Trouble = Refused(fault: Fault) | FileNotFound | DiskError

  /** How the disk behaves during one atomic write. */
  datatype Weather = Works | MkdirFails | WriteFails(written: nat) | ReplaceFails

  function First(inbox: seq<Incoming>): Incoming {
    if inbox == [] then Garbage else inbox[0]
  }

  function Rest(inbox: seq<Incoming>): seq<Incoming> {
    if inbox == [] then [] else inbox[1..]
  }

  // ---------- What the two calls come to ----------

  /** Messages sent, messages left unread, the downloads directory, and the result. */
  datatype Effect<T> = Effect(sent: seq<Outgoing>, unread: seq<Incoming>, saved: map<FileId, Bytes>, result: Result<T, Trouble>)

  function AckNotice(r: Reader, f: FileId, ackTime: int, salt: nat): Notice {
    Notice(Text(f), Some(ackTime), Some(RsaSign(r.key, AckBody(f, ackTime), salt)))
  }

  function RevokeNotice(r: Reader, f: FileId, at: int, salt: nat): Notice {
    Notice(Text(f), Some(at), Some(RsaSign(r.key, RevokeBody(r.user, f, at), salt)))
  }

  /** What the answer to a download request opens to. */
  function OpenedReply(r: Reader, m: Incoming, f: FileId, now: int): Result<Bytes, Fault> {
    if m.DownloadReply? then VerifyAndDecrypt(r, m.payload, f, now) else Err(ProtocolFault)
  }

  function DownloadEffect(r: Reader, inbox: seq<Incoming>, saved: map<FileId, Bytes>, f: FileId, now: int, ackTime: int, salt: nat,
                    weather: Weather): Effect<()> {
    var answer, later := OpenedReply(r, First(inbox), f, now), Rest(inbox);
    match answer
    case Err(fault) => Effect([AskDownload(f)], later, saved, Err(Refused(fault)))
    case Ok(plain) =>
      var sent := [AskDownload(f), SendAck(AckNotice(r, f, ackTime, salt))];
      if First(later).Garbage? then Effect(sent, Rest(later), saved, Err(Refused(ProtocolFault)))
      else if !weather.Works? then Effect(sent, Rest(later), saved, Err(DiskError))
      else Effect(sent, Rest(later), saved[f := plain], Ok(()))
  }

  /** The random choices and clock reading of one upload. */
  datatype Draw = Draw(fileId: FileId, secret: Bytes, nonce: Bytes, coin: nat, salt: nat, timestamp: int)

  function DraftFor(r: Reader, recipient: User, recipientKey: Key, plain: Bytes, lifetime: int, draw: Draw): Draft {
    Draft(r.user, r.key, recipient, recipientKey, draw.fileId, plain, draw.secret, draw.nonce, draw.coin, draw.salt,
          draw.timestamp, lifetime)
  }

  /** fetch_peer_cert: the certificate the server hands back, once it verifies for this very user. */
  function FetchedCert(r: Reader, m: Incoming, username: User, now: int): Result<Cert, Fault> {
    if !m.PubkeyReply? || m.cert.None? then Err(ProtocolFault)
    else if !VerifyCertificate(m.cert.value, r.ca, now, Some(username)) then Err(AuthFault)
    else Ok(m.cert.value)
  }

  function UploadEffect(r: Reader, inbox: seq<Incoming>, saved: map<FileId, Bytes>, recipient: User, file: Option<Bytes>, lifetime: int,
                  now: int, draw: Draw): Effect<int> {
    if file.None? then Effect([], inbox, saved, Err(FileNotFound))
    else if Width(file.value) > Framing.MAX_MESSAGE_BYTES then Effect([], inbox, saved, Err(Refused(ProtocolFault)))
    else
      var later := Rest(inbox);
      match FetchedCert(r, First(inbox), recipient, now)
      case Err(fault) => Effect([AskPubkey(recipient)], later, saved, Err(Refused(fault)))
      case Ok(cert) =>
        var d := DraftFor(r, recipient, cert.claims.key, file.value, lifetime, draw);
        Effect([AskPubkey(recipient), SendUpload(BuildPackage(d))], Rest(later), saved,
               match First(later)
               case UploadAckReply(expiration) => Ok(expiration)
               case _ => Err(Refused(ProtocolFault)))
  }

  // ---------- The client object ----------

  class ClientSession {
    const reader: Reader
    var inbox: seq<Incoming>
    var outbox: seq<Outgoing>
    var saved: map<FileId, Bytes>
    var temps: map<FileId, Bytes>

    constructor (reader: Reader, inbox: seq<Incoming>)
      ensures this.reader == reader && this.inbox == inbox && outbox == [] && saved == map[] && temps == map[]
    {
      this.reader, this.inbox, outbox, saved, temps := reader, inbox, [], map[], map[];
    }

    method Send(m: Outgoing)
      modifies this`outbox
      ensures outbox == old(outbox) + [m]
    {
      outbox := outbox + [m];
    }

    method Receive() returns (m: Incoming)
      modifies this`inbox
      ensures m == First(old(inbox)) && inbox == Rest(old(inbox))
    {
      if inbox == [] {
        return Garbage;
      }
      m, inbox := inbox[0], inbox[1..];
    }

    /** _atomic_write: the final name gets the whole file or keeps what it had, and no temporary
        file of this call stays behind. */
    method AtomicWrite(f: FileId, data: Bytes, weather: Weather) returns (ok: bool)
      modifies this`saved, this`temps
      ensures ok == weather.Works?
      ensures saved == if ok then old(saved)[f := data] else old(saved)
      ensures temps == if weather.MkdirFails? then old(temps) else old(temps) - {f}
    {
      if weather.MkdirFails? {
        return false;
      }
      temps := temps[f := []];
      if weather.WriteFails? {
        temps := temps[f := if weather.written <= |data| then data[..weather.written] else data];
        temps := temps - {f};
        return false;
      }
      temps := temps[f := data];
      if weather.ReplaceFails? {
        temps := temps - {f};
        return false;
      }
      saved, temps := saved[f := temps[f]], temps - {f};
      return true;
    }

    /** fetch_peer_cert. */
    method FetchPeerCert(username: User, now: int) returns (r: Result<Cert, Fault>)
      modifies this`inbox, this`outbox
      ensures r == FetchedCert(reader, First(old(inbox)), username, now)
      ensures inbox == Rest(old(inbox)) && outbox == old(outbox) + [AskPubkey(username)]
    {
      Send(AskPubkey(username));
      var reply := Receive();
      if !reply.PubkeyReply? || reply.cert.None? {
        return Err(ProtocolFault);
      }
      if !VerifyCertificate(reply.cert.value, reader.ca, now, Some(username)) {
        return Err(AuthFault);
      }
      return Ok(reply.cert.value);
    }

    method UploadFile(recipient: User, file: Option<Bytes>, lifetime: int, now: int, draw: Draw)
      returns (r: Result<int, Trouble>)
      modifies this`inbox, this`outbox
      ensures var e := UploadEffect(reader, old(inbox), old(saved), recipient, file, lifetime, now, draw);
              r == e.result && outbox == old(outbox) + e.sent && inbox == e.unread
    {
      if file.None? {
        return Err(FileNotFound);
      }
      if Width(file.value) > Framing.MAX_MESSAGE_BYTES {
        return Err(Refused(ProtocolFault));
      }
      var cert := FetchPeerCert(recipient, now);
      if cert.Err? {
        return Err(Refused(cert.error));
      }
      var f, timestamp := draw.fileId, draw.timestamp;
      var ciphertext := EncryptFileBlob(file.value, f, reader.user, recipient, draw.secret, draw.nonce);
      var wrappedKey := OaepEncrypt(cert.value.claims.key, draw.secret, draw.coin);
      var origin := Origin(reader.user, recipient, f, [Sha(ciphertext)], [Sha(wrappedKey)], timestamp, timestamp + lifetime);
      var signature := RsaSign(reader.key, OriginBody(origin), draw.salt);
      Send(SendUpload(Package(Text(f), Text(recipient), Some(timestamp), Some(timestamp + lifetime), Some(ciphertext),
                              Some(draw.nonce), Some(wrappedKey), Some(signature))));
      var reply := Receive();
      match reply
      case UploadAckReply(expiration) => return Ok(expiration);
      case _ => return Err(Refused(ProtocolFault));
    }

    method DownloadFile(f: FileId, now: int, ackTime: int, salt: nat, weather: Weather) returns (r: Result<(), Trouble>)
      modifies this
      ensures var e := DownloadEffect(reader, old(inbox), old(saved), f, now, ackTime, salt, weather);
              r == e.result && outbox == old(outbox) + e.sent && inbox == e.unread && saved == e.saved
    {
      Send(AskDownload(f));
      var reply := Receive();
      if !reply.DownloadReply? {
        return Err(Refused(ProtocolFault));
      }
      var plain := VerifyAndDecrypt(reader, reply.payload, f, now);
      if plain.Err? {
        return Err(Refused(plain.error));
      }
      Send(SendAck(Notice(Text(f), Some(ackTime), Some(RsaSign(reader.key, AckBody(f, ackTime), salt)))));
      var ackReply := Receive();
      if ackReply.Garbage? {
        return Err(Refused(ProtocolFault));
      }
      var ok := AtomicWrite(f, plain.value, weather);
      if !ok {
        return Err(DiskError);
      }
      return Ok(());
    }

    method RevokeFile(f: FileId, at: int, salt: nat) returns (r: Result<(), Trouble>)
      modifies this`inbox, this`outbox
      ensures f == "" ==> r == Err(Refused(ProtocolFault)) && inbox == old(inbox) && outbox == old(outbox)
      ensures f != "" ==>
                && outbox == old(outbox) + [SendRevoke(RevokeNotice(reader, f, at, salt))] && inbox == Rest(old(inbox))
                && r == if First(old(inbox)).RevokeAckReply? then Ok(()) else Err(Refused(ProtocolFault))
    {
      if f == "" {
        return Err(Refused(ProtocolFault));
      }
      var signature := RsaSign(reader.key, RevokeBody(reader.user, f, at), salt);
      Send(SendRevoke(Notice(Text(f), Some(at), Some(signature))));
      var reply := Receive();
      if !reply.RevokeAckReply? {
        return Err(Refused(ProtocolFault));
      }
      return Ok(());
    }
  }

  // ---------- What the calls guarantee ----------

  /** The server accepts the request that revoke_file sends: a pending row becomes 'revoked', a second
      revoke is acknowledged again and changes nothing, and a finished file is left as it is. */
  lemma RevokeIsAccepted(cfg: Config, s: State, ses: Session, r: Reader, f: FileId, at: int, at': int, salt: nat, salt': nat,
                         c: Ambient, c': Ambient)
    requires IsUuid(f) && f in s.files && s.files[f].sender == r.user == ses.subject
    requires SenderCertOk(cfg, ses, c.check) && SenderCertOk(cfg, ses, c'.check) && ses.cert.claims.key == r.key
    ensures var o := HandleRevoke(cfg, s, ses, RevokeNotice(r, f, at, salt), c);
            match s.files[f].status
            case Pending =>
              && o.reply == RevokeAck(f) && o.state.files == MarkStatus(s.files, f, Status.Revoked)
              && HandleRevoke(cfg, o.state, ses, RevokeNotice(r, f, at', salt'), c') == Outcome(o.state, RevokeAck(f))
            case Revoked => o == Outcome(s, RevokeAck(f))
            case Downloaded => o == Outcome(s, Error(ALREADY_DOWNLOADED))
            case Expired => o == Outcome(s, Error(EXPIRED))
  {
    assert ses.cert.Cert?;
    hide SenderCertOk, IsUuid;
  }

  /** A file changes on disk only to a plaintext that verified, and only after its acknowledgement was
      sent; an acknowledgement is sent exactly when the plaintext verified. It does not mean the file
      was saved: that needs one more message and a working disk. */
  lemma SavedOnlyVerified(r: Reader, inbox: seq<Incoming>, saved: map<FileId, Bytes>, f: FileId, now: int, ackTime: int, salt: nat,
                          weather: Weather)
    ensures var e := DownloadEffect(r, inbox, saved, f, now, ackTime, salt, weather);
            var answer := OpenedReply(r, First(inbox), f, now);
            && (SendAck(AckNotice(r, f, ackTime, salt)) in e.sent <==> answer.Ok?)
            && (e.result.Ok? <==> answer.Ok? && !First(Rest(inbox)).Garbage? && weather.Works?)
            && (forall g | g in e.saved :: (g in saved && e.saved[g] == saved[g])
                  || (g == f && answer == Ok(e.saved[g]) && SendAck(AckNotice(r, f, ackTime, salt)) in e.sent))
            && (e.result.Err? ==> e.saved == saved)
            && (answer.Err? ==> e.result == Err(Refused(answer.error)))
            && (answer.Ok? && First(Rest(inbox)).Garbage? ==> e.result == Err(Refused(ProtocolFault)))
            && (answer.Ok? && !First(Rest(inbox)).Garbage? && !weather.Works? ==> e.result == Err(DiskError))
            && (inbox == [] || !inbox[0].DownloadReply? ==> answer == Err(ProtocolFault))
  {
    var e := DownloadEffect(r, inbox, saved, f, now, ackTime, salt, weather);
    if OpenedReply(r, First(inbox), f, now).Ok? {
      assert e.sent[1] == SendAck(AckNotice(r, f, ackTime, salt));
    }
  }

  /** The server handed back a certificate that the CA signed for this user, in date. */
  predicate Certified(r: Reader, m: Incoming, user: User, now: int) {
    m.PubkeyReply? && m.cert.Some? && VerifyCertificate(m.cert.value, r.ca, now, Some(user))
  }

  /** upload_file reports success, with the expiration of the acknowledgement, exactly when the file
      exists and is at most 64 MiB, the first reply certifies the recipient and the second is an
      UPLOAD_ACK. Every other course has its own error, and no course touches the saved files. */
  lemma UploadSucceedsIff(r: Reader, inbox: seq<Incoming>, saved: map<FileId, Bytes>, recipient: User, file: Option<Bytes>,
                          lifetime: int, now: int, draw: Draw, expiration: int)
    ensures var e := UploadEffect(r, inbox, saved, recipient, file, lifetime, now, draw);
            var small := file.Some? && Width(file.value) <= 64 * 1024 * 1024;
            var certified := |inbox| >= 1 && Certified(r, inbox[0], recipient, now);
            && e.saved == saved
            && (e.result == Ok(expiration) <==>
                  small && certified && |inbox| >= 2 && inbox[1] == UploadAckReply(expiration))
            && (file.None? ==> e.result == Err(FileNotFound))
            && (file.Some? && !small ==> e.result == Err(Refused(ProtocolFault)))
            && (!small ==> e.sent == [] && e.unread == inbox)
            && (small && !certified ==>
                  && e.sent == [AskPubkey(recipient)]
                  && e.result == Err(Refused(if |inbox| >= 1 && inbox[0].PubkeyReply? && inbox[0].cert.Some?
                                             then AuthFault else ProtocolFault)))
            && (small && certified && (|inbox| < 2 || !inbox[1].UploadAckReply?) ==> e.result == Err(Refused(ProtocolFault)))
  {
  }

  /** What an upload puts on the wire is sealed for a key that the CA certified for the named
      recipient, whatever the server answered; without one, no package leaves. */
  lemma SealedForRecipient(r: Reader, inbox: seq<Incoming>, saved: map<FileId, Bytes>, recipient: User, file: Option<Bytes>,
                           lifetime: int, now: int, draw: Draw, p: Package)
    requires SendUpload(p) in UploadEffect(r, inbox, saved, recipient, file, lifetime, now, draw).sent
    ensures var cert := FetchedCert(r, First(inbox), recipient, now);
            && cert.Ok? && VerifyCertificate(cert.value, r.ca, now, Some(recipient))
            && p.wrappedKey.Some?
            && (forall key: Key :: OaepDecrypt(key, p.wrappedKey.value).Some? <==> key == cert.value.claims.key)
            && OaepDecrypt(cert.value.claims.key, p.wrappedKey.value) == Some(draw.secret)
  {
  }

  /** The acknowledgement that download_file sends is one the server accepts: the row becomes
      'downloaded' and the signature is stored, unless an earlier one is. */
  lemma AckIsAccepted(cfg: Config, s: State, ses: Session, r: Reader, f: FileId, ackTime: int, salt: nat, c: Ambient)
    requires IsUuid(f) && f in s.files && s.files[f].recipient == r.user == ses.subject && FitsSqlite(ackTime)
    requires SenderCertOk(cfg, ses, c.check) && ses.cert.claims.key == r.key
    ensures var o := HandleAck(cfg, s, ses, AckNotice(r, f, ackTime, salt), c);
            && o.reply == AckOk(f) && o.state.files[f].status == Downloaded && f in o.state.acks
            && (f !in s.acks ==> o.state.acks[f] == AckRow(RsaSign(r.key, AckBody(f, ackTime), salt), ackTime))
  {
  }

  /** The honest round trip down to the recipient's disk: what download_file saves is the plaintext
      that upload_file was given. */
  lemma DownloadSavesPlaintext(cfg: Config, s: State, sender: Session, d: Draft, c: Ambient, es: seq<Event>, reader: Session,
                               key: Key, envelope: Envelope, c': Ambient, now: int, saved: map<FileId, Bytes>, last: Incoming,
                               ackTime: int, salt: nat)
    requires sender.subject == d.sender && IsUuid(d.fileId) && ValidUsername(d.recipient)
    requires Width(d.secret) == AES_KEY_BYTES && Width(d.nonce) == AES_NONCE_BYTES
    requires sender.cert.Cert? && sender.cert.claims.key == d.senderKey
    requires VerifyCertificate(sender.cert, cfg.ca, now, Some(d.sender))
    requires HandleUpload(cfg, s, sender, BuildPackage(d), c).reply.UploadAck?
    requires forall e | e in es :: Delivery.Harmless(e, d)
    requires reader.subject == d.recipient && key == d.recipientKey
    requires envelope.request == Download(Text(d.fileId)) && c'.check < d.timestamp + d.lifetime && c'.diskOk
    requires var t := After(cfg, HandleUpload(cfg, s, sender, BuildPackage(d), c).state, es);
             && Admits(t, envelope, c'.replay)
             && (d.fileId in t.files && d.fileId in t.blobs ==>
                   cfg.fits(DownloadResponse(ResponseFor(d.fileId, t.files[d.fileId], t.blobs[d.fileId]))))
    requires !last.Garbage?
    ensures var t := After(cfg, HandleUpload(cfg, s, sender, BuildPackage(d), c).state, es);
            var reply := Handle(cfg, t, reader, envelope, c').reply;
            && reply.DownloadResponse?
            && var e := DownloadEffect(Reader(d.recipient, key, cfg.ca), [DownloadReply(PayloadOf(reply.response)), last], saved, d.fileId,
                                 now, ackTime, salt, Works);
               e.result == Ok(()) && e.saved == saved[d.fileId := d.plain]
  {
    Delivery.RoundTrip(cfg, s, sender, d, c, es, reader, key, envelope, c', now);
  }
}

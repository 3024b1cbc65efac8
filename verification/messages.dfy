/** The envelopes a connection carries after the handshake, as the handlers see them. */
module Messages {
  import opened Wrappers
  import opened Crypto
  import opened Replay
  import opened Store

  /** A JSON value in a payload: absent, text, another value SQLite can bind, or one it cannot. */
  datatype Field = Missing | Text(text: string) | Scalar | Unbindable

  /** A base64 or integer field is None when it is absent or of the wrong shape. */
  datatype Package = Package(fileId: Field, recipient: Field, timestamp: Option<int>, expiration: Option<int>,
                             ciphertext: Option<Bytes>, aesNonce: Option<Bytes>,
                             wrappedKey: Option<Bytes>, signature: Option<Bytes>)

  datatype Notice = Notice(fileId: Field, timestamp: Option<int>, signature: Option<Bytes>)

  datatype Request =
    | GetPubkey(username: Field)
    | ListPending
    | Upload(package: Package)
    | Download(fileId: Field)
    | DownloadAck(notice: Notice)
    | Revoke(notice: Notice)
    | OtherType

  /** The request is about file f. */
  predicate Names(r: Request, f: FileId) {
    match r
    case Upload(p) => p.fileId == Text(f)
    case Download(fileId) => fileId == Text(f)
    case DownloadAck(n) => n.fileId == Text(f)
    case Revoke(n) => n.fileId == Text(f)
    case _ => false
  }

  datatype Envelope = Envelope(nonce: Nonce, timestamp: int, request: Request)

  datatype Code =
    | MALFORMED | STALE | AUTH_FAILED | NOT_FOUND | NOT_AUTHORIZED
    | EXPIRED | REVOKED | ALREADY_DOWNLOADED | INTERNAL_ERROR

  datatype Entry = Entry(fileId: FileId, sender: User, uploadTime: int, expiration: int, size: Option<nat>)

  datatype Response = Response(fileId: FileId, sender: User, timestamp: int, expiration: int,
                               ciphertext: Bytes, wrappedKey: Bytes, aesNonce: Bytes, aad: string,
                               signature: Bytes, senderCert: Cert)

  /** Dropped: the handler raised, so the connection closes with no reply. */
  datatype Reply =
    | Error(code: Code)
    | PubkeyResponse(cert: Cert)
    | PendingList(entries: set<Entry>)
    | UploadAck(fileId: FileId, expiration: int)
    | DownloadResponse(response: Response)
    | AckOk(fileId: FileId)
    | RevokeAck(fileId: FileId)
    | Dropped

  /** The identity that the handshake proved for this connection. */
  datatype Session = Session(subject: User, cert: Cert)

  /** Fixed inputs of the server: the CA key, the certificate directory, and which replies
      stay under the message cap. */
  datatype Config = Config(ca: Key, directory: map<User, Cert>, fits: Reply -> bool)

  /** What one handler call meets outside the database: its successive clock readings, and
      whether the file system serves it. */
  datatype Ambient = Ambient(replay: int, check: int, lookup: int, diskOk: bool)

  /** One tick of the cleanup thread: its clock reading, the purge's own later one, and which
      of the two transactions go through. */
  datatype Tick = Tick(now: int, purgeNow: int, purgeOk: bool, markOk: bool)

  predicate ValidPackage(p: Package) {
    && p.fileId.Text? && IsUuid(p.fileId.text)
    && p.recipient.Text? && ValidUsername(p.recipient.text)
    && p.timestamp.Some? && p.expiration.Some?
    && p.ciphertext.Some? && p.aesNonce.Some? && p.wrappedKey.Some? && p.signature.Some?
  }

  predicate ValidNotice(n: Notice) {
    n.fileId.Text? && IsUuid(n.fileId.text) && n.timestamp.Some? && n.signature.Some?
  }

  /** A CA-signed certificate for the connection's user, in date now. */
  predicate SenderCertOk(cfg: Config, ses: Session, now: int) {
    VerifyCertificate(ses.cert, cfg.ca, now, Some(ses.subject))
  }

  function PackageOrigin(sender: User, p: Package): Origin
    requires ValidPackage(p)
  {
    Origin(sender, p.recipient.text, p.fileId.text, [Sha(p.ciphertext.value)], [Sha(p.wrappedKey.value)],
           p.timestamp.value, p.expiration.value)
  }

  /** common/origin.py and common/revoke.py: the certificate's own key must have signed the struct. */
  predicate VerifyOrigin(cert: Cert, signature: Bytes, o: Origin) {
    cert.Cert? && RsaVerify(cert.claims.key, OriginBody(o), signature)
  }

  predicate VerifyRevoke(cert: Cert, signature: Bytes, sender: User, f: FileId, timestamp: int) {
    cert.Cert? && RsaVerify(cert.claims.key, RevokeBody(sender, f, timestamp), signature)
  }

  predicate VerifyAck(cert: Cert, signature: Bytes, f: FileId, timestamp: int) {
    cert.Cert? && RsaVerify(cert.claims.key, AckBody(f, timestamp), signature)
  }

  /** What the pubkey directory hands out verifies for exactly the user that was asked for. */
  function LookupCert(cfg: Config, username: User, now: int): (cert: Option<Cert>)
    ensures cert.Some? ==> username in cfg.directory && VerifyCertificate(cert.value, cfg.ca, now, Some(username))
  {
    if ValidUsername(username) && username in cfg.directory
       && VerifyCertificate(cfg.directory[username], cfg.ca, now, Some(username))
    then Some(cfg.directory[username]) else None
  }

  /** send_message raises above the message cap. Error replies always fit. */
  function Send(cfg: Config, reply: Reply): Reply {
    if cfg.fits(reply) then reply else Dropped
  }
}

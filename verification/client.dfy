/**
client/upload.py and client/download.py: how an honest sender builds a package, and what an
honest recipient checks before it accepts a plaintext.
*/
module Client {
  import opened Wrappers
  import opened Crypto
  import opened Store
  import opened FileCrypto
  import opened Messages
  import opened HandlerSpec

  /** The choices of one upload_file call: its inputs, its randomness and its clock. */
  datatype Draft = Draft(sender: User, senderKey: Key, recipient: User, recipientKey: Key, fileId: FileId, plain: Bytes,
                         secret: Bytes, nonce: Bytes, coin: nat, salt: nat, timestamp: int, lifetime: int)

  function Ciphertext(d: Draft): Bytes {
    EncryptFileBlob(d.plain, d.fileId, d.sender, d.recipient, d.secret, d.nonce)
  }

  function WrappedKey(d: Draft): Bytes {
    OaepEncrypt(d.recipientKey, d.secret, d.coin)
  }

  function DraftOrigin(d: Draft): Origin {
    Origin(d.sender, d.recipient, d.fileId, [Sha(Ciphertext(d))], [Sha(WrappedKey(d))], d.timestamp, d.timestamp + d.lifetime)
  }

  function BuildPackage(d: Draft): Package {
    Package(Text(d.fileId), Text(d.recipient), Some(d.timestamp), Some(d.timestamp + d.lifetime), Some(Ciphertext(d)),
            Some(d.nonce), Some(WrappedKey(d)), Some(RsaSign(d.senderKey, OriginBody(DraftOrigin(d)), d.salt)))
  }

  /** A DOWNLOAD_RESPONSE payload as it arrives from an untrusted peer. */
  datatype Payload = Payload(fileId: Field, sender: Field, timestamp: Option<int>, expiration: Option<int>,
                             ciphertext: Option<Bytes>, wrappedKey: Option<Bytes>, aesNonce: Option<Bytes>,
                             aad: Option<string>, signature: Option<Bytes>, senderCert: Option<Cert>)

  function PayloadOf(r: Response): Payload {
    Payload(Text(r.fileId), Text(r.sender), Some(r.timestamp), Some(r.expiration), Some(r.ciphertext), Some(r.wrappedKey),
            Some(r.aesNonce), Some(r.aad), Some(r.signature), Some(r.senderCert))
  }

  /** The recipient's identity and trust anchor. */
  datatype Reader = Reader(user: User, key: Key, ca: Key)

  datatype Fault = TypeFault | ProtocolFault | AuthFault | CryptoFault | ValueFault

  /** hmac.compare_digest takes only ASCII text. */
  predicate Ascii(s: string) {
    forall i | 0 <= i < |s| :: s[i] as int < 128
  }

  predicate WellFormed(p: Payload, fileId: FileId) {
    && p.fileId == Text(fileId) && p.sender.Text? && p.timestamp.Some? && p.expiration.Some?
    && p.ciphertext.Some? && p.wrappedKey.Some? && p.aesNonce.Some? && p.aad.Some? && p.signature.Some? && p.senderCert.Some?
  }

  /** The struct the sender must have signed: the reader's own name and the bytes it received. */
  function ClaimedOrigin(r: Reader, p: Payload, fileId: FileId): Origin
    requires WellFormed(p, fileId)
  {
    Origin(p.sender.text, r.user, fileId, [Sha(p.ciphertext.value)], [Sha(p.wrappedKey.value)],
           p.timestamp.value, p.expiration.value)
  }

  /** verify_and_decrypt_download at clock reading now, for the file that was asked for. */
  function VerifyAndDecrypt(r: Reader, p: Payload, fileId: FileId, now: int): Result<Bytes, Fault> {
    if p.fileId.Text? && !(Ascii(p.fileId.text) && Ascii(fileId)) then Err(TypeFault)
    else if !WellFormed(p, fileId) then Err(ProtocolFault)
    else if !VerifyCertificate(p.senderCert.value, r.ca, now, Some(p.sender.text)) then Err(AuthFault)
    else if !VerifyOrigin(p.senderCert.value, p.signature.value, ClaimedOrigin(r, p, fileId)) then Err(AuthFault)
    else if p.aad.value != Aad(fileId, p.sender.text, r.user) then Err(CryptoFault)
    else
      var secret := OaepDecrypt(r.key, p.wrappedKey.value);
      if secret.None? then Err(CryptoFault)
      else if Width(secret.value) != AES_KEY_BYTES || Width(p.aesNonce.value) != AES_NONCE_BYTES then Err(ValueFault)
      else match DecryptFileBlob(secret.value, p.aesNonce.value, p.ciphertext.value, fileId, p.sender.text, r.user)
        case None => Err(CryptoFault)
        case Some(plain) => Ok(plain)
  }

  /** What upload_file sends passes every check of the handler that concerns the package alone. */
  lemma PackageIsValid(d: Draft)
    requires IsUuid(d.fileId) && ValidUsername(d.recipient)
    ensures ValidPackage(BuildPackage(d)) && PackageOrigin(d.sender, BuildPackage(d)) == DraftOrigin(d)
    ensures forall cert: Cert :: cert.Cert? && cert.claims.key == d.senderKey ==>
              VerifyOrigin(cert, BuildPackage(d).signature.value, PackageOrigin(d.sender, BuildPackage(d)))
  {
  }

  /** The reader opens exactly what was sealed: a stored copy of the package under the sender's
      certificate decrypts to the plaintext if and only if the reader holds the key it was wrapped for. */
  lemma PackageOpens(d: Draft, cert: Cert, r: Reader, now: int)
    requires VerifyCertificate(cert, r.ca, now, Some(d.sender)) && cert.claims.key == d.senderKey && r.user == d.recipient
    requires Width(d.secret) == AES_KEY_BYTES && Width(d.nonce) == AES_NONCE_BYTES && IsUuid(d.fileId)
    ensures var stored := Response(d.fileId, d.sender, d.timestamp, d.timestamp + d.lifetime, Ciphertext(d), WrappedKey(d), d.nonce,
                                   Aad(d.fileId, d.sender, d.recipient),
                                   RsaSign(d.senderKey, OriginBody(DraftOrigin(d)), d.salt), cert);
            VerifyAndDecrypt(r, PayloadOf(stored), d.fileId, now) == if r.key == d.recipientKey then Ok(d.plain) else Err(CryptoFault)
  {
    UuidIsAscii(d.fileId);
  }

  /** What it takes for a payload to be accepted, field by field: the file asked for, a certificate of
      the claimed sender in date, this sender's signature over the reader's name and the received
      bytes, the associated data of the three names, and a key and ciphertext that open. */
  lemma AcceptedIff(r: Reader, p: Payload, fileId: FileId, now: int, plain: Bytes)
    ensures VerifyAndDecrypt(r, p, fileId, now) == Ok(plain) <==>
            && Ascii(fileId) && p.fileId == Text(fileId) && p.sender.Text? && p.timestamp.Some? && p.expiration.Some?
            && p.ciphertext.Some? && p.wrappedKey.Some? && p.aesNonce.Some? && p.aad.Some? && p.signature.Some?
            && p.senderCert.Some?
            && var sender, cert := p.sender.text, p.senderCert.value;
               && VerifyCertificate(cert, r.ca, now, Some(sender))
               && RsaVerify(cert.claims.key,
                            OriginBody(Origin(sender, r.user, fileId, [Sha(p.ciphertext.value)], [Sha(p.wrappedKey.value)],
                                              p.timestamp.value, p.expiration.value)),
                            p.signature.value)
               && p.aad.value == fileId + "|" + sender + "|" + r.user
               && OaepDecrypt(r.key, p.wrappedKey.value).Some?
               && var secret := OaepDecrypt(r.key, p.wrappedKey.value).value;
                  && Width(secret) == 32 && Width(p.aesNonce.value) == 12
                  && p.ciphertext.value == [Aead(secret, p.aesNonce.value, plain, p.aad.value)]
  {
  }

  /** Which check fails first decides the error. */
  lemma RefusedBy(r: Reader, p: Payload, fileId: FileId, now: int)
    requires Ascii(fileId) && (p.fileId.Text? ==> Ascii(p.fileId.text))
    ensures var outcome := VerifyAndDecrypt(r, p, fileId, now);
            && (outcome == Err(ProtocolFault) <==> !WellFormed(p, fileId))
            && (WellFormed(p, fileId) ==>
                  var cert := p.senderCert.value;
                  outcome == Err(AuthFault) <==>
                    !VerifyCertificate(cert, r.ca, now, Some(p.sender.text))
                    || !RsaVerify(cert.claims.key, OriginBody(ClaimedOrigin(r, p, fileId)), p.signature.value))
  {
  }

  lemma UuidIsAscii(f: FileId)
    requires IsUuid(f)
    ensures Ascii(f)
  {
    forall i | 0 <= i < |f|
      ensures f[i] as int < 128
    {
      assert if i == 8 || i == 13 || i == 18 || i == 23 then f[i] == '-' else IsLowerHex(f[i]);
    }
  }

  /** If a reader accepts a payload and the struct it verified is that of an honest draft, then the
      plaintext is the one of the draft: the digests pin the bytes and the bytes pin the plaintext. */
  lemma AcceptedIsDrafted(d: Draft, r: Reader, p: Payload, fileId: FileId, now: int)
    requires VerifyAndDecrypt(r, p, fileId, now).Ok?
    requires ClaimedOrigin(r, p, fileId) == DraftOrigin(d)
    ensures VerifyAndDecrypt(r, p, fileId, now) == Ok(d.plain)
    ensures fileId == d.fileId && r.user == d.recipient && r.key == d.recipientKey
  {
    assert p.ciphertext.value == Ciphertext(d) && p.wrappedKey.value == WrappedKey(d);
  }
}

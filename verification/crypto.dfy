/**
Symbolic cryptography. A byte string is a sequence of atoms: plain bytes, or opaque blocks
built by a primitive. The blocks are free constructors, so a hash has one preimage, a
signature verifies under one key and one body, and a ciphertext opens under one key.
*/
module Crypto {
  import opened Wrappers

  /** An RSA key pair; the PEM text on the wire names it. */
  type Key = nat

  type Bytes = seq<Atom>

  datatype Atom =
    | Byte(value: nat)
    | Oaep(key: Key, plain: Bytes, coin: nat)
    | Aead(secret: Bytes, nonce: Bytes, plain: Bytes, aad: string)
    | Sha(data: Bytes)
    | Sig(signer: Key, body: Body, salt: nat)
    | Hkdf(ikm: Bytes, hkdfSalt: Bytes, half: nat)

  /** The five things the program signs. Module SignedBytes shows that their encodings never meet. */
  datatype Body =
    | TranscriptBody(digest: Bytes)
    | OriginBody(origin: Origin)
    | RevokeBody(revoker: string, revokedFile: string, revokedAt: int)
    | AckBody(ackedFile: string, ackedAt: int)
    | CertBody(claims: Claims)

  datatype Origin = Origin(sender: string, recipient: string, fileId: string,
                           ciphertextSha: Bytes, wrappedKeySha: Bytes, timestamp: int, expiration: int)

  datatype Claims = Claims(subject: string, key: Key, issuer: string,
                           validFrom: int, validUntil: int, serial: string)

  /** A certificate as presented on the wire; BadCert is one without the required fields. */
  datatype Cert = Cert(claims: Claims, signature: Bytes) | BadCert

  const AES_KEY_BYTES := 32
  const AES_NONCE_BYTES := 12

  /** Length in bytes: OAEP and PSS blocks of RSA-2048 are 256 bytes, a GCM tag is 16. */
  function Width(b: Bytes): nat {
    if b == [] then 0 else AtomWidth(b[0]) + Width(b[1..])
  }

  function AtomWidth(a: Atom): nat {
    match a
    case Byte(_) => 1
    case Oaep(_, _, _) => 256
    case Aead(_, _, plain, _) => Width(plain) + 16
    case Sha(_) => 32
    case Sig(_, _, _) => 256
    case Hkdf(_, _, _) => 32
  }

  predicate RsaVerify(key: Key, body: Body, signature: Bytes) {
    |signature| == 1 && signature[0].Sig? && signature[0].signer == key && signature[0].body == body
  }

  function RsaSign(key: Key, body: Body, salt: nat): Bytes {
    [Sig(key, body, salt)]
  }

  function OaepEncrypt(key: Key, plain: Bytes, coin: nat): Bytes {
    [Oaep(key, plain, coin)]
  }

  function OaepDecrypt(key: Key, data: Bytes): Option<Bytes> {
    if |data| == 1 && data[0].Oaep? && data[0].key == key then Some(data[0].plain) else None
  }

  /** AES-GCM opens only under the key, nonce and associated data it was sealed with. */
  function AeadDecrypt(secret: Bytes, nonce: Bytes, data: Bytes, aad: string): Option<Bytes> {
    if Width(secret) != AES_KEY_BYTES || Width(nonce) != AES_NONCE_BYTES then None
    else if |data| == 1 && data[0].Aead? && data[0].secret == secret
            && data[0].nonce == nonce && data[0].aad == aad then Some(data[0].plain)
    else None
  }

  /** ca/cert.py: signature, then dates with both ends included, then the optional subject. */
  predicate VerifyCertificate(cert: Cert, ca: Key, now: int, expectedSubject: Option<string>) {
    && cert.Cert?
    && RsaVerify(ca, CertBody(cert.claims), cert.signature)
    && cert.claims.validFrom <= now <= cert.claims.validUntil
    && (expectedSubject.Some? ==> cert.claims.subject == expectedSubject.value)
  }

  type SigLog = set<(Key, Body)>

  /** Bytes a network can deliver: a signature by an honest key was made by its owner before. */
  ghost predicate Known(b: Bytes, honest: set<Key>, log: SigLog) {
    forall a | a in b && a.Sig? && a.signer in honest :: (a.signer, a.body) in log
  }

  ghost predicate KnownCert(cert: Cert, honest: set<Key>, log: SigLog) {
    cert.Cert? ==> Known(cert.signature, honest, log)
  }
}

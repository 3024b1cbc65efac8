/** ca/cert.py: issuing a certificate, and when what was issued verifies. */
module Certificates {
  import opened Wrappers
  import opened JsonText
  import opened Crypto
  import SignedBytes
  import CanonicalJson
  import Utf8

  const ISSUER_NAME := "ZeroTrustCA"
  const SECONDS_PER_DAY := 86400

  /** issue_certificate: six fields, then the signature over their bytes. The verifier strips the
      signature again and sees exactly the bytes that were signed. */
  method IssueCertificate(subject: string, publicKeyPem: string, days: int, now: int, serial: string,
                          sign: seq<Utf8.byte> -> string) returns (r: Option<seq<Member>>)
    ensures r.Some? <==> subject != "" && days > 0
    ensures r.Some? ==>
              SignedBytes.StripSignature(r.value)
              == SignedBytes.IssuedMembers(subject, publicKeyPem, ISSUER_NAME, now, now + days * SECONDS_PER_DAY, serial)
    ensures r.Some? ==>
              CanonicalJson.Fields(SignedBytes.StripSignature(r.value))
              == map["subject" := CanonicalJson.StrValue(subject), "public_key_pem" := CanonicalJson.StrValue(publicKeyPem),
                     "issuer" := CanonicalJson.StrValue("ZeroTrustCA"), "valid_from" := CanonicalJson.IntValue(now),
                     "valid_until" := CanonicalJson.IntValue(now + 86400 * days), "serial" := CanonicalJson.StrValue(serial)]
    ensures r.Some? ==> SignedBytes.Signable(SignedBytes.CertStruct(r.value))
    ensures r.Some? ==> Member("signature", Str(sign(SignedBytes.SignedBytes(SignedBytes.CertStruct(r.value))))) in r.value
  {
    if subject == "" || days <= 0 {
      return None;
    }
    var cert := [Member("subject", Str(subject)), Member("public_key_pem", Str(publicKeyPem)), Member("issuer", Str(ISSUER_NAME)),
                 Member("valid_from", Int(now)), Member("valid_until", Int(now + days * SECONDS_PER_DAY)), Member("serial", Str(serial))];
    var signature := sign(CanonicalJson.Canonical(Obj(cert)));
    SignedBytes.IssuedBytesRoundTrip(subject, publicKeyPem, ISSUER_NAME, now, now + days * SECONDS_PER_DAY, serial, signature);
    SignedBytes.StripEnd(cert, signature);
    SignedBytes.IssuedFields(subject, publicKeyPem, ISSUER_NAME, now, now + days * SECONDS_PER_DAY, serial);
    hide *;
    return Some(cert + [Member("signature", Str(signature))]);
  }

  function IssuedCert(claims: Claims, ca: Key, salt: nat): Cert {
    Cert(claims, RsaSign(ca, CertBody(claims), salt))
  }

  /** An issued certificate verifies under its CA's key alone, from the second of issue to the last
      second of validity, for its own subject; and no altered claims pass under its signature. */
  lemma IssuedVerifies(claims: Claims, ca: Key, salt: nat, presented: Claims, trusted: Key, now: int, expected: Option<string>)
    ensures VerifyCertificate(Cert(presented, IssuedCert(claims, ca, salt).signature), trusted, now, expected)
            <==> && trusted == ca && presented == claims
                 && claims.validFrom <= now <= claims.validUntil
                 && (expected.None? || expected.value == claims.subject)
  {
  }
}

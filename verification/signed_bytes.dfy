/**
The bytes that get an RSA-PSS signature: the origin, revoke and ack structs and the certificate
body. Their encodings tell them apart from each other and from a handshake transcript digest.
*/
module SignedBytes {
  import opened Wrappers
  import opened JsonText
  import opened CanonicalJson
  import Utf8
  import Crypto

  const TRANSCRIPT_DIGEST_BYTES := 32

  /** Digests are lower-case hex text here. CertStruct holds a certificate as read from the wire:
      any members at all, in any order. */
  datatype Struct =
    | OriginStruct(sender: string, recipient: string, fileId: string, ciphertextSha256: string,
                   wrappedKeySha256: string, timestamp: int, expiration: int)
    | RevokeStruct(sender: string, fileId: string, timestamp: int)
    | AckStruct(fileId: string, timestamp: int)
    | CertStruct(members: seq<Member>)

  function IssuedMembers(subject: string, publicKeyPem: string, issuer: string, validFrom: int, validUntil: int,
                         serial: string): seq<Member> {
    [Member("subject", Str(subject)), Member("public_key_pem", Str(publicKeyPem)), Member("issuer", Str(issuer)),
     Member("valid_from", Int(validFrom)), Member("valid_until", Int(validUntil)), Member("serial", Str(serial))]
  }

  /** ca/cert.py _strip_signature. */
  function StripSignature(members: seq<Member>): seq<Member> {
    if members == [] then []
    else (if members[0].key == "signature" then [] else [members[0]]) + StripSignature(members[1..])
  }

  function MembersOf(s: Struct): seq<Member> {
    match s
    case OriginStruct(sender, recipient, fileId, ciphertextSha256, wrappedKeySha256, timestamp, expiration) =>
      [Member("sender", Str(sender)), Member("recipient", Str(recipient)), Member("file_id", Str(fileId)),
       Member("ciphertext_sha256", Str(ciphertextSha256)), Member("wrapped_key_sha256", Str(wrappedKeySha256)),
       Member("timestamp", Int(timestamp)), Member("expiration", Int(expiration))]
    case RevokeStruct(sender, fileId, timestamp) =>
      [Member("action", Str("revoke")), Member("file_id", Str(fileId)), Member("sender", Str(sender)),
       Member("timestamp", Int(timestamp))]
    case AckStruct(fileId, timestamp) =>
      [Member("file_id", Str(fileId)), Member("status", Str("received")), Member("timestamp", Int(timestamp))]
    case CertStruct(members) => StripSignature(members)
  }

  function SignedBytes(s: Struct): seq<Utf8.byte> {
    Canonical(Obj(MembersOf(s)))
  }

  /** The keys verify_certificate insists on, the signature apart. */
  predicate HasRequiredKeys(members: seq<Member>) {
    var fields := Fields(members);
    && "subject" in fields && "public_key_pem" in fields && "issuer" in fields
    && "valid_from" in fields && "valid_until" in fields && "serial" in fields
  }

  /** A certificate reaches the signature check only as a dict with the required keys. */
  predicate Signable(s: Struct) {
    s.CertStruct? ==> WellFormedMembers(s.members) && HasRequiredKeys(s.members)
  }

  // ---------- Flat dicts ----------

  predicate Flat(members: seq<Member>) {
    && (forall m | m in members :: m.value.Str? || m.value.Int?)
    && (forall i, j | 0 <= i < j < |members| :: members[i].key != members[j].key)
  }

  lemma FlatIsWellFormed(members: seq<Member>)
    requires Flat(members)
    ensures WellFormedMembers(members)
  {
    DistinctIsWellFormed(members);
  }

  lemma OriginIsFlat(s: Struct)
    requires s.OriginStruct?
    ensures Flat(MembersOf(s))
  {
    var ms := MembersOf(s);
    assert |ms[0].key| == 6 && |ms[1].key| == 9 && |ms[2].key| == 7 && |ms[3].key| == 17;
    assert |ms[4].key| == 18 && |ms[5].key| == 9 && |ms[6].key| == 10;
    assert ms[1].key[0] != ms[5].key[0];
    assert forall i | 0 <= i < 7 :: ms[i].value.Str? || ms[i].value.Int?;
    hide MembersOf;
  }

  lemma NoticeIsFlat(s: Struct)
    requires s.RevokeStruct? || s.AckStruct?
    ensures Flat(MembersOf(s))
  {
    var ms := MembersOf(s);
    if s.RevokeStruct? {
      assert ms[0].key[0] != ms[2].key[0];
    }
  }

  lemma IssuedIsFlat(subject: string, publicKeyPem: string, issuer: string, validFrom: int, validUntil: int, serial: string)
    ensures Flat(IssuedMembers(subject, publicKeyPem, issuer, validFrom, validUntil, serial))
  {
    var ms := IssuedMembers(subject, publicKeyPem, issuer, validFrom, validUntil, serial);
    assert |ms[0].key| == 7 && |ms[1].key| == 14 && |ms[2].key| == 6 && |ms[3].key| == 10;
    assert |ms[4].key| == 11 && |ms[5].key| == 6;
    assert ms[2].key[0] != ms[5].key[0];
  }

  lemma {:induction false} StripKeeps(members: seq<Member>)
    requires WellFormedMembers(members)
    ensures WellFormedMembers(StripSignature(members))
    ensures Fields(StripSignature(members)) == Fields(members) - {"signature"}
  {
    if members != [] {
      StripKeeps(members[1..]);
      var m, rest := members[0], StripSignature(members[1..]);
      if m.key == "signature" {
        assert StripSignature(members) == rest;
      } else {
        assert StripSignature(members) == [m] + rest;
        assert ([m] + rest)[1..] == rest;
      }
    }
  }

  lemma SignableIsWellFormed(s: Struct)
    requires Signable(s)
    ensures WellFormedMembers(MembersOf(s))
    ensures !s.CertStruct? ==> Flat(MembersOf(s))
  {
    match s
    case OriginStruct(_, _, _, _, _, _, _) =>
      OriginIsFlat(s);
      FlatIsWellFormed(MembersOf(s));
    case CertStruct(members) => StripKeeps(members);
    case _ =>
      NoticeIsFlat(s);
      FlatIsWellFormed(MembersOf(s));
  }

  /** Flat dicts with the same keys in the same places are equal when their fields are. */
  lemma FlatUnique(a: seq<Member>, b: seq<Member>)
    requires Flat(a) && Flat(b) && |a| == |b| && Fields(a) == Fields(b)
    requires forall i | 0 <= i < |a| :: a[i].key == b[i].key
    ensures a == b
  {
    FlatIsWellFormed(a);
    FlatIsWellFormed(b);
    forall i | 0 <= i < |a|
      ensures a[i] == b[i]
    {
      FieldAt(a, i);
      FieldAt(b, i);
      assert a[i] in a && b[i] in b;
    }
  }

  // ---------- One key gives each kind away ----------

  predicate HasKey(members: seq<Member>, key: string) {
    exists i :: 0 <= i < |members| && members[i].key == key
  }

  lemma KeyIff(members: seq<Member>, key: string)
    requires WellFormedMembers(members)
    ensures key in Fields(members) <==> HasKey(members, key)
  {
    if key in Fields(members) {
      var i := FieldFrom(members, key);
      assert members[i].key == key;
    }
    if HasKey(members, key) {
      var i :| 0 <= i < |members| && members[i].key == key;
      FieldAt(members, i);
    }
  }

  /** Only a certificate has a subject; only an origin struct among the others a recipient; only
      a revoke struct an action. */
  lemma KindShows(s: Struct)
    requires Signable(s)
    ensures "subject" in Fields(MembersOf(s)) <==> s.CertStruct?
    ensures !s.CertStruct? ==> ("recipient" in Fields(MembersOf(s)) <==> s.OriginStruct?)
    ensures !s.CertStruct? ==> ("action" in Fields(MembersOf(s)) <==> s.RevokeStruct?)
  {
    SignableIsWellFormed(s);
    if s.CertStruct? {
      StripKeeps(s.members);
    } else {
      KeyIff(MembersOf(s), "subject");
      KeyIff(MembersOf(s), "recipient");
      KeyIff(MembersOf(s), "action");
      hide Fields, WellFormedMembers;
      KindKeys(s);
    }
  }

  lemma KindKeys(s: Struct)
    requires !s.CertStruct?
    ensures !HasKey(MembersOf(s), "subject")
    ensures HasKey(MembersOf(s), "recipient") <==> s.OriginStruct?
    ensures HasKey(MembersOf(s), "action") <==> s.RevokeStruct?
  {
    var ms := MembersOf(s);
    if s.OriginStruct? {
      assert ms[1].key == "recipient";
    } else if s.RevokeStruct? {
      assert ms[0].key == "action";
    }
  }

  /** Two signed structs share their bytes only when they are the same struct; two certificates
      only when they agree on every field but the signature. */
  lemma BytesIffSame(a: Struct, b: Struct)
    requires Signable(a) && Signable(b)
    ensures SignedBytes(a) == SignedBytes(b) <==>
      if a.CertStruct? && b.CertStruct?
      then Fields(StripSignature(a.members)) == Fields(StripSignature(b.members))
      else a == b
  {
    SignableIsWellFormed(a);
    SignableIsWellFormed(b);
    CanonicalIffSameMeaning(Obj(MembersOf(a)), Obj(MembersOf(b)));
    if Fields(MembersOf(a)) == Fields(MembersOf(b)) {
      KindShows(a);
      KindShows(b);
      if !a.CertStruct? {
        SameKindSameStruct(a, b);
      }
    }
  }

  lemma SameKindSameStruct(a: Struct, b: Struct)
    requires !a.CertStruct? && !b.CertStruct? && a.OriginStruct? == b.OriginStruct? && a.RevokeStruct? == b.RevokeStruct?
    requires Flat(MembersOf(a)) && Flat(MembersOf(b)) && Fields(MembersOf(a)) == Fields(MembersOf(b))
    ensures a == b
  {
    hide Fields, Flat;
    FlatUnique(MembersOf(a), MembersOf(b));
    var x, y := MembersOf(a), MembersOf(b);
    match a
    case OriginStruct(_, _, _, _, _, _, _) =>
      assert x[0] == y[0] && x[1] == y[1] && x[2] == y[2] && x[3] == y[3] && x[4] == y[4] && x[5] == y[5] && x[6] == y[6];
    case RevokeStruct(_, _, _) => assert x[1] == y[1] && x[2] == y[2] && x[3] == y[3];
    case AckStruct(_, _) => assert x[0] == y[0] && x[2] == y[2];
  }

  /** Issuing signs the dict before the signature is put in; verifying strips it again. Both see
      the same bytes, and those bytes fix all six fields. */
  lemma IssuedBytesRoundTrip(subject: string, publicKeyPem: string, issuer: string, validFrom: int, validUntil: int,
                             serial: string, signature: string)
    ensures var issued := IssuedMembers(subject, publicKeyPem, issuer, validFrom, validUntil, serial);
            && Signable(CertStruct(issued + [Member("signature", Str(signature))]))
            && SignedBytes(CertStruct(issued + [Member("signature", Str(signature))])) == Canonical(Obj(issued))
  {
    var issued := IssuedMembers(subject, publicKeyPem, issuer, validFrom, validUntil, serial);
    var cert := issued + [Member("signature", Str(signature))];
    IssuedIsFlat(subject, publicKeyPem, issuer, validFrom, validUntil, serial);
    SignedIsFlat(issued, signature);
    FlatIsWellFormed(cert);
    StripEnd(issued, signature);
    hide *;
    RequiredKeys(subject, publicKeyPem, issuer, validFrom, validUntil, serial, signature);
    SignableCert(cert);
  }

  lemma SignableCert(members: seq<Member>)
    requires WellFormedMembers(members) && HasRequiredKeys(members)
    ensures Signable(CertStruct(members)) && SignedBytes(CertStruct(members)) == Canonical(Obj(StripSignature(members)))
  {
  }

  lemma SignedIsFlat(issued: seq<Member>, signature: string)
    requires Flat(issued) && forall i | 0 <= i < |issued| :: issued[i].key != "signature"
    ensures Flat(issued + [Member("signature", Str(signature))])
  {
  }

  lemma {:induction false} StripEnd(issued: seq<Member>, signature: string)
    requires forall i | 0 <= i < |issued| :: issued[i].key != "signature"
    ensures StripSignature(issued + [Member("signature", Str(signature))]) == issued
  {
    var all := issued + [Member("signature", Str(signature))];
    if issued == [] {
      assert all[1..] == [];
    } else {
      assert all[1..] == issued[1..] + [Member("signature", Str(signature))];
      StripEnd(issued[1..], signature);
    }
  }

  lemma RequiredKeys(subject: string, publicKeyPem: string, issuer: string, validFrom: int, validUntil: int,
                     serial: string, signature: string)
    requires WellFormedMembers(IssuedMembers(subject, publicKeyPem, issuer, validFrom, validUntil, serial)
                               + [Member("signature", Str(signature))])
    ensures HasRequiredKeys(IssuedMembers(subject, publicKeyPem, issuer, validFrom, validUntil, serial)
                            + [Member("signature", Str(signature))])
  {
    var cert := IssuedMembers(subject, publicKeyPem, issuer, validFrom, validUntil, serial) + [Member("signature", Str(signature))];
    hide Fields, WellFormedMembers;
    forall i: nat | i < 6
      ensures cert[i].key in Fields(cert)
    {
      FieldAt(cert, i);
    }
    assert cert[0].key == "subject" && cert[1].key == "public_key_pem" && cert[2].key == "issuer";
    assert cert[3].key == "valid_from" && cert[4].key == "valid_until" && cert[5].key == "serial";
  }

  /** What a certificate carries under each of its keys. */
  lemma IssuedFields(subject: string, publicKeyPem: string, issuer: string, validFrom: int, validUntil: int, serial: string)
    ensures Fields(IssuedMembers(subject, publicKeyPem, issuer, validFrom, validUntil, serial))
         == map["subject" := StrValue(subject), "public_key_pem" := StrValue(publicKeyPem), "issuer" := StrValue(issuer),
                "valid_from" := IntValue(validFrom), "valid_until" := IntValue(validUntil), "serial" := StrValue(serial)]
  {
    var ms := IssuedMembers(subject, publicKeyPem, issuer, validFrom, validUntil, serial);
    var f := map["subject" := StrValue(subject), "public_key_pem" := StrValue(publicKeyPem), "issuer" := StrValue(issuer),
                 "valid_from" := IntValue(validFrom), "valid_until" := IntValue(validUntil), "serial" := StrValue(serial)];
    IssuedIsFlat(subject, publicKeyPem, issuer, validFrom, validUntil, serial);
    FlatIsWellFormed(ms);
    hide Fields, WellFormedMembers, Flat;
    FieldAt(ms, 0);
    FieldAt(ms, 1);
    FieldAt(ms, 2);
    FieldAt(ms, 3);
    FieldAt(ms, 4);
    FieldAt(ms, 5);
    forall key | key in Fields(ms)
      ensures key in f
    {
      var j := FieldFrom(ms, key);
    }
    assert Fields(ms).Keys == f.Keys;
  }

  // ---------- The order on the wire ----------

  predicate Ascending(members: seq<Member>) {
    forall i | 0 < i < |members| :: Less(members[i - 1].key, members[i].key)
  }

  predicate Leaves(members: seq<Member>) {
    forall m | m in members :: m.value.Str? || m.value.Int?
  }

  lemma {:induction false} AscendingIsCanonical(members: seq<Member>)
    requires Ascending(members) && Leaves(members)
    ensures CanonicalMembers(members)
  {
    if members != [] {
      forall i | 0 < i < |members[1..]|
        ensures Less(members[1..][i - 1].key, members[1..][i].key)
      {
        assert Less(members[i].key, members[i + 1].key);
      }
      AscendingIsCanonical(members[1..]);
      if |members| > 1 {
        assert Less(members[0].key, members[1].key);
      }
    }
  }

  lemma AscendingIsWellFormed(members: seq<Member>)
    requires Ascending(members) && Leaves(members)
    ensures WellFormedMembers(members)
  {
    AscendingIsCanonical(members);
    hide Ascending, CanonicalMembers, Less;
    forall i, j | 0 <= i < j < |members|
      ensures members[i].key != members[j].key
    {
      CanonicalAscends(members, i, j);
      LessIsTotal(members[i].key, members[j].key);
    }
    DistinctIsWellFormed(members);
  }

  /** A flat dict is written in the given order if that order ascends and has the same members. */
  lemma WrittenInOrder(members: seq<Member>, sorted: seq<Member>)
    requires Flat(members) && Ascending(sorted)
    requires forall m: Member :: m in members <==> m in sorted
    ensures NormMembers(members) == sorted
  {
    assert Leaves(sorted);
    FlatIsWellFormed(members);
    hide Flat;
    AscendingIsCanonical(sorted);
    AscendingIsWellFormed(sorted);
    hide Ascending, CanonicalMembers, WellFormedMembers;
    FieldsWithin(members, sorted);
    FieldsWithin(sorted, members);
    assert Fields(members) == Fields(sorted);
    SortsTo(members, sorted);
  }

  function OriginSorted(s: Struct): seq<Member>
    requires s.OriginStruct?
  {
    [Member("ciphertext_sha256", Str(s.ciphertextSha256)), Member("expiration", Int(s.expiration)),
     Member("file_id", Str(s.fileId)), Member("recipient", Str(s.recipient)), Member("sender", Str(s.sender)),
     Member("timestamp", Int(s.timestamp)), Member("wrapped_key_sha256", Str(s.wrappedKeySha256))]
  }

  lemma OriginAscends(s: Struct)
    requires s.OriginStruct?
    ensures Ascending(OriginSorted(s))
  {
    var ms := OriginSorted(s);
    assert ms[0].key[0] == 'c' && ms[1].key[0] == 'e' && ms[2].key[0] == 'f' && ms[3].key[0] == 'r';
    assert ms[4].key[0] == 's' && ms[5].key[0] == 't' && ms[6].key[0] == 'w';
    hide OriginSorted;
  }

  /** An origin struct is signed in the order ciphertext_sha256, expiration, file_id, recipient,
      sender, timestamp, wrapped_key_sha256. */
  lemma OriginOrder(s: Struct)
    requires s.OriginStruct?
    ensures NormMembers(MembersOf(s)) == OriginSorted(s)
  {
    OriginIsFlat(s);
    OriginAscends(s);
    var x := MembersOf(s);
    assert OriginSorted(s) == [x[3], x[6], x[2], x[1], x[0], x[5], x[4]];
    assert |x| == 7;
    hide MembersOf, OriginSorted, Flat, Ascending;
    assert x == [x[0], x[1], x[2], x[3], x[4], x[5], x[6]];
    WrittenInOrder(x, [x[3], x[6], x[2], x[1], x[0], x[5], x[4]]);
  }

  /** Revokes and acknowledgements are signed in the order they are built in: the action, or the file,
      comes first. */
  lemma NoticeOrder(s: Struct)
    requires s.RevokeStruct? || s.AckStruct?
    ensures NormMembers(MembersOf(s)) ==
            if s.RevokeStruct?
            then [Member("action", Str("revoke")), Member("file_id", Str(s.fileId)), Member("sender", Str(s.sender)),
                  Member("timestamp", Int(s.timestamp))]
            else [Member("file_id", Str(s.fileId)), Member("status", Str("received")), Member("timestamp", Int(s.timestamp))]
  {
    NoticeIsFlat(s);
    NoticeAscends(s);
    hide Flat, Ascending;
    WrittenInOrder(MembersOf(s), MembersOf(s));
  }

  lemma NoticeAscends(s: Struct)
    requires s.RevokeStruct? || s.AckStruct?
    ensures Ascending(MembersOf(s))
  {
    var ms := MembersOf(s);
    if s.RevokeStruct? {
      assert ms[0].key[0] == 'a' && ms[1].key[0] == 'f' && ms[2].key[0] == 's' && ms[3].key[0] == 't';
    } else {
      assert ms[0].key[0] == 'f' && ms[1].key[0] == 's' && ms[2].key[0] == 't';
    }
    hide MembersOf;
  }

  // ---------- Length ----------

  /** A lower bound on the text of the members: two quotes, the key, a colon, one value character
      and a comma or bracket each. */
  function KeyRoom(members: seq<Member>): nat {
    if members == [] then 0 else |members[0].key| + 5 + KeyRoom(members[1..])
  }

  lemma {:induction false} EscapeNotShorter(s: string, ascii: bool)
    ensures |EscapeAll(s, ascii)| >= |s|
  {
    if s != "" {
      EscapeNotShorter(s[1..], ascii);
    }
  }

  lemma {:induction false} MembersNeedRoom(members: seq<Member>, ascii: bool)
    requires members != []
    ensures |PrintMembers(members, ascii)| >= KeyRoom(members)
  {
    EscapeNotShorter(members[0].key, ascii);
    PrintStart(members[0].value, ascii);
    hide EscapeAll, Print;
    if |members| > 1 {
      MembersNeedRoom(members[1..], ascii);
    }
  }

  lemma {:induction false} InsertRoom(m: Member, ms: seq<Member>)
    ensures KeyRoom(Insert(m, ms)) == KeyRoom([m]) + KeyRoom(ms)
  {
    var out := Insert(m, ms);
    if ms == [] || Less(m.key, ms[0].key) {
      assert out[1..] == ms;
    } else {
      InsertRoom(m, ms[1..]);
      assert out[1..] == Insert(m, ms[1..]);
    }
  }

  lemma {:induction false} SortingKeepsRoom(members: seq<Member>)
    ensures KeyRoom(NormMembers(members)) == KeyRoom(members)
  {
    if members != [] {
      SortingKeepsRoom(members[1..]);
      InsertRoom(Member(members[0].key, Norm(members[0].value)), NormMembers(members[1..]));
    }
  }

  lemma {:induction false} OneKeyRoom(members: seq<Member>, key: string)
    requires key in Fields(members)
    ensures KeyRoom(members) >= |key| + 5
  {
    if members[0].key != key {
      OneKeyRoom(members[1..], key);
    }
  }

  lemma {:induction false} TwoKeyRoom(members: seq<Member>, key: string, other: string)
    requires key in Fields(members) && other in Fields(members) && key != other
    ensures KeyRoom(members) >= |key| + |other| + 10
  {
    if members[0].key == key {
      OneKeyRoom(members[1..], other);
    } else if members[0].key == other {
      OneKeyRoom(members[1..], key);
    } else {
      TwoKeyRoom(members[1..], key, other);
    }
  }

  lemma StructRoom(s: Struct)
    requires Signable(s)
    ensures KeyRoom(MembersOf(s)) >= TRANSCRIPT_DIGEST_BYTES
  {
    if s.CertStruct? {
      StripKeeps(s.members);
      TwoKeyRoom(MembersOf(s), "public_key_pem", "valid_until");
    } else {
      var ms := MembersOf(s);
      assert KeyRoom(ms) >= |ms[0].key| + 5 + KeyRoom(ms[1..]) && KeyRoom(ms[1..]) >= |ms[1].key| + 5 + KeyRoom(ms[2..]);
      assert KeyRoom(ms[2..]) >= |ms[2].key| + 5;
    }
  }

  /** No signed struct is as short as a SHA-256 digest, so none can be mistaken for a transcript. */
  lemma NeverDigestSized(s: Struct)
    requires Signable(s)
    ensures |SignedBytes(s)| > TRANSCRIPT_DIGEST_BYTES
  {
    var ms := MembersOf(s);
    StructRoom(s);
    SortingKeepsRoom(ms);
    assert NormMembers(ms) != [];
    MembersNeedRoom(NormMembers(ms), false);
    Utf8.EncodeNotShorter(Print(Norm(Obj(ms)), false));
  }

  // ---------- The symbolic bodies ----------

  ghost predicate Injective<A(!new), B(!new)>(f: A -> B) {
    forall x, y :: f(x) == f(y) ==> x == y
  }

  /** The struct a symbolic body stands for, given the PEM text of keys and the hex text of digests. */
  function WireStruct(body: Crypto.Body, pem: Crypto.Key -> string, hex: Crypto.Bytes -> string): Struct
    requires !body.TranscriptBody?
  {
    match body
    case OriginBody(o) =>
      OriginStruct(o.sender, o.recipient, o.fileId, hex(o.ciphertextSha), hex(o.wrappedKeySha), o.timestamp, o.expiration)
    case RevokeBody(revoker, f, at) => RevokeStruct(revoker, f, at)
    case AckBody(f, at) => AckStruct(f, at)
    case CertBody(c) =>
      CertStruct(IssuedMembers(c.subject, pem(c.key), c.issuer, c.validFrom, c.validUntil, c.serial))
  }

  lemma WireIsSignable(body: Crypto.Body, pem: Crypto.Key -> string, hex: Crypto.Bytes -> string)
    requires !body.TranscriptBody?
    ensures Signable(WireStruct(body, pem, hex))
    ensures body.CertBody? ==> var ms := WireStruct(body, pem, hex).members; Flat(ms) && StripSignature(ms) == ms
  {
    if body.CertBody? {
      var c := body.claims;
      var ms := WireStruct(body, pem, hex).members;
      IssuedIsFlat(c.subject, pem(c.key), c.issuer, c.validFrom, c.validUntil, c.serial);
      FlatIsWellFormed(ms);
      NothingToStrip(ms);
      hide WellFormedMembers, Fields, StripSignature, Flat;
      forall i: nat | i < 6
        ensures ms[i].key in Fields(ms)
      {
        FieldAt(ms, i);
      }
      assert ms[0].key == "subject" && ms[1].key == "public_key_pem" && ms[2].key == "issuer";
      assert ms[3].key == "valid_from" && ms[4].key == "valid_until" && ms[5].key == "serial";
    }
  }

  lemma {:induction false} NothingToStrip(members: seq<Member>)
    requires forall i | 0 <= i < |members| :: members[i].key != "signature"
    ensures StripSignature(members) == members
  {
    if members != [] {
      NothingToStrip(members[1..]);
      assert members == [members[0]] + members[1..];
    }
  }

  lemma WireInjective(a: Crypto.Body, b: Crypto.Body, pem: Crypto.Key -> string, hex: Crypto.Bytes -> string)
    requires !a.TranscriptBody? && !b.TranscriptBody? && Injective(pem) && Injective(hex)
    requires WireStruct(a, pem, hex) == WireStruct(b, pem, hex)
    ensures a == b
  {
    if a.CertBody? {
      var x, y := WireStruct(a, pem, hex).members, WireStruct(b, pem, hex).members;
      assert x[0] == y[0] && x[1] == y[1] && x[2] == y[2] && x[3] == y[3] && x[4] == y[4] && x[5] == y[5];
    }
  }

  /** Treating signed messages as free constructors is sound: two symbolic bodies have the same
      bytes exactly when they are the same body, and none has the bytes of a transcript digest. */
  lemma BodiesNeverMeet(a: Crypto.Body, b: Crypto.Body, pem: Crypto.Key -> string, hex: Crypto.Bytes -> string)
    requires !a.TranscriptBody? && !b.TranscriptBody? && Injective(pem) && Injective(hex)
    ensures SignedBytes(WireStruct(a, pem, hex)) == SignedBytes(WireStruct(b, pem, hex)) <==> a == b
    ensures |SignedBytes(WireStruct(a, pem, hex))| > TRANSCRIPT_DIGEST_BYTES
  {
    hide SignedBytes, Signable, Fields, Flat, StripSignature, Injective;
    var x, y := WireStruct(a, pem, hex), WireStruct(b, pem, hex);
    WireIsSignable(a, pem, hex);
    WireIsSignable(b, pem, hex);
    NeverDigestSized(x);
    BytesIffSame(x, y);
    if SignedBytes(x) == SignedBytes(y) {
      if x.CertStruct? {
        SameKeys(a, b, pem, hex);
        hide WireStruct;
        FlatUnique(x.members, y.members);
      }
      assert x == y;
      WireInjective(a, b, pem, hex);
    }
  }

  lemma SameKeys(a: Crypto.Body, b: Crypto.Body, pem: Crypto.Key -> string, hex: Crypto.Bytes -> string)
    requires a.CertBody? && b.CertBody?
    ensures var x, y := WireStruct(a, pem, hex).members, WireStruct(b, pem, hex).members;
            |x| == |y| && forall i | 0 <= i < |x| :: x[i].key == y[i].key
  {
  }
}

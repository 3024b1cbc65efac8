/** common/file_crypto.py and common/key_wrap.py: the associated data and the file key. */
module FileCrypto {
  import opened Wrappers
  import opened Crypto
  import opened Store

  function Aad(fileId: string, sender: string, recipient: string): string {
    fileId + "|" + sender + "|" + recipient
  }

  function EncryptFileBlob(plain: Bytes, fileId: string, sender: string, recipient: string,
                           secret: Bytes, nonce: Bytes): Bytes {
    [Aead(secret, nonce, plain, Aad(fileId, sender, recipient))]
  }

  function DecryptFileBlob(secret: Bytes, nonce: Bytes, data: Bytes,
                           fileId: string, sender: string, recipient: string): Option<Bytes> {
    AeadDecrypt(secret, nonce, data, Aad(fileId, sender, recipient))
  }

  predicate NoBar(s: string) {
    forall i | 0 <= i < |s| :: s[i] != '|'
  }

  /** Equal texts cut at their first bar are cut at the same place. */
  lemma FirstBarSplits(a: string, b: string, x: string, y: string)
    requires NoBar(a) && NoBar(b) && a + "|" + x == b + "|" + y
    ensures a == b && x == y
  {
    var t := a + "|" + x;
    assert t == b + "|" + y;
    assert t[|a|] == '|' && forall i | 0 <= i < |a| :: t[i] == a[i];
    assert t[|b|] == '|' && forall i | 0 <= i < |b| :: t[i] == b[i];
    assert a == t[..|a|] && b == t[..|b|];
    assert x == t[|a| + 1..] && y == t[|b| + 1..];
  }

  lemma LastBarSplits(a: string, b: string, x: string, y: string)
    requires NoBar(x) && NoBar(y) && a + "|" + x == b + "|" + y
    ensures a == b && x == y
  {
    var t := a + "|" + x;
    assert t == b + "|" + y;
    assert t[|a|] == '|' && forall i | |a| < i < |t| :: t[i] == x[i - |a| - 1];
    assert t[|b|] == '|' && forall i | |b| < i < |t| :: t[i] == y[i - |b| - 1];
    assert a == t[..|a|] && b == t[..|b|];
    assert x == t[|a| + 1..] && y == t[|b| + 1..];
  }

  lemma UuidHasNoBar(f: string)
    requires IsUuid(f)
    ensures NoBar(f)
  {
    forall i | 0 <= i < |f|
      ensures f[i] != '|'
    {
      assert if i == 8 || i == 13 || i == 18 || i == 23 then f[i] == '-' else IsLowerHex(f[i]);
    }
  }

  /** The associated data determines the triple whatever the sender is called: the upload
      handler lets only UUIDs and valid usernames into the outer positions. */
  lemma AadDecodes(f: string, s: string, r: string, f': string, s': string, r': string)
    requires IsUuid(f) && IsUuid(f') && ValidUsername(r) && ValidUsername(r')
    ensures Aad(f, s, r) == Aad(f', s', r') <==> f == f' && s == s' && r == r'
  {
    if Aad(f, s, r) == Aad(f', s', r') {
      UuidHasNoBar(f);
      UuidHasNoBar(f');
      assert NoBar(r) && NoBar(r') by {
        assert forall i | 0 <= i < |r| :: IsUsernameChar(r[i]);
        assert forall i | 0 <= i < |r'| :: IsUsernameChar(r'[i]);
      }
      assert f + "|" + (s + "|" + r) == Aad(f, s, r) && f' + "|" + (s' + "|" + r') == Aad(f', s', r');
      FirstBarSplits(f, f', s + "|" + r, s' + "|" + r');
      LastBarSplits(s, s', r, r');
    }
  }
}

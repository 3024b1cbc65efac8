/** The names that may enter the tables, spelled out independently of the checks in module Store. */
module Names {
  import opened Store

  const HEX_DIGITS := "0123456789abcdef"
  const UPPER := "ABCDEFGHIJKLMNOPQRSTUVWXYZ"
  const LOWER := "abcdefghijklmnopqrstuvwxyz"
  const DIGITS := "0123456789"

  predicate NameChar(c: char) {
    c in UPPER || c in LOWER || c in DIGITS || c == '_' || c == '-'
  }

  predicate Hex(s: string, n: nat) {
    |s| == n && forall i | 0 <= i < n :: IsHex(s[i])
  }

  predicate IsHex(c: char) {
    c in HEX_DIGITS
  }

  lemma HexIff(c: char)
    ensures IsHex(c) <==> IsLowerHex(c)
  {
    var i := if '0' <= c <= '9' then c as int - '0' as int else if 'a' <= c <= 'f' then c as int - 'a' as int + 10 else 0;
    assert IsLowerHex(c) ==> HEX_DIGITS[i] == c;
  }

  function Dashed(a: string, b: string, c: string, d: string, e: string): string {
    a + "-" + b + "-" + c + "-" + d + "-" + e
  }

  predicate Groups(s: string, a: string, b: string, c: string, d: string, e: string) {
    s == Dashed(a, b, c, d, e) && Hex(a, 8) && Hex(b, 4) && Hex(c, 4) && Hex(d, 4) && Hex(e, 12)
  }

  /** A file id is five groups of lower-case hex digits, of 8, 4, 4, 4 and 12, joined by dashes. */
  lemma UuidIff(s: string)
    ensures IsUuid(s) <==> exists a, b, c, d, e :: Groups(s, a, b, c, d, e)
  {
    if IsUuid(s) {
      forall i | 0 <= i < 36
        ensures if i == 8 || i == 13 || i == 18 || i == 23 then s[i] == '-' else IsHex(s[i])
      {
        HexIff(s[i]);
      }
      hide IsHex, IsLowerHex;
      assert s == Dashed(s[..8], s[9..13], s[14..18], s[19..23], s[24..]);
      assert Groups(s, s[..8], s[9..13], s[14..18], s[19..23], s[24..]);
    }
    if a, b, c, d, e :| Groups(s, a, b, c, d, e) {
      GroupsAreUuid(s, a, b, c, d, e);
    }
  }

  lemma GroupsAreUuid(s: string, a: string, b: string, c: string, d: string, e: string)
    requires Groups(s, a, b, c, d, e)
    ensures IsUuid(s)
  {
    hide IsHex, IsLowerHex;
    forall i | 0 <= i < 36
      ensures if i == 8 || i == 13 || i == 18 || i == 23 then s[i] == '-' else IsLowerHex(s[i])
    {
      HexIff(s[i]);
    }
  }

  lemma UpperIff(c: char)
    ensures c in UPPER <==> 'A' <= c <= 'Z'
  {
    assert 'A' <= c <= 'Z' ==> UPPER[c as int - 'A' as int] == c;
  }

  lemma LowerIff(c: char)
    ensures c in LOWER <==> 'a' <= c <= 'z'
  {
    assert 'a' <= c <= 'z' ==> LOWER[c as int - 'a' as int] == c;
  }

  lemma DigitIff(c: char)
    ensures c in DIGITS <==> '0' <= c <= '9'
  {
    assert '0' <= c <= '9' ==> DIGITS[c as int - '0' as int] == c;
  }

  lemma NameCharIff(c: char)
    ensures IsUsernameChar(c) <==> NameChar(c)
  {
    UpperIff(c);
    LowerIff(c);
    DigitIff(c);
    hide UPPER, LOWER, DIGITS;
  }

  /** A username has one to 32 letters, digits, underscores and hyphens. */
  lemma UsernameIff(s: string)
    ensures ValidUsername(s) <==> s != "" && |s| <= 32 && forall i | 0 <= i < |s| :: NameChar(s[i])
  {
    forall i | 0 <= i < |s|
      ensures IsUsernameChar(s[i]) <==> NameChar(s[i])
    {
      NameCharIff(s[i]);
    }
    hide IsUsernameChar, NameChar;
  }
}

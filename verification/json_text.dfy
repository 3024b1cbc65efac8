/**
The JSON text that json.dumps writes with separators (",", ":"), for either setting of its
ensure_ascii flag, and a parser that reads both back (strings as in section 7 of RFC 8259).
*/
module JsonText {
  import opened Wrappers

  /** A value as json.loads builds it; an object keeps its members in insertion order. */
  datatype Json =
    | Null
    | Bool(b: bool)
    | Int(n: int)
    | Str(s: string)
    | Arr(items: seq<Json>)
    | Obj(members: seq<Member>)

  datatype Member = Member(key: string, value: Json)

  // ---------- Printing ----------

  function Digit(d: nat): char
    requires d < 10
  {
    ('0' as int + d) as char
  }

  function PrintNat(n: nat): (t: string)
    ensures |t| >= 1
  {
    if n < 10 then [Digit(n)] else PrintNat(n / 10) + [Digit(n % 10)]
  }

  function PrintInt(n: int): (t: string)
    ensures |t| >= 1
  {
    if n < 0 then "-" + PrintNat(-n) else PrintNat(n)
  }

  function HexDigit(d: nat): char
    requires d < 16
  {
    if d < 10 then ('0' as int + d) as char else ('a' as int + d - 10) as char
  }

  function Hex4(n: nat): (t: string)
    requires n < 0x1_0000
    ensures |t| == 4
  {
    [HexDigit(n / 0x1000), HexDigit(n / 0x100 % 16), HexDigit(n / 16 % 16), HexDigit(n % 16)]
  }

  /** Beyond the first 65536 code points an escape is a surrogate pair. */
  function UnicodeEscape(n: nat): (t: string)
    requires n < 0x11_0000
    ensures |t| >= 6
  {
    if n < 0x1_0000 then "\\u" + Hex4(n)
    else "\\u" + Hex4(0xD800 + (n - 0x1_0000) / 0x400) + "\\u" + Hex4(0xDC00 + (n - 0x1_0000) % 0x400)
  }

  /** Quote, backslash and the control characters are always escaped; with ascii, so is
      everything outside the printable ASCII range. */
  function EscapeChar(c: char, ascii: bool): (t: string)
    ensures |t| >= 1
  {
    var n := c as int;
    if c == '"' then "\\\""
    else if c == '\\' then "\\\\"
    else if c == '\n' then "\\n"
    else if c == '\r' then "\\r"
    else if c == '\t' then "\\t"
    else if n == 12 then "\\f"
    else if n == 8 then "\\b"
    else if n < 32 || (ascii && n > 126) then UnicodeEscape(n)
    else [c]
  }

  function EscapeAll(s: string, ascii: bool): string {
    if s == "" then "" else EscapeChar(s[0], ascii) + EscapeAll(s[1..], ascii)
  }

  function PrintString(s: string, ascii: bool): string {
    "\"" + EscapeAll(s, ascii) + "\""
  }

  function Print(j: Json, ascii: bool): string
    decreases j, 1
  {
    match j
    case Null => "null"
    case Bool(b) => if b then "true" else "false"
    case Int(n) => PrintInt(n)
    case Str(s) => PrintString(s, ascii)
    case Arr(items) => "[" + (if items == [] then "]" else PrintItems(items, ascii))
    case Obj(members) => "{" + (if members == [] then "}" else PrintMembers(members, ascii))
  }

  /** The items of a non-empty array and its closing bracket. */
  function PrintItems(items: seq<Json>, ascii: bool): string
    requires items != []
    decreases items, 0
  {
    Print(items[0], ascii) + if |items| == 1 then "]" else "," + PrintItems(items[1..], ascii)
  }

  function PrintMembers(members: seq<Member>, ascii: bool): string
    requires members != []
    decreases members, 0
  {
    PrintString(members[0].key, ascii) + ":" + Print(members[0].value, ascii)
    + if |members| == 1 then "}" else "," + PrintMembers(members[1..], ascii)
  }

  // ---------- Parsing ----------

  predicate IsDigit(c: char) {
    '0' <= c <= '9'
  }

  function Digits(t: string): (ds: string)
    ensures |ds| <= |t| && t[..|ds|] == ds
  {
    if t == "" || !IsDigit(t[0]) then "" else [t[0]] + Digits(t[1..])
  }

  function ValueOf(ds: string): nat
    requires forall i | 0 <= i < |ds| :: IsDigit(ds[i])
  {
    if ds == "" then 0 else
      assert IsDigit(ds[|ds| - 1]);
      10 * ValueOf(ds[..|ds| - 1]) + (ds[|ds| - 1] as int - '0' as int)
  }

  lemma {:induction false} DigitsAreDigits(t: string)
    ensures forall i | 0 <= i < |Digits(t)| :: IsDigit(Digits(t)[i])
  {
    if t != "" && IsDigit(t[0]) {
      DigitsAreDigits(t[1..]);
    }
  }

  /** A parser returns what it read and the text after it. */
  datatype Parsed<T> = Parsed(value: T, rest: string) | Fails

  function ParseNat(t: string): Parsed<int> {
    DigitsAreDigits(t);
    var ds := Digits(t);
    if ds == "" then Fails else Parsed(ValueOf(ds), t[|ds|..])
  }

  function ParseInt(t: string): Parsed<int> {
    if t != "" && t[0] == '-' then
      match ParseNat(t[1..])
      case Parsed(n, rest) => Parsed(-n, rest)
      case Fails => Fails
    else ParseNat(t)
  }

  function HexValue(c: char): Option<nat> {
    if '0' <= c <= '9' then Some(c as int - '0' as int)
    else if 'a' <= c <= 'f' then Some(c as int - 'a' as int + 10)
    else None
  }

  /** One character of a string body, escaped or not. */
  function ParseChar(t: string): Parsed<char>
    requires t != ""
  {
    if t[0] != '\\' then Parsed(t[0], t[1..])
    else if |t| < 2 then Fails
    else if t[1] == '"' then Parsed('"', t[2..])
    else if t[1] == '\\' then Parsed('\\', t[2..])
    else if t[1] == 'n' then Parsed('\n', t[2..])
    else if t[1] == 'r' then Parsed('\r', t[2..])
    else if t[1] == 't' then Parsed('\t', t[2..])
    else if t[1] == 'f' then Parsed(12 as char, t[2..])
    else if t[1] == 'b' then Parsed(8 as char, t[2..])
    else if t[1] == 'u' && |t| >= 6 then ParseUnicode(t)
    else Fails
  }

  function ParseHex4(t: string): Option<nat>
    requires |t| == 4
  {
    match (HexValue(t[0]), HexValue(t[1]), HexValue(t[2]), HexValue(t[3]))
    case (Some(a), Some(b), Some(c), Some(d)) => Some(0x1000 * a + 0x100 * b + 16 * c + d)
    case _ => None
  }

  /** An escape, or two that form a surrogate pair. A lone surrogate is not a character. */
  function ParseUnicode(t: string): Parsed<char>
    requires |t| >= 6
  {
    match ParseHex4(t[2..6])
    case None => Fails
    case Some(n) =>
      if n < 0xD800 || 0xE000 <= n < 0x11_0000 then Parsed(n as char, t[6..])
      else if 0xDC00 <= n || |t| < 12 || t[6] != '\\' || t[7] != 'u' then Fails
      else match ParseHex4(t[8..12])
        case None => Fails
        case Some(low) =>
          if 0xDC00 <= low < 0xE000
          then Parsed((0x1_0000 + 0x400 * (n - 0xD800) + (low - 0xDC00)) as char, t[12..])
          else Fails
  }

  /** A string body up to and including its closing quote. */
  function ParseBody(t: string): Parsed<string>
    decreases |t|
  {
    if t == "" then Fails
    else if t[0] == '"' then Parsed("", t[1..])
    else match ParseChar(t)
      case Fails => Fails
      case Parsed(c, rest) =>
        if |rest| >= |t| then Fails else
          match ParseBody(rest)
          case Fails => Fails
          case Parsed(s, after) => Parsed([c] + s, after)
  }

  function ParseString(t: string): Parsed<string> {
    if t == "" || t[0] != '"' then Fails else ParseBody(t[1..])
  }

  function ParseWord(t: string, word: string, j: Json): Parsed<Json> {
    if word <= t then Parsed(j, t[|word|..]) else Fails
  }

  function Parse(t: string): (p: Parsed<Json>)
    ensures p.Parsed? ==> |p.rest| < |t|
    decreases |t|, 1
  {
    if t == "" then Fails
    else if t[0] == 'n' then ParseWord(t, "null", Null)
    else if t[0] == 't' then ParseWord(t, "true", Bool(true))
    else if t[0] == 'f' then ParseWord(t, "false", Bool(false))
    else if t[0] == '"' then
      match ParseString(t)
      case Parsed(s, rest) => if |rest| < |t| then Parsed(Str(s), rest) else Fails
      case Fails => Fails
    else if t[0] == '[' then
      if |t| >= 2 && t[1] == ']' then Parsed(Arr([]), t[2..])
      else match ParseItems(t[1..])
        case Parsed(items, rest) => Parsed(Arr(items), rest)
        case Fails => Fails
    else if t[0] == '{' then
      if |t| >= 2 && t[1] == '}' then Parsed(Obj([]), t[2..])
      else match ParseMembers(t[1..])
        case Parsed(members, rest) => Parsed(Obj(members), rest)
        case Fails => Fails
    else match ParseInt(t)
      case Parsed(n, rest) => if |rest| < |t| then Parsed(Int(n), rest) else Fails
      case Fails => Fails
  }

  function ParseItems(t: string): (p: Parsed<seq<Json>>)
    ensures p.Parsed? ==> |p.rest| < |t|
    decreases |t|, 2
  {
    match Parse(t)
    case Fails => Fails
    case Parsed(j, rest) =>
      if rest != "" && rest[0] == ']' then Parsed([j], rest[1..])
      else if rest != "" && rest[0] == ',' then
        match ParseItems(rest[1..])
        case Fails => Fails
        case Parsed(items, after) => Parsed([j] + items, after)
      else Fails
  }

  function ParseMember(t: string): (p: Parsed<Member>)
    ensures p.Parsed? ==> |p.rest| < |t|
    decreases |t|, 2
  {
    match ParseString(t)
    case Fails => Fails
    case Parsed(key, rest) =>
      if rest == "" || rest[0] != ':' || |rest| > |t| then Fails else
        match Parse(rest[1..])
        case Fails => Fails
        case Parsed(j, after) => Parsed(Member(key, j), after)
  }

  function ParseMembers(t: string): (p: Parsed<seq<Member>>)
    ensures p.Parsed? ==> |p.rest| < |t|
    decreases |t|, 3
  {
    match ParseMember(t)
    case Fails => Fails
    case Parsed(m, rest) =>
      if rest != "" && rest[0] == '}' then Parsed([m], rest[1..])
      else if rest != "" && rest[0] == ',' then
        match ParseMembers(rest[1..])
        case Fails => Fails
        case Parsed(members, after) => Parsed([m] + members, after)
      else Fails
  }

  // ---------- The parser undoes the printer ----------

  lemma {:induction false} PrintNatDigits(n: nat)
    ensures forall i | 0 <= i < |PrintNat(n)| :: IsDigit(PrintNat(n)[i])
    ensures ValueOf(PrintNat(n)) == n
  {
    if n >= 10 {
      PrintNatDigits(n / 10);
      var t := PrintNat(n);
      assert t[..|t| - 1] == PrintNat(n / 10);
    }
  }

  /** The text after a number must not begin with a digit. */
  predicate Ends(rest: string) {
    rest == "" || !IsDigit(rest[0])
  }

  lemma {:induction false} DigitsOf(ds: string, rest: string)
    requires (forall i | 0 <= i < |ds| :: IsDigit(ds[i])) && Ends(rest)
    ensures Digits(ds + rest) == ds
  {
    if ds == "" {
      assert ds + rest == rest;
    } else {
      assert (ds + rest)[1..] == ds[1..] + rest;
      DigitsOf(ds[1..], rest);
    }
  }

  lemma ParseNatPrints(n: nat, rest: string)
    requires Ends(rest)
    ensures ParseNat(PrintNat(n) + rest) == Parsed(n, rest)
  {
    PrintNatDigits(n);
    DigitsOf(PrintNat(n), rest);
    assert (PrintNat(n) + rest)[|PrintNat(n)|..] == rest;
  }

  lemma ParseIntPrints(n: int, rest: string)
    requires Ends(rest)
    ensures ParseInt(PrintInt(n) + rest) == Parsed(n, rest)
  {
    hide ParseNat, PrintNat, Ends;
    var t := PrintInt(n) + rest;
    if n < 0 {
      ParseNatPrints(-n, rest);
      assert t[1..] == PrintNat(-n) + rest;
      assert t[0] == '-';
    } else {
      ParseNatPrints(n, rest);
      PrintNatDigits(n);
      assert t[0] == PrintNat(n)[0] && IsDigit(t[0]);
    }
  }

  lemma HexDigitParses(d: nat)
    requires d < 16
    ensures HexValue(HexDigit(d)) == Some(d)
  {
  }

  lemma HexDigits(n: nat)
    requires n < 0x1_0000
    ensures n == 0x1000 * (n / 0x1000) + 0x100 * (n / 0x100 % 16) + 16 * (n / 16 % 16) + n % 16
  {
    assert n / 0x100 == 16 * (n / 0x1000) + n / 0x100 % 16;
    assert n / 16 == 16 * (n / 0x100) + n / 16 % 16;
  }

  lemma Hex4Parses(n: nat)
    requires n < 0x1_0000
    ensures ParseHex4(Hex4(n)) == Some(n)
  {
    HexDigits(n);
    HexDigitParses(n / 0x1000);
    HexDigitParses(n / 0x100 % 16);
    HexDigitParses(n / 16 % 16);
    HexDigitParses(n % 16);
    hide HexDigit, HexValue;
  }

  lemma ShortEscapeParses(c: char, rest: string)
    requires (c as int) < 0x1_0000
    ensures ParseUnicode(UnicodeEscape(c as int) + rest) == Parsed(c, rest)
  {
    hide ParseHex4, Hex4;
    var n := c as int;
    var t := UnicodeEscape(n) + rest;
    Hex4Parses(n);
    assert t[2..6] == Hex4(n) && t[6..] == rest;
  }

  lemma PairParses(c: char, rest: string)
    requires (c as int) >= 0x1_0000
    ensures ParseUnicode(UnicodeEscape(c as int) + rest) == Parsed(c, rest)
  {
    hide ParseHex4, Hex4;
    var n := c as int;
    var t := UnicodeEscape(n) + rest;
    var high, low := 0xD800 + (n - 0x1_0000) / 0x400, 0xDC00 + (n - 0x1_0000) % 0x400;
    Hex4Parses(high);
    Hex4Parses(low);
    assert t == "\\u" + Hex4(high) + "\\u" + Hex4(low) + rest;
    assert t[2..6] == Hex4(high) && t[6] == '\\' && t[7] == 'u';
    assert t[8..12] == Hex4(low) && t[12..] == rest;
    assert n == 0x1_0000 + 0x400 * (high - 0xD800) + (low - 0xDC00);
  }

  lemma ParseCharPrints(c: char, rest: string, ascii: bool)
    ensures EscapeChar(c, ascii)[0] != '"' && ParseChar(EscapeChar(c, ascii) + rest) == Parsed(c, rest)
  {
    hide UnicodeEscape, ParseUnicode;
    var e := EscapeChar(c, ascii);
    var n := c as int;
    if c != '"' && c != '\\' && c != '\n' && c != '\r' && c != '\t' && n != 12 && n != 8 && (n < 32 || (ascii && n > 126)) {
      if n < 0x1_0000 {
        ShortEscapeParses(c, rest);
      } else {
        PairParses(c, rest);
      }
      EscapeStarts(n);
      assert (e + rest)[0] == e[0] && (e + rest)[1] == e[1];
    } else {
      assert (e + rest)[|e|..] == rest;
    }
  }

  lemma EscapeStarts(n: nat)
    requires n < 0x11_0000
    ensures UnicodeEscape(n)[0] == '\\' && UnicodeEscape(n)[1] == 'u'
  {
    hide Hex4;
  }

  lemma ParseBodyStep(t: string, c: char, more: string, s: string, rest: string)
    requires t != "" && t[0] != '"' && |more| < |t|
    requires ParseChar(t) == Parsed(c, more) && ParseBody(more) == Parsed(s, rest)
    ensures ParseBody(t) == Parsed([c] + s, rest)
  {
    hide ParseChar;
  }

  lemma {:induction false} ParseBodyPrints(s: string, rest: string, ascii: bool)
    ensures ParseBody(EscapeAll(s, ascii) + "\"" + rest) == Parsed(s, rest)
  {
    var t := EscapeAll(s, ascii) + "\"" + rest;
    if s == "" {
      assert t == "\"" + rest;
      assert t[1..] == rest;
    } else {
      var more := EscapeAll(s[1..], ascii) + "\"" + rest;
      assert t == EscapeChar(s[0], ascii) + more;
      hide EscapeChar, EscapeAll, ParseChar, ParseBody;
      ParseCharPrints(s[0], more, ascii);
      ParseBodyPrints(s[1..], rest, ascii);
      ParseBodyStep(t, s[0], more, s[1..], rest);
      assert s == [s[0]] + s[1..];
    }
  }

  lemma ParseStringPrints(s: string, rest: string, ascii: bool)
    ensures ParseString(PrintString(s, ascii) + rest) == Parsed(s, rest)
  {
    assert (PrintString(s, ascii) + rest)[1..] == EscapeAll(s, ascii) + "\"" + rest;
    ParseBodyPrints(s, rest, ascii);
  }

  lemma {:induction false} ParsePrints(j: Json, rest: string, ascii: bool)
    requires Ends(rest)
    ensures Parse(Print(j, ascii) + rest) == Parsed(j, rest)
    decreases j, 1
  {
    match j
    case Null => ParseWordPrints(j, rest, ascii);
    case Bool(_) => ParseWordPrints(j, rest, ascii);
    case Int(n) => ParseIntValue(n, rest, ascii);
    case Str(s) => ParseStrValue(s, rest, ascii);
    case Arr(items) =>
      if items != [] {
        ParseItemsPrints(items, rest, ascii);
      }
      ParseArrValue(items, rest, ascii);
    case Obj(members) =>
      if members != [] {
        ParseMembersPrints(members, rest, ascii);
      }
      ParseObjValue(members, rest, ascii);
  }

  lemma ParseWordPrints(j: Json, rest: string, ascii: bool)
    requires j.Null? || j.Bool?
    ensures Parse(Print(j, ascii) + rest) == Parsed(j, rest)
  {
    var t := Print(j, ascii) + rest;
    assert t[0] == Print(j, ascii)[0] && t[|Print(j, ascii)|..] == rest;
    assert Print(j, ascii) <= t;
  }

  lemma ParseIntValue(n: int, rest: string, ascii: bool)
    requires Ends(rest)
    ensures Parse(Print(Int(n), ascii) + rest) == Parsed(Int(n), rest)
  {
    hide PrintInt, ParseInt, Ends;
    var t := PrintInt(n) + rest;
    ParseIntPrints(n, rest);
    PrintIntStart(n);
    assert t[0] == PrintInt(n)[0];
  }

  lemma ParseStrValue(s: string, rest: string, ascii: bool)
    ensures Parse(Print(Str(s), ascii) + rest) == Parsed(Str(s), rest)
  {
    var t := PrintString(s, ascii) + rest;
    ParseStringPrints(s, rest, ascii);
    assert t[0] == '"' && |rest| < |t|;
    hide PrintString, ParseString;
  }

  lemma ParseArrValue(items: seq<Json>, rest: string, ascii: bool)
    requires items != [] ==> ParseItems(PrintItems(items, ascii) + rest) == Parsed(items, rest)
    ensures Parse(Print(Arr(items), ascii) + rest) == Parsed(Arr(items), rest)
  {
    var t := Print(Arr(items), ascii) + rest;
    assert t[0] == '[';
    if items == [] {
      assert t[1] == ']' && t[2..] == rest;
    } else {
      PrintStart(items[0], ascii);
      assert t[1..] == PrintItems(items, ascii) + rest;
      assert t[1] == PrintItems(items, ascii)[0] == Print(items[0], ascii)[0];
      hide PrintItems, ParseItems;
    }
  }

  lemma PrintMembersStart(members: seq<Member>, ascii: bool)
    requires members != []
    ensures PrintMembers(members, ascii) != "" && PrintMembers(members, ascii)[0] == '"'
  {
    hide EscapeAll, Print;
  }

  lemma ParseObjValue(members: seq<Member>, rest: string, ascii: bool)
    requires members != [] ==> ParseMembers(PrintMembers(members, ascii) + rest) == Parsed(members, rest)
    ensures Parse(Print(Obj(members), ascii) + rest) == Parsed(Obj(members), rest)
  {
    var t := Print(Obj(members), ascii) + rest;
    assert t[0] == '{';
    if members == [] {
      assert t[1] == '}' && t[2..] == rest;
    } else {
      PrintMembersStart(members, ascii);
      hide PrintMembers, ParseMembers;
      assert t[1..] == PrintMembers(members, ascii) + rest;
      assert t[1] == PrintMembers(members, ascii)[0];
    }
  }

  lemma PrintIntStart(n: int)
    ensures PrintInt(n)[0] == '-' || IsDigit(PrintInt(n)[0])
  {
    if n >= 0 {
      PrintNatDigits(n);
    }
  }

  /** No printed value begins with a closing bracket. */
  lemma PrintStart(j: Json, ascii: bool)
    ensures |Print(j, ascii)| >= 1 && Print(j, ascii)[0] != ']'
  {
    if j.Int? {
      PrintIntStart(j.n);
    }
  }

  /** What follows the first item in the printed text. */
  function AfterItem(items: seq<Json>, rest: string, ascii: bool): string
    requires items != []
  {
    if |items| == 1 then "]" + rest else "," + PrintItems(items[1..], ascii) + rest
  }

  lemma {:induction false} ParseItemsPrints(items: seq<Json>, rest: string, ascii: bool)
    requires items != []
    ensures ParseItems(PrintItems(items, ascii) + rest) == Parsed(items, rest)
    decreases items, 0
  {
    hide Print, PrintItems, Parse, ParseItems;
    ParsePrints(items[0], AfterItem(items, rest, ascii), ascii);
    if |items| > 1 {
      ParseItemsPrints(items[1..], rest, ascii);
    }
    ParseItemsOnce(items, rest, ascii);
  }

  lemma ParseItemsOnce(items: seq<Json>, rest: string, ascii: bool)
    requires items != []
    requires var tail := AfterItem(items, rest, ascii);
             Parse(Print(items[0], ascii) + tail) == Parsed(items[0], tail)
    requires |items| > 1 ==> ParseItems(PrintItems(items[1..], ascii) + rest) == Parsed(items[1..], rest)
    ensures ParseItems(PrintItems(items, ascii) + rest) == Parsed(items, rest)
  {
    hide *;
    var tail := AfterItem(items, rest, ascii);
    AfterItemShape(items, rest, ascii);
    PrintItemsText(items, rest, ascii);
    ParseItemsStep(PrintItems(items, ascii) + rest, items[0], tail, items[1..], rest);
    assert items == [items[0]] + items[1..];
  }

  lemma AfterItemShape(items: seq<Json>, rest: string, ascii: bool)
    requires items != []
    ensures var tail := AfterItem(items, rest, ascii);
            && tail != ""
            && (|items| == 1 ==> tail[0] == ']' && tail[1..] == rest)
            && (|items| > 1 ==> tail[0] == ',' && tail[1..] == PrintItems(items[1..], ascii) + rest)
  {
    hide PrintItems;
  }

  lemma ParseItemsStep(t: string, j: Json, tail: string, later: seq<Json>, rest: string)
    requires Parse(t) == Parsed(j, tail) && tail != ""
    requires if later == [] then tail[0] == ']' && tail[1..] == rest
             else tail[0] == ',' && ParseItems(tail[1..]) == Parsed(later, rest)
    ensures ParseItems(t) == Parsed([j] + later, rest)
  {
    hide Parse;
    if later == [] {
      assert [j] + later == [j];
    }
  }

  lemma PrintItemsText(items: seq<Json>, rest: string, ascii: bool)
    requires items != []
    ensures PrintItems(items, ascii) + rest == Print(items[0], ascii) + AfterItem(items, rest, ascii)
  {
    hide Print;
  }

  /** What follows the first member in the printed text. */
  function AfterFirst(members: seq<Member>, rest: string, ascii: bool): string
    requires members != []
  {
    if |members| == 1 then "}" + rest else "," + PrintMembers(members[1..], ascii) + rest
  }

  lemma {:induction false} ParseMembersPrints(members: seq<Member>, rest: string, ascii: bool)
    requires members != []
    ensures ParseMembers(PrintMembers(members, ascii) + rest) == Parsed(members, rest)
    decreases members, 0
  {
    hide Print, PrintMembers, Parse, ParseMembers;
    ParsePrints(members[0].value, AfterFirst(members, rest, ascii), ascii);
    if |members| > 1 {
      ParseMembersPrints(members[1..], rest, ascii);
    }
    ParseMembersOnce(members, rest, ascii);
  }

  lemma ParseMembersOnce(members: seq<Member>, rest: string, ascii: bool)
    requires members != []
    requires var tail := AfterFirst(members, rest, ascii);
             Parse(Print(members[0].value, ascii) + tail) == Parsed(members[0].value, tail)
    requires |members| > 1 ==> ParseMembers(PrintMembers(members[1..], ascii) + rest) == Parsed(members[1..], rest)
    ensures ParseMembers(PrintMembers(members, ascii) + rest) == Parsed(members, rest)
  {
    hide *;
    var tail := AfterFirst(members, rest, ascii);
    AfterFirstShape(members, rest, ascii);
    PrintMembersText(members, rest, ascii);
    ParseMemberPrints(members[0], tail, ascii);
    ParseMembersStep(PrintMembers(members, ascii) + rest, members[0], tail, members[1..], rest);
    assert members == [members[0]] + members[1..];
  }

  lemma AfterFirstShape(members: seq<Member>, rest: string, ascii: bool)
    requires members != []
    ensures var tail := AfterFirst(members, rest, ascii);
            && tail != ""
            && (|members| == 1 ==> tail[0] == '}' && tail[1..] == rest)
            && (|members| > 1 ==> tail[0] == ',' && tail[1..] == PrintMembers(members[1..], ascii) + rest)
  {
    hide PrintMembers;
  }

  lemma ParseMembersStep(t: string, m: Member, tail: string, later: seq<Member>, rest: string)
    requires ParseMember(t) == Parsed(m, tail) && tail != ""
    requires if later == [] then tail[0] == '}' && tail[1..] == rest
             else tail[0] == ',' && ParseMembers(tail[1..]) == Parsed(later, rest)
    ensures ParseMembers(t) == Parsed([m] + later, rest)
  {
    hide ParseMember;
    if later == [] {
      assert [m] + later == [m];
    }
  }

  lemma PrintMembersText(members: seq<Member>, rest: string, ascii: bool)
    requires members != []
    ensures PrintMembers(members, ascii) + rest
         == PrintString(members[0].key, ascii) + ":" + Print(members[0].value, ascii) + AfterFirst(members, rest, ascii)
  {
    hide PrintString, Print;
  }

  lemma ParseMemberPrints(m: Member, tail: string, ascii: bool)
    requires Parse(Print(m.value, ascii) + tail) == Parsed(m.value, tail)
    ensures ParseMember(PrintString(m.key, ascii) + ":" + Print(m.value, ascii) + tail) == Parsed(m, tail)
  {
    var rest := ":" + Print(m.value, ascii) + tail;
    assert PrintString(m.key, ascii) + ":" + Print(m.value, ascii) + tail == PrintString(m.key, ascii) + rest;
    ParseStringPrints(m.key, rest, ascii);
    assert rest[1..] == Print(m.value, ascii) + tail;
    hide Print, Parse, PrintString, ParseString;
  }

  lemma PrintInjective(a: Json, b: Json, ascii: bool)
    ensures Print(a, ascii) == Print(b, ascii) <==> a == b
  {
    ParsePrints(a, "", ascii);
    ParsePrints(b, "", ascii);
    assert Print(a, ascii) + "" == Print(a, ascii) && Print(b, ascii) + "" == Print(b, ascii);
  }

  // ---------- Which characters are written ----------

  /** No control characters, and with ascii nothing outside the printable ASCII range. */
  predicate Plain(t: string, ascii: bool) {
    forall i | 0 <= i < |t| :: t[i] as int >= 32 && (ascii ==> t[i] as int <= 126)
  }

  lemma EscapeCharPlain(c: char, ascii: bool)
    ensures Plain(EscapeChar(c, ascii), ascii)
  {
    var n := c as int;
    if n < 0x1_0000 {
      Hex4Plain(n, ascii);
    } else {
      Hex4Plain(0xD800 + (n - 0x1_0000) / 0x400, ascii);
      Hex4Plain(0xDC00 + (n - 0x1_0000) % 0x400, ascii);
    }
    hide Hex4;
  }

  lemma Hex4Plain(n: nat, ascii: bool)
    requires n < 0x1_0000
    ensures Plain(Hex4(n), ascii)
  {
  }

  lemma {:induction false} EscapeAllPlain(s: string, ascii: bool)
    ensures Plain(EscapeAll(s, ascii), ascii)
  {
    if s != "" {
      EscapeCharPlain(s[0], ascii);
      EscapeAllPlain(s[1..], ascii);
      hide EscapeChar;
    }
  }

  lemma PrintStringPlain(s: string, ascii: bool)
    ensures Plain(PrintString(s, ascii), ascii)
  {
    EscapeAllPlain(s, ascii);
    hide EscapeAll;
  }

  lemma PrintIntPlain(n: int, ascii: bool)
    ensures Plain(PrintInt(n), ascii)
  {
    PrintNatDigits(if n < 0 then -n else n);
    hide PrintNat, ValueOf;
    assert forall c: char | IsDigit(c) :: 48 <= c as int <= 57;
  }

  /** json.dumps writes no control character, and by default only printable ASCII. */
  lemma {:induction false} PrintPlain(j: Json, ascii: bool)
    ensures Plain(Print(j, ascii), ascii)
    decreases j, 1
  {
    match j
    case Int(n) =>
      PrintIntPlain(n, ascii);
      hide PrintInt;
    case Str(s) => PrintStringPlain(s, ascii);
    case Arr(items) =>
      if items != [] {
        PrintItemsPlain(items, ascii);
        hide PrintItems;
      }
    case Obj(members) =>
      if members != [] {
        PrintMembersPlain(members, ascii);
        hide PrintMembers;
      }
    case _ =>
  }

  lemma {:induction false} PrintItemsPlain(items: seq<Json>, ascii: bool)
    requires items != []
    ensures Plain(PrintItems(items, ascii), ascii)
    decreases items, 0
  {
    PrintPlain(items[0], ascii);
    hide Print;
    if |items| > 1 {
      PrintItemsPlain(items[1..], ascii);
    }
  }

  lemma {:induction false} PrintMembersPlain(members: seq<Member>, ascii: bool)
    requires members != []
    ensures Plain(PrintMembers(members, ascii), ascii)
    decreases members, 0
  {
    var m := members[0];
    var head := PrintString(m.key, ascii) + ":" + Print(m.value, ascii);
    PrintStringPlain(m.key, ascii);
    PrintPlain(m.value, ascii);
    if |members| > 1 {
      PrintMembersPlain(members[1..], ascii);
    }
    hide Print, PrintString;
    assert Plain(":", ascii) && Plain("}", ascii) && Plain(",", ascii);
    PlainConcat(PrintString(m.key, ascii), ":", ascii);
    PlainConcat(PrintString(m.key, ascii) + ":", Print(m.value, ascii), ascii);
    if |members| == 1 {
      assert PrintMembers(members, ascii) == head + "}";
      PlainConcat(head, "}", ascii);
    } else {
      var tail := PrintMembers(members[1..], ascii);
      assert PrintMembers(members, ascii) == head + ("," + tail);
      hide PrintMembers;
      PlainConcat(",", tail, ascii);
      PlainConcat(head, "," + tail, ascii);
    }
    hide Plain;
  }

  lemma PlainConcat(a: string, b: string, ascii: bool)
    requires Plain(a, ascii) && Plain(b, ascii)
    ensures Plain(a + b, ascii)
  {
  }
}

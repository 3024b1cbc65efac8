/** UTF-8 (RFC 3629) over Unicode scalar values, with the decoder that undoes it. */
module Utf8 {
  import opened Wrappers

  newtype byte = x: int | 0 <= x < 256

  function EncodeChar(c: char): (bs: seq<byte>)
    ensures 1 <= |bs| <= 4
  {
    var n := c as int;
    if n < 0x80 then [n as byte]
    else if n < 0x800 then [(0xC0 + n / 0x40) as byte, (0x80 + n % 0x40) as byte]
    else if n < 0x1_0000 then [(0xE0 + n / 0x1000) as byte, (0x80 + n / 0x40 % 0x40) as byte, (0x80 + n % 0x40) as byte]
    else [(0xF0 + n / 0x4_0000) as byte, (0x80 + n / 0x1000 % 0x40) as byte, (0x80 + n / 0x40 % 0x40) as byte,
          (0x80 + n % 0x40) as byte]
  }

  predicate Continues(b: byte) {
    0x80 <= b < 0xC0
  }

  /** The four byte patterns of RFC 3629, section 3. */
  lemma EncodedShape(c: char)
    ensures var bs := EncodeChar(c);
            && (c as int < 0x80 ==> bs == [c as byte])
            && (|bs| == 2 ==> 0xC2 <= bs[0] < 0xE0 && Continues(bs[1]))
            && (|bs| == 3 ==> 0xE0 <= bs[0] < 0xF0 && Continues(bs[1]) && Continues(bs[2]))
            && (|bs| == 4 ==> 0xF0 <= bs[0] < 0xF5 && Continues(bs[1]) && Continues(bs[2]) && Continues(bs[3]))
  {
  }

  function Encode(s: string): seq<byte> {
    if s == "" then [] else EncodeChar(s[0]) + Encode(s[1..])
  }

  predicate IsScalar(n: int) {
    0 <= n < 0xD800 || 0xE000 <= n < 0x11_0000
  }

  /** The value and width of the first encoded character. */
  function DecodeFirst(bs: seq<byte>): (int, nat)
    requires bs != []
  {
    var b := bs[0] as int;
    if b < 0x80 then (b, 1)
    else if b < 0xE0 && |bs| >= 2 then ((b - 0xC0) * 0x40 + (bs[1] as int - 0x80), 2)
    else if b < 0xF0 && |bs| >= 3 then ((b - 0xE0) * 0x1000 + (bs[1] as int - 0x80) * 0x40 + (bs[2] as int - 0x80), 3)
    else if |bs| >= 4
    then ((b - 0xF0) * 0x4_0000 + (bs[1] as int - 0x80) * 0x1000 + (bs[2] as int - 0x80) * 0x40 + (bs[3] as int - 0x80), 4)
    else (0, 1)
  }

  function Decode(bs: seq<byte>): Option<string>
    decreases |bs|
  {
    if bs == [] then Some("") else
      var (n, width) := DecodeFirst(bs);
      if !IsScalar(n) then None else
        match Decode(bs[width..])
        case None => None
        case Some(rest) => Some([n as char] + rest)
  }

  /** A number from its base-64 digits. */
  lemma Sextets(n: nat)
    ensures n == 0x40 * (n / 0x40) + n % 0x40
    ensures n / 0x40 == 0x40 * (n / 0x1000) + n / 0x40 % 0x40
    ensures n / 0x1000 == 0x40 * (n / 0x4_0000) + n / 0x1000 % 0x40
  {
  }

  lemma FirstCharDecodes(c: char, rest: seq<byte>)
    ensures DecodeFirst(EncodeChar(c) + rest) == (c as int, |EncodeChar(c)|)
  {
    var n, e := c as int, EncodeChar(c);
    Sextets(n);
    assert forall i | 0 <= i < |e| :: (e + rest)[i] == e[i];
    if n < 0x80 {
      assert e[0] as int == n;
    } else if n < 0x800 {
      assert e[0] as int == 0xC0 + n / 0x40 && e[1] as int == 0x80 + n % 0x40;
    } else if n < 0x1_0000 {
      assert e[0] as int == 0xE0 + n / 0x1000 && e[1] as int == 0x80 + n / 0x40 % 0x40;
      assert e[2] as int == 0x80 + n % 0x40;
    } else {
      assert e[0] as int == 0xF0 + n / 0x4_0000 && e[1] as int == 0x80 + n / 0x1000 % 0x40;
      assert e[2] as int == 0x80 + n / 0x40 % 0x40 && e[3] as int == 0x80 + n % 0x40;
    }
  }

  lemma {:induction false} DecodeUndoesEncode(s: string)
    ensures Decode(Encode(s)) == Some(s)
  {
    if s != "" {
      var head, tail := EncodeChar(s[0]), Encode(s[1..]);
      FirstCharDecodes(s[0], tail);
      assert Encode(s) == head + tail;
      assert (head + tail)[|head|..] == tail;
      DecodeUndoesEncode(s[1..]);
      assert IsScalar(s[0] as int);
      assert s == [s[0]] + s[1..];
    }
  }

  lemma EncodeInjective(s: string, t: string)
    ensures Encode(s) == Encode(t) <==> s == t
  {
    DecodeUndoesEncode(s);
    DecodeUndoesEncode(t);
  }

  lemma {:induction false} EncodeNotShorter(s: string)
    ensures |Encode(s)| >= |s|
  {
    if s != "" {
      EncodeNotShorter(s[1..]);
    }
  }
}

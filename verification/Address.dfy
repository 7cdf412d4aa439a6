/**
 Bluetooth device addresses and their text (bluetooth.c): six octets, sent last
 octet first, printed first octet first.
 */
module Address {
  import opened Octets

  type Bdaddr = b: seq<byte> | |b| == 6 witness [0, 0, 0, 0, 0, 0]

  const ANY: Bdaddr := [0, 0, 0, 0, 0, 0]

  // ----- hexadecimal digits -----

  predicate IsHex(c: char) {
    '0' <= c <= '9' || 'A' <= c <= 'F' || 'a' <= c <= 'f'
  }

  function Digit(n: nat): (c: char)
    requires n < 16
    ensures IsHex(c) && HexValue(c) == n
  {
    if n < 10 then ('0' as int + n) as char else ('A' as int + n - 10) as char
  }

  function HexValue(c: char): (n: nat)
    requires IsHex(c)
    ensures n < 16
  {
    if c <= '9' then c as int - '0' as int else if c <= 'F' then c as int - 'A' as int + 10
        else c as int - 'a' as int + 10
  }

  lemma {:induction false} HexDigits(c: char)
    ensures IsHex(c) <==> c in "0123456789ABCDEFabcdef"
    ensures IsHex(c) ==> var n := HexValue(c); c == "0123456789ABCDEF"[n] || c == "0123456789abcdef"[n]
  {
  }

  lemma {:induction false} DigitIs(n: nat)
    requires n < 16
    ensures Digit(n) == "0123456789ABCDEF"[n]
  {
  }

  function Upper(c: char): char {
    if 'a' <= c <= 'z' then (c as int - 32) as char else c
  }

  function UpperCase(s: string): (t: string)
    ensures |t| == |s| && forall i :: 0 <= i < |s| ==> t[i] == Upper(s[i])
  {
    seq(|s|, i requires 0 <= i < |s| => Upper(s[i]))
  }

  lemma DigitOfValue(c: char)
    requires IsHex(c)
    ensures Digit(HexValue(c)) == Upper(c)
  {
  }

  // ----- printing -----

  function Swap(b: Bdaddr): (r: Bdaddr)
    ensures forall i :: 0 <= i < 6 ==> r[i] == b[5 - i]
  {
    [b[5], b[4], b[3], b[2], b[1], b[0]]
  }

  /** "%2.2X:%2.2X:%2.2X:%2.2X:%2.2X:%2.2X". */
  function Text(b: Bdaddr): (s: string)
    ensures |s| == 17
  {
    Pair(b[0]) + ":" + Pair(b[1]) + ":" + Pair(b[2]) + ":" + Pair(b[3]) + ":" + Pair(b[4]) + ":" + Pair(b[5])
  }

  function Pair(x: byte): (s: string)
    ensures |s| == 2
  {
    [Digit(x / 16), Digit(x % 16)]
  }

  function BaToStr(b: Bdaddr): string { Text(b) }

  function Ba2Str(b: Bdaddr): string { Text(Swap(b)) }

  // ----- parsing -----

  /** Six pairs of hexadecimal digits between five colons. */
  predicate WellFormed(s: string) {
    |s| == 17 && forall i :: 0 <= i < 17 ==> if i % 3 == 2 then s[i] == ':' else IsHex(s[i])
  }

  lemma {:induction false} WellFormedIs(s: string)
    ensures WellFormed(s) <==>
            |s| == 17 && forall i :: 0 <= i < 17 ==>
                           if i % 3 == 2 then s[i] == ':' else s[i] in "0123456789ABCDEFabcdef"
  {
    forall i | 0 <= i < |s| ensures IsHex(s[i]) <==> s[i] in "0123456789ABCDEFabcdef" { HexDigits(s[i]); }
    hide IsHex;
  }

  /** strtol with base 16, of what starts with a digit: the value of the longest run of digits. */
  function StrToL(s: string, value: nat): nat {
    if s == [] || !IsHex(s[0]) then value else StrToL(s[1..], 16 * value + HexValue(s[0]))
  }

  function OctetAt(s: string, k: nat): byte
    requires WellFormed(s) && k < 6
  {
    16 * HexValue(s[3 * k]) + HexValue(s[3 * k + 1])
  }

  function Parsed(s: string): (b: Bdaddr)
    requires WellFormed(s)
    ensures forall k :: 0 <= k < 6 ==> b[k] == OctetAt(s, k)
  {
    [OctetAt(s, 0), OctetAt(s, 1), OctetAt(s, 2), OctetAt(s, 3), OctetAt(s, 4), OctetAt(s, 5)]
  }

  /** str2ba: what is not an address reads as all zeroes. */
  function Str2Ba(s: string): Bdaddr {
    if WellFormed(s) then Swap(Parsed(s)) else ANY
  }

  function StrToBa(s: string): Bdaddr { Swap(Str2Ba(s)) }

  /** After a pair the digits end, so strtol reads exactly the pair. */
  lemma {:induction false} PairOnly(s: string, k: nat)
    requires WellFormed(s) && k < 6
    ensures StrToL(s[3 * k..], 0) == OctetAt(s, k)
  {
    var t := s[3 * k..];
    assert t[0] == s[3 * k] && t[1] == s[3 * k + 1] && (k < 5 ==> t[2] == s[3 * k + 2] == ':');
    assert (3 * k) % 3 == 0 && (3 * k + 1) % 3 == 1;
    assert t[1..][1..] == t[2..];
    assert StrToL(t[2..], OctetAt(s, k)) == OctetAt(s, k);
    assert t[1..][0] == t[1];
    assert StrToL(t[1..], HexValue(t[0])) == StrToL(t[2..], 16 * HexValue(t[0]) + HexValue(t[1]));
  }

  lemma {:induction false} TextAt(b: Bdaddr, k: nat)
    requires k < 6
    ensures Text(b)[3 * k] == Digit(b[k] / 16) && Text(b)[3 * k + 1] == Digit(b[k] % 16)
            && (k < 5 ==> Text(b)[3 * k + 2] == ':')
  {
    assert k == 0 || k == 1 || k == 2 || k == 3 || k == 4 || k == 5;
  }

  lemma {:induction false} TextIsWellFormed(b: Bdaddr)
    ensures WellFormed(Text(b))
  {
    forall i | 0 <= i < 17 ensures if i % 3 == 2 then Text(b)[i] == ':' else IsHex(Text(b)[i]) {
      TextAt(b, i / 3);
      assert i == 3 * (i / 3) + i % 3;
      hide Text;
    }
  }

  lemma {:induction false} ParsedText(b: Bdaddr)
    ensures WellFormed(Text(b)) && Parsed(Text(b)) == b
  {
    TextIsWellFormed(b);
    forall k | 0 <= k < 6 ensures OctetAt(Text(b), k) == b[k] { TextAt(b, k); }
  }

  lemma {:induction false} TextParsed(s: string)
    requires WellFormed(s)
    ensures Text(Parsed(s)) == UpperCase(s)
  {
    assert |s| == 17;
    hide Text, Parsed, Upper, OctetAt, WellFormed, Digit;
    forall i | 0 <= i < 17 ensures Text(Parsed(s))[i] == UpperCase(s)[i] {
      TextParsedAt(s, i / 3);
      assert i == 3 * (i / 3) || i == 3 * (i / 3) + 1 || (i == 3 * (i / 3) + 2 && i / 3 < 5);
    }
  }

  lemma {:induction false} TextParsedAt(s: string, k: nat)
    requires WellFormed(s) && k < 6
    ensures Text(Parsed(s))[3 * k] == Upper(s[3 * k]) && Text(Parsed(s))[3 * k + 1] == Upper(s[3 * k + 1])
    ensures k < 5 ==> Text(Parsed(s))[3 * k + 2] == Upper(s[3 * k + 2])
  {
    hide Text, Parsed, Upper, OctetAt, WellFormed, Digit;
    TextAt(Parsed(s), k);
    OctetDigits(s, k);
  }

  lemma {:induction false} OctetDigits(s: string, k: nat)
    requires WellFormed(s) && k < 6
    ensures Digit(OctetAt(s, k) / 16) == Upper(s[3 * k]) && Digit(OctetAt(s, k) % 16) == Upper(s[3 * k + 1])
    ensures k < 5 ==> Upper(s[3 * k + 2]) == ':'
  {
    assert (3 * k) % 3 == 0 && (3 * k + 1) % 3 == 1 && (3 * k + 2) % 3 == 2;
    DigitOfValue(s[3 * k]);
    DigitOfValue(s[3 * k + 1]);
    hide Digit, HexValue;
    var h, l := HexValue(s[3 * k]), HexValue(s[3 * k + 1]);
    assert OctetAt(s, k) / 16 == h && OctetAt(s, k) % 16 == l;
  }

  /** ba2str prints the last octet first, batostr the first one, each as two upper-case digits. */
  lemma {:induction false} PrintedOctets(b: Bdaddr, k: nat)
    requires k < 6
    ensures var s, t := Ba2Str(b), BaToStr(b);
            && |s| == |t| == 17 && (k < 5 ==> s[3 * k + 2] == t[3 * k + 2] == ':')
            && s[3 * k] == "0123456789ABCDEF"[b[5 - k] / 16] && s[3 * k + 1] == "0123456789ABCDEF"[b[5 - k] % 16]
            && t[3 * k] == "0123456789ABCDEF"[b[k] / 16] && t[3 * k + 1] == "0123456789ABCDEF"[b[k] % 16]
  {
    hide Text, Digit;
    TextAt(Swap(b), k);
    TextAt(b, k);
    DigitIs(b[k] / 16);
    DigitIs(b[k] % 16);
    DigitIs(b[5 - k] / 16);
    DigitIs(b[5 - k] % 16);
  }

  /** Parsing undoes printing, with either octet order. */
  lemma {:induction false} ParseUndoesPrint(b: Bdaddr)
    ensures WellFormed(Ba2Str(b)) && Str2Ba(Ba2Str(b)) == b
    ensures WellFormed(BaToStr(b)) && StrToBa(BaToStr(b)) == b
  {
    ParsedText(Swap(b));
    ParsedText(b);
    hide Text, Parsed;
    assert Swap(Swap(b)) == b;
  }

  /** Printing what was parsed gives the upper-case text, or the null address if the text was none. */
  lemma {:induction false} PrintNormalizes(s: string)
    ensures Ba2Str(Str2Ba(s)) == if WellFormed(s) then UpperCase(s) else "00:00:00:00:00:00"
  {
    if WellFormed(s) {
      TextParsed(s);
      hide Text, Parsed, UpperCase;
      assert Swap(Swap(Parsed(s))) == Parsed(s);
    }
  }

  /** Two addresses in text are the same device exactly if they differ in case only. */
  lemma {:induction false} SameAddress(s: string, t: string)
    requires WellFormed(s) && WellFormed(t)
    ensures Str2Ba(s) == Str2Ba(t) <==> UpperCase(s) == UpperCase(t)
  {
    PrintNormalizes(s);
    PrintNormalizes(t);
    hide Ba2Str, UpperCase;
    if UpperCase(s) == UpperCase(t) {
      ParseUndoesPrint(Str2Ba(s));
      ParseUndoesPrint(Str2Ba(t));
    }
  }

  // ----- the loops -----

  /** baswap; when both arguments are one object only its second half survives. */
  method Baswap(dst: array<byte>, src: array<byte>)
    requires dst.Length == 6 && src.Length == 6
    modifies dst
    ensures dst != src ==> dst[..] == Swap(old(src[..]))
    ensures dst == src ==> forall i :: 0 <= i < 6 ==> dst[i] == old(src[if i < 3 then 5 - i else i])
  {
    var i := 0;
    while i < 6
      invariant 0 <= i <= 6
      invariant forall j :: 0 <= j < i ==> dst[j] == old(src[if dst == src && j >= 3 then j else 5 - j])
      invariant forall j :: i <= j < 6 ==> dst[j] == old(dst[j])
      invariant dst != src ==> src[..] == old(src[..])
    {
      dst[i] := src[5 - i];
      i := i + 1;
    }
  }

  /** The octet at a position of a C string; its end reads as NUL. */
  function CharAt(s: string, i: nat): char {
    if i < |s| then s[i] else '\0'
  }

  /** bachk. */
  method Bachk(str: Option<string>) returns (r: int)
    requires str.Some? ==> '\0' !in str.value
    ensures r == if str.Some? && WellFormed(str.value) then 0 else -1
  {
    if str.None? || |str.value| != 17 { return -1; }
    var s, i := str.value, 0;
    while CharAt(s, i) != '\0'
      invariant 0 <= i <= 15 && i % 3 == 0
      invariant forall j :: 0 <= j < i ==> if j % 3 == 2 then s[j] == ':' else IsHex(s[j])
      decreases 17 - i
    {
      if !IsHex(CharAt(s, i)) { return -1; }
      i := i + 1;
      if !IsHex(CharAt(s, i)) { return -1; }
      i := i + 1;
      if CharAt(s, i) == '\0' { break; }
      if CharAt(s, i) != ':' { return -1; }
      i := i + 1;
    }
    return 0;
  }

  /** str2ba. */
  method ReadAddress(str: string, ba: array<byte>) returns (r: int)
    requires ba.Length == 6 && '\0' !in str
    modifies ba
    ensures ba[..] == Str2Ba(str) && r == if WellFormed(str) then 0 else -1
  {
    r := Bachk(Some(str));
    if r < 0 {
      forall i | 0 <= i < 6 { ba[i] := 0; }
      assert ba[..] == ANY;
      return;
    }
    var b := new byte[6];
    var i := 0;
    while i < 6
      invariant 0 <= i <= 6 && forall j :: 0 <= j < i ==> b[j] == OctetAt(str, j)
      invariant fresh(b)
    {
      PairOnly(str, i);
      b[i] := StrToL(str[3 * i..], 0);
      i := i + 1;
    }
    assert b[..] == Parsed(str);
    Baswap(ba, b);
  }
}

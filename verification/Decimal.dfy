/** Decimal numbers as text: what printf writes and strtoull, strtoul, atoi and sscanf read. */
module Decimal {

  const ULL_MAX: nat := 0xFFFF_FFFF_FFFF_FFFF
  const LONG_MAX: int := 0x7FFF_FFFF_FFFF_FFFF

  predicate IsDigit(c: char) {
    '0' <= c <= '9'
  }

  function DigitChar(d: nat): (c: char)
    requires d < 10
    ensures IsDigit(c) && c as int - '0' as int == d
  {
    (d + '0' as int) as char
  }

  function Print(n: nat): (s: string)
    ensures s != "" && forall c :: c in s ==> IsDigit(c)
  {
    if n < 10 then [DigitChar(n)] else Print(n / 10) + [DigitChar(n % 10)]
  }

  /** The decimal value of digits. */
  function Value(s: string): nat
    requires forall c :: c in s ==> IsDigit(c)
  {
    if s == "" then 0
    else
      assert IsDigit(s[|s| - 1]);
      10 * Value(s[..|s| - 1]) + (s[|s| - 1] as int - '0' as int)
  }

  lemma {:induction false} PrintValue(n: nat)
    ensures Value(Print(n)) == n
  {
    var s := Print(n);
    if n >= 10 {
      PrintValue(n / 10);
      assert s[..|s| - 1] == Print(n / 10);
    } else {
      assert s[..0] == "";
    }
  }

  function PrintInt(n: int): string {
    if n >= 0 then Print(n) else "-" + Print(-n)
  }

  function Pow10(n: nat): (p: nat)
    ensures p > 0
  {
    if n == 0 then 1 else 10 * Pow10(n - 1)
  }

  /** A number below ten to the k has at most k digits. */
  lemma {:induction false} PrintShort(n: nat, k: nat)
    requires k > 0 && n < Pow10(k)
    ensures |Print(n)| <= k
  {
    if n >= 10 {
      assert Pow10(1) == 10;
      PrintShort(n / 10, k - 1);
    }
  }

  /** How many characters at the front are digits. */
  function Digits(s: string): (n: nat)
    ensures n <= |s| && (n < |s| ==> !IsDigit(s[n]))
    ensures forall c :: c in s[..n] ==> IsDigit(c)
  {
    if s == "" || !IsDigit(s[0]) then 0 else 1 + Digits(s[1..])
  }

  predicate IsBlank(c: char) {
    c == ' ' || '\t' <= c <= '\r'
  }

  function SkipBlanks(s: string): (r: string)
    ensures |r| <= |s|
  {
    if s != "" && IsBlank(s[0]) then SkipBlanks(s[1..]) else s
  }

  // A number with an optional sign after blanks; no digits at all is no number.
  datatype Read = Read(negative: bool, magnitude: nat, rest: string) | NoNumber

  function ReadNumber(s: string): Read {
    var t := SkipBlanks(s);
    var signed := t != "" && t[0] in "+-";
    var d := if signed then t[1..] else t;
    var n := Digits(d);
    if n == 0 then NoNumber else Read(signed && t[0] == '-', Value(d[..n]), d[n..])
  }

  /** strtoull in base ten; strtoul is the same on 64 bits. */
  function StrToUll(s: string): (v: nat)
    ensures v <= ULL_MAX
  {
    match ReadNumber(s)
    case NoNumber => 0
    case Read(negative, m, _) =>
      if m > ULL_MAX then ULL_MAX else if negative && m > 0 then ULL_MAX + 1 - m else m
  }

  function Wrap32(v: int): (r: int)
    ensures -0x8000_0000 <= r < 0x8000_0000
  {
    (v + 0x8000_0000) % 0x1_0000_0000 - 0x8000_0000
  }

  /** strtol, cut to 32 bits. */
  function Atoi(s: string): int {
    match ReadNumber(s)
    case NoNumber => 0
    case Read(negative, m, _) =>
      var v := if negative then 0 - m as int else m as int;
      Wrap32(if v > LONG_MAX then LONG_MAX else if v + LONG_MAX < -1 then -1 - LONG_MAX as int else v)
  }

  lemma {:induction false} DigitsOfAll(s: string)
    requires forall c :: c in s ==> IsDigit(c)
    ensures Digits(s) == |s|
  {
    if s != "" {
      DigitsOfAll(s[1..]);
    }
  }

  lemma ReadAll(s: string)
    requires s != "" && forall c :: c in s ==> IsDigit(c)
    ensures ReadNumber(s) == Read(false, Value(s), "")
  {
    DigitsOfAll(s);
    assert s[0] in s;
    assert s[..|s|] == s;
  }

  /** Printed numbers are read back. */
  lemma PrintRead(n: nat)
    ensures ReadNumber(Print(n)) == Read(false, n, "")
    ensures n <= ULL_MAX ==> StrToUll(Print(n)) == n
    ensures n < 0x8000_0000 ==> Atoi(Print(n)) == n
  {
    hide Print, Value, ReadNumber;
    ReadAll(Print(n));
    PrintValue(n);
  }

  lemma ReadMinus(s: string)
    requires s != "" && forall c :: c in s ==> IsDigit(c)
    ensures ReadNumber("-" + s) == Read(true, Value(s), "")
  {
    hide Value;
    DigitsOfAll(s);
    var t := "-" + s;
    assert SkipBlanks(t) == t && t[1..] == s && s[..|s|] == s && s[|s|..] == "";
  }

  /** So are printed integers. */
  lemma PrintIntRead(n: int)
    requires -0x8000_0000 <= n < 0x8000_0000
    ensures Atoi(PrintInt(n)) == n
  {
    hide Print, Value, ReadNumber;
    if n < 0 {
      ReadMinus(Print(-n));
      PrintValue(-n);
    } else {
      PrintRead(n);
    }
  }
}

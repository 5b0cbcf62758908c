/** Version texts: normalised for display, and compared by their numbers. */
module Version {
  import opened Decimal

  // --- scanning "%d.%d.%d" ---

  datatype Number = Number(value: int, rest: string) | NoInt

  function ScanInt(s: string): Number {
    match ReadNumber(s)
    case NoNumber => NoInt
    case Read(negative, magnitude, rest) => Number(if negative then 0 - magnitude as int else magnitude as int, rest)
  }

  // How many numbers were scanned, and which; the others are zero.
  datatype Scanned = Scanned(matched: nat, a: int, b: int, c: int)

  function ScanDot(s: string): Number {
    if s != "" && s[0] == '.' then ScanInt(s[1..]) else NoInt
  }

  function Scan(s: string): Scanned {
    match ScanInt(s)
    case NoInt => Scanned(0, 0, 0, 0)
    case Number(a, r) =>
      match ScanDot(r)
      case NoInt => Scanned(1, a, 0, 0)
      case Number(b, r') =>
        match ScanDot(r')
        case NoInt => Scanned(2, a, b, 0)
        case Number(c, _) => Scanned(3, a, b, c)
  }

  function SkipPrefix(s: string): (r: string)
    ensures |r| <= |s| && (r != "" ==> r[0] != 'v' && r[0] != 'V' && !IsBlank(r[0]))
  {
    if s != "" && (s[0] == 'v' || s[0] == 'V' || IsBlank(s[0])) then SkipPrefix(s[1..]) else s
  }

  // --- parsing ---

  datatype Parts = Parts(major: int, minor: int, patch: int)

  /** parse_version_parts. */
  function Parse(v: string): Parts {
    var s := Scan(SkipPrefix(v));
    if s.matched == 3 && s.b == 0 && s.c > 0 then Parts(s.a, s.c, 0) else Parts(s.a, s.b, s.c)
  }

  /** app_info_compare_versions. */
  function Compare(x: string, y: string): int {
    var p, q := Parse(x), Parse(y);
    if p.major != q.major then p.major - q.major
    else if p.minor != q.minor then p.minor - q.minor
    else p.patch - q.patch
  }

  // --- normalising ---

  /** A number with at least two digits. */
  function Pad2(n: int): string {
    if 0 <= n < 10 then "0" + Print(n) else PrintInt(n)
  }

  /** The character at i, the text being ended by a NUL. */
  function At(s: string, i: nat): char {
    if i < |s| then s[i] else '\0'
  }

  function Shown(in_: string): string
    requires in_ != ""
  {
    var s := Scan(in_);
    if s.matched == 3 then
      if s.b == 0 && s.c > 0 then "v" + PrintInt(s.a) + "." + Pad2(s.c)
      else if s.c == 0 then "v" + PrintInt(s.a) + "." + Pad2(s.b)
      else "v" + PrintInt(s.a) + "." + PrintInt(s.b) + "." + PrintInt(s.c)
    else if s.matched == 2 then
      if in_[0] == '0' || (At(in_, 1) != '.' && At(in_, 1) != '\0' && At(in_, 2) == '.')
      then "v" + Pad2(s.a) + "." + Pad2(s.b)
      else "v" + PrintInt(s.a) + "." + Pad2(s.b)
    else if s.matched == 1 then "v" + PrintInt(s.a) + ".00"
    else "v" + in_
  }

  // What the normaliser would write into a buffer without limit.
  function Full(v: string): string {
    if v == "" then "" else if SkipPrefix(v) == "" then "v1.00" else Shown(SkipPrefix(v))
  }

  /** app_info_normalize_version, for an output buffer of the given size. */
  function Normalize(v: string, size: nat): string
    requires size > 0
  {
    if |Full(v)| < size then Full(v) else Full(v)[..size - 1]
  }

  // --- the program ---

  /** What is printed, by how many numbers were scanned; it has the same numbers. */
  method FormatVersion(in_: string) returns (text: string)
    requires in_ != "" && SkipPrefix(in_) == in_
    ensures text == Shown(in_) && Parse(text) == Parse(in_)
  {
    hide Scan, PrintInt, Pad2;
    ShownKeeps(in_);
    ScannedZeros(in_);
    var s := Scan(in_);
    if s.matched == 3 {
      if s.b == 0 && s.c > 0 {
        text := "v" + PrintInt(s.a) + "." + Pad2(s.c);
      } else if s.c == 0 {
        text := "v" + PrintInt(s.a) + "." + Pad2(s.b);
      } else {
        text := "v" + PrintInt(s.a) + "." + PrintInt(s.b) + "." + PrintInt(s.c);
      }
    } else if s.matched == 2 {
      if in_[0] == '0' || (At(in_, 1) != '.' && At(in_, 1) != '\0' && At(in_, 2) == '.') {
        text := "v" + Pad2(s.a) + "." + Pad2(s.b);
      } else {
        text := "v" + PrintInt(s.a) + "." + Pad2(s.b);
      }
    } else if s.matched == 1 {
      text := "v" + PrintInt(s.a) + ".00";
    } else {
      text := "v" + in_;
    }
  }

  /** app_info_normalize_version. */
  method NormalizeVersion(v: string, size: nat) returns (out: string)
    requires size > 0
    ensures out == Normalize(v, size) && |out| < size
    ensures |Full(v)| < size ==> (Parse(out) == Parse(v) <==> !OnlyPrefix(v))
  {
    hide Parse, Shown;
    if |Full(v)| < size {
      NormalizeKeeps(v, size);
    }
    if v == "" {
      return "";
    }
    var i := 0;
    while i < |v| && (v[i] == 'v' || v[i] == 'V' || IsBlank(v[i]))
      invariant i <= |v| && SkipPrefix(v[i..]) == SkipPrefix(v)
    {
      assert v[i..][1..] == v[i + 1..];
      i := i + 1;
    }
    var text := "v1.00";
    if i < |v| {
      text := FormatVersion(v[i..]);
    }
    out := if |text| < size then text else text[..size - 1];
  }

  method ParseParts(v: string) returns (p: Parts)
    ensures p == Parse(v)
  {
    hide Scan;
    var i := 0;
    while i < |v| && (v[i] == 'v' || v[i] == 'V' || IsBlank(v[i]))
      invariant i <= |v| && SkipPrefix(v[i..]) == SkipPrefix(v)
    {
      assert v[i..][1..] == v[i + 1..];
      i := i + 1;
    }
    p := Parts(0, 0, 0);
    if i == |v| {
      NothingScanned();
      return;
    }
    ScannedZeros(v[i..]);
    var s := Scan(v[i..]);
    if s.matched == 3 {
      p := if s.b == 0 && s.c > 0 then Parts(s.a, s.c, 0) else Parts(s.a, s.b, s.c);
    } else if s.matched == 2 {
      p := Parts(s.a, s.b, 0);
    } else if s.matched == 1 {
      p := Parts(s.a, 0, 0);
    }
  }

  lemma NothingScanned()
    ensures Scan("") == Scanned(0, 0, 0, 0)
  {
  }

  lemma ScannedZeros(s: string)
    ensures var r := Scan(s);
      && r.matched <= 3 && (r.matched < 3 ==> r.c == 0) && (r.matched < 2 ==> r.b == 0) && (r.matched == 0 ==> r.a == 0)
  {
  }

  // --- normalising keeps the numbers ---

  lemma {:induction false} DigitsThen(s: string, rest: string)
    requires (forall c :: c in s ==> IsDigit(c)) && (rest == "" || !IsDigit(rest[0]))
    ensures Digits(s + rest) == |s|
  {
    if s == "" {
      assert s + rest == rest;
    } else {
      assert (s + rest)[1..] == s[1..] + rest;
      assert s[0] in s;
      DigitsThen(s[1..], rest);
    }
  }

  // Nothing that a number could go on with.
  predicate Ends(rest: string) {
    rest == "" || rest[0] == '.'
  }

  lemma ReadUnsigned(u: string)
    requires u != "" && IsDigit(u[0])
    ensures Digits(u) > 0 && ReadNumber(u) == Read(false, Value(u[..Digits(u)]), u[Digits(u)..])
  {
    hide Value;
    assert SkipBlanks(u) == u;
  }

  lemma ReadNegative(u: string)
    requires u != "" && IsDigit(u[0])
    ensures Digits(u) > 0 && ReadNumber("-" + u) == Read(true, Value(u[..Digits(u)]), u[Digits(u)..])
  {
    hide Value;
    var t := "-" + u;
    assert SkipBlanks(t) == t && t[1..] == u;
  }

  lemma ReadDigits(s: string, rest: string)
    requires s != "" && (forall c :: c in s ==> IsDigit(c)) && Ends(rest)
    ensures ReadNumber(s + rest) == Read(false, Value(s), rest)
    ensures ReadNumber("-" + s + rest) == Read(true, Value(s), rest)
  {
    hide Value, ReadNumber, Digits;
    DigitsThen(s, rest);
    var u := s + rest;
    assert s[0] in s && u[0] == s[0];
    assert u[..|s|] == s && u[|s|..] == rest;
    ReadUnsigned(u);
    ReadNegative(u);
    assert "-" + s + rest == "-" + u;
  }

  lemma PaddedValue(n: nat)
    requires n < 10
    ensures Value("0" + Print(n)) == n && forall c :: c in "0" + Print(n) ==> IsDigit(c)
  {
    PrintValue(n);
    var s := "0" + Print(n);
    assert s[..1] == "0" && "0"[..0] == "";
  }

  /** A printed number, padded or not, is scanned back. */
  lemma ScanPrinted(n: int, rest: string)
    requires Ends(rest)
    ensures ScanInt(PrintInt(n) + rest) == Number(n, rest) && ScanInt(Pad2(n) + rest) == Number(n, rest)
  {
    hide Print, Value, ReadNumber;
    var m: nat := if n < 0 then -n else n;
    PrintValue(m);
    ReadDigits(Print(m), rest);
    if n < 0 {
      assert PrintInt(n) + rest == "-" + Print(m) + rest;
    }
    if 0 <= n < 10 {
      PaddedValue(n);
      ReadDigits("0" + Print(n), rest);
    }
  }

  // How a number begins when printed.
  lemma PrintedStart(n: int, rest: string)
    ensures var s, t := "v" + PrintInt(n) + rest, "v" + Pad2(n) + rest;
      SkipPrefix(s) == PrintInt(n) + rest && SkipPrefix(t) == Pad2(n) + rest
  {
    var m: nat := if n < 0 then -n else n;
    assert Print(m)[0] in Print(m);
    NumberStart(PrintInt(n), rest);
    NumberStart(Pad2(n), rest);
  }

  lemma NumberStart(s: string, rest: string)
    requires s != "" && (s[0] == '-' || IsDigit(s[0]))
    ensures SkipPrefix("v" + s + rest) == s + rest
  {
    var t := "v" + s + rest;
    assert t[1..] == s + rest && (s + rest)[0] == s[0];
  }

  lemma ScanTwo(a: int, b: int, first: string)
    requires first == PrintInt(a) || first == Pad2(a)
    ensures Scan(first + ("." + Pad2(b))) == Scanned(2, a, b, 0)
  {
    hide PrintInt, Pad2, ReadNumber;
    ScanPrinted(a, "." + Pad2(b));
    ScanPrinted(b, "");
    assert Pad2(b) + "" == Pad2(b);
    assert ("." + Pad2(b))[1..] == Pad2(b);
  }

  lemma ScanThree(a: int, b: int, c: int)
    ensures Scan(PrintInt(a) + ("." + (PrintInt(b) + ("." + PrintInt(c))))) == Scanned(3, a, b, c)
  {
    hide PrintInt, ReadNumber;
    var t := "." + PrintInt(c);
    var u := "." + (PrintInt(b) + t);
    ScanPrinted(a, u);
    ScanPrinted(b, t);
    ScanPrinted(c, "");
    assert PrintInt(c) + "" == PrintInt(c);
    assert t[1..] == PrintInt(c) && u[1..] == PrintInt(b) + t;
  }

  lemma ShownTwo(a: int, b: int, first: string)
    requires first == PrintInt(a) || first == Pad2(a)
    ensures Parse("v" + first + "." + Pad2(b)) == Parts(a, b, 0)
  {
    hide PrintInt, Pad2, Scan;
    PrintedStart(a, "." + Pad2(b));
    ScanTwo(a, b, first);
    assert "v" + first + "." + Pad2(b) == "v" + first + ("." + Pad2(b));
  }

  lemma ShownThree(a: int, b: int, c: int)
    requires b != 0 || c <= 0
    ensures Parse("v" + PrintInt(a) + "." + PrintInt(b) + "." + PrintInt(c)) == Parts(a, b, c)
  {
    hide PrintInt, Scan;
    var rest := "." + (PrintInt(b) + ("." + PrintInt(c)));
    PrintedStart(a, rest);
    ScanThree(a, b, c);
    assert "v" + PrintInt(a) + "." + PrintInt(b) + "." + PrintInt(c) == "v" + PrintInt(a) + rest;
  }

  lemma ShownKeeps(in_: string)
    requires in_ != "" && SkipPrefix(in_) == in_
    ensures Parse(Shown(in_)) == Parse(in_)
  {
    hide PrintInt, Pad2, Scan;
    ScannedZeros(in_);
    var s := Scan(in_);
    if s.matched == 3 {
      if s.b == 0 && s.c > 0 {
        ShownTwo(s.a, s.c, PrintInt(s.a));
      } else if s.c == 0 {
        ShownTwo(s.a, s.b, PrintInt(s.a));
      } else {
        ShownThree(s.a, s.b, s.c);
      }
    } else if s.matched == 2 {
      ShownTwo(s.a, s.b, Pad2(s.a));
      ShownTwo(s.a, s.b, PrintInt(s.a));
    } else if s.matched == 1 {
      ShownTwo(s.a, 0, PrintInt(s.a));
      ZeroPadded();
      assert "v" + PrintInt(s.a) + "." + "00" == "v" + PrintInt(s.a) + ".00";
    } else {
      assert ("v" + in_)[1..] == in_;
      assert SkipPrefix("v" + in_) == in_;
    }
  }

  lemma ZeroPadded()
    ensures Pad2(0) == "00"
  {
    assert Print(0) == "0";
  }

  lemma {:induction false} SkipTwice(v: string)
    ensures SkipPrefix(SkipPrefix(v)) == SkipPrefix(v)
  {
    if v != "" && (v[0] == 'v' || v[0] == 'V' || IsBlank(v[0])) {
      SkipTwice(v[1..]);
    }
  }

  // A version that is nothing but prefix.
  predicate OnlyPrefix(v: string) {
    v != "" && SkipPrefix(v) == ""
  }

  /** Exactly the versions that are nothing but prefix change their numbers when they are normalised. */
  lemma NormalizeKeeps(v: string, size: nat)
    requires |Full(v)| < size
    ensures Parse(Normalize(v, size)) == Parse(v) <==> !OnlyPrefix(v)
  {
    hide Shown;
    SkipTwice(v);
    if OnlyPrefix(v) {
      OneZero();
      NothingScanned();
    } else if v != "" {
      ShownKeeps(SkipPrefix(v));
    }
  }

  lemma OneZero()
    ensures Parse("v1.00") == Parts(1, 0, 0)
  {
    assert PrintInt(1) == "1";
    ZeroPadded();
    ShownTwo(1, 0, PrintInt(1));
    assert "v" + "1" + "." + "00" == "v1.00";
  }

  /** A version that is nothing but prefix becomes the first version. */
  lemma PrefixBecomesOne()
    ensures Normalize("v", 6) == "v1.00" && Parse("v") == Parts(0, 0, 0) && Parse("v1.00") == Parts(1, 0, 0)
  {
    NothingScanned();
    OneZero();
    assert SkipPrefix("v") == "" by { assert "v"[1..] == ""; }
  }

  function Sign(n: int): int {
    if n < 0 then -1 else if n > 0 then 1 else 0
  }

  /** Normalising one version or both changes no comparison. */
  lemma OrderKept(x: string, y: string, size: nat)
    requires |Full(x)| < size && |Full(y)| < size && !OnlyPrefix(x) && !OnlyPrefix(y)
    ensures Compare(Normalize(x, size), Normalize(y, size)) == Compare(x, y)
    ensures Compare(Normalize(x, size), y) == Compare(x, y) && Compare(x, Normalize(y, size)) == Compare(x, y)
  {
    hide Parse, Normalize, Full, OnlyPrefix;
    NormalizeKeeps(x, size);
    NormalizeKeeps(y, size);
  }

  // Components as an int holds them, without a sign, so that their differences fit too.
  predicate Unsigned(v: string) {
    var p := Parse(v);
    0 <= p.major < 0x8000_0000 && 0 <= p.minor < 0x8000_0000 && 0 <= p.patch < 0x8000_0000
  }

  /** The comparison is a total preorder, and its differences fit the result's type. */
  lemma TotalPreorder(x: string, y: string, z: string)
    ensures Compare(x, x) == 0 && Sign(Compare(x, y)) == -Sign(Compare(y, x))
    ensures Compare(x, y) <= 0 && Compare(y, z) <= 0 ==> Compare(x, z) <= 0
    ensures Unsigned(x) && Unsigned(y) ==> -0x8000_0000 < Compare(x, y) < 0x8000_0000
  {
    hide Parse;
  }
}

/** What version texts of one, two or three numbers parse to, how they compare, and how they are shown. */
module VersionTexts {
  import opened Decimal
  import opened Version

  // --- decimal numbers ---

  /** A number's last digit is its units. */
  lemma PrintedUnits(n: nat, d: nat)
    requires d < 10
    ensures Print(d) == [("0123456789")[d]]
    ensures n > 0 ==> Print(10 * n + d) == Print(n) + [("0123456789")[d]]
  {
  }

  // --- texts of numbers ---

  function One(a: int): string {
    PrintInt(a)
  }

  function Two(a: int, b: int): string {
    PrintInt(a) + ("." + PrintInt(b))
  }

  function Three(a: int, b: int, c: int): string {
    PrintInt(a) + ("." + (PrintInt(b) + ("." + PrintInt(c))))
  }

  lemma Starts(a: int, rest: string)
    ensures PrintInt(a) != "" && SkipPrefix(PrintInt(a) + rest) == PrintInt(a) + rest
  {
    var m: nat := if a < 0 then -a else a;
    PrintValue(m);
    assert Print(m)[0] in Print(m);
    assert (PrintInt(a) + rest)[0] == PrintInt(a)[0];
  }

  lemma ScanOne(a: int)
    ensures Scan(One(a)) == Scanned(1, a, 0, 0) && SkipPrefix(One(a)) == One(a) != ""
  {
    hide PrintInt, ReadNumber;
    ScanPrinted(a, "");
    Starts(a, "");
    assert PrintInt(a) + "" == PrintInt(a);
  }

  lemma ScanBoth(a: int, b: int)
    ensures Scan(Two(a, b)) == Scanned(2, a, b, 0) && SkipPrefix(Two(a, b)) == Two(a, b) != ""
  {
    hide PrintInt, ReadNumber;
    ScanPrinted(a, "." + PrintInt(b));
    ScanPrinted(b, "");
    Starts(a, "." + PrintInt(b));
    assert PrintInt(b) + "" == PrintInt(b) && ("." + PrintInt(b))[1..] == PrintInt(b);
  }

  lemma ScanAll(a: int, b: int, c: int)
    ensures Scan(Three(a, b, c)) == Scanned(3, a, b, c) && SkipPrefix(Three(a, b, c)) == Three(a, b, c) != ""
  {
    hide PrintInt, ReadNumber;
    ScanThree(a, b, c);
    Starts(a, "." + (PrintInt(b) + ("." + PrintInt(c))));
  }

  /** The numbers count as they stand, except that a third one moves up behind a zero. */
  lemma ParsedNumbers(a: int, b: int, c: int)
    ensures Parse(One(a)) == Parts(a, 0, 0) && Parse(Two(a, b)) == Parts(a, b, 0)
    ensures Parse(Three(a, b, c)) == if b == 0 && c > 0 then Parts(a, c, 0) else Parts(a, b, c)
  {
    hide PrintInt, Scan, One, Two, Three;
    ScanOne(a);
    ScanBoth(a, b);
    ScanAll(a, b, c);
  }

  /** What comes before the numbers, of these characters, does not count. */
  lemma PrefixIgnored(c: char, v: string)
    requires c == 'v' || c == 'V' || c == ' ' || c == '\t' || c == '\n' || c == '\r'
    ensures Parse([c] + v) == Parse(v)
  {
    assert ([c] + v)[1..] == v;
  }

  // --- which is the later version ---

  /** Versions of two numbers compare by the first, then by the second. */
  lemma LaterTwo(a: int, b: int, c: int, d: int)
    ensures Compare(Two(a, b), Two(c, d)) > 0 <==> a > c || (a == c && b > d)
    ensures Compare(Two(a, b), Two(c, d)) < 0 <==> a < c || (a == c && b < d)
    ensures Compare(Two(a, b), Two(c, d)) == 0 <==> a == c && b == d
  {
    hide Parse, Two;
    ParsedNumbers(a, b, 0);
    ParsedNumbers(c, d, 0);
  }

  /** Versions of three numbers, the second not being zero, compare by the first that differ. */
  lemma LaterThree(a: int, b: int, c: int, d: int, e: int, f: int)
    requires b != 0 && e != 0
    ensures Compare(Three(a, b, c), Three(d, e, f)) > 0 <==> a > d || (a == d && (b > e || (b == e && c > f)))
    ensures Compare(Three(a, b, c), Three(d, e, f)) < 0 <==> a < d || (a == d && (b < e || (b == e && c < f)))
  {
    hide Parse, Three;
    ParsedNumbers(a, b, c);
    ParsedNumbers(d, e, f);
  }

  /** A third number behind a zero is the second of the other form. */
  lemma SameVersion(a: int, c: int)
    requires c > 0
    ensures Compare(Three(a, 0, c), Two(a, c)) == 0
  {
    hide Parse, Three, Two;
    ParsedNumbers(a, 0, c);
    ParsedNumbers(a, c, 0);
  }

  // --- how they are shown ---

  function Padded(n: nat): string {
    if n < 10 then "0" + Print(n) else Print(n)
  }

  /** Three numbers: the second and third are put together where one of them is zero. */
  lemma ShownThreeNumbers(a: nat, b: nat, c: nat)
    ensures Full(Three(a, b, c)) ==
      if b == 0 && c > 0 then "v" + Print(a) + "." + Padded(c)
      else if c == 0 then "v" + Print(a) + "." + Padded(b)
      else "v" + Print(a) + "." + Print(b) + "." + Print(c)
  {
    hide Scan, Three, Print;
    ScanAll(a, b, c);
  }

  /** Two numbers: the second has at least two digits, and so has a zero in front. */
  lemma ShownTwoNumbers(a: nat, b: nat)
    ensures Full(Two(a, b)) == (if a == 0 then "v00" else "v" + Print(a)) + "." + Padded(b)
  {
    hide Scan;
    ScanBoth(a, b);
    if a == 0 {
      assert Print(0) == "0";
      assert "v" + "00" == "v00";
    } else if a < 10 {
      PrintedUnits(0, a);
      assert Two(a, b)[0] != '0' && Two(a, b)[1] == '.';
    }
  }

  lemma ShownOneNumber(a: nat)
    ensures Full(One(a)) == "v" + Print(a) + ".00"
  {
    hide Scan, One, Print;
    ScanOne(a);
  }
}

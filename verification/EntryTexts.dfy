/** How names and categories are read out of a package's entries, octet by octet. */
module EntryTexts {
  import opened Bytes
  import opened Wrappers
  import P = PkgParsers
  import opened PackageKind
  import C = PartChecks

  // --- a value in a JSON text ---

  function InQuotes(key: string): (r: seq<int>)
    ensures |r| == |key| + 2
  {
    P.Ascii("\"" + key + "\"")
  }

  // The key in quotes stands nowhere before position n.
  predicate Absent(b: Octets, key: string, n: nat) {
    forall i: nat :: i < n ==> !Stands(b, InQuotes(key), i)
  }

  lemma StandsIs(b: Octets, text: seq<int>, i: nat)
    ensures Stands(b, text, i) <==> i + |text| <= |b| && b[i..i + |text|] == text
  {
    if i + |text| <= |b| && Stands(b, text, i) {
      assert b[i..i + |text|] == text;
    }
  }

  /** The search for a text finds the first place, unless the text ends before it. */
  lemma {:induction false} SearchFinds(b: Octets, p: nat, text: seq<int>, i: nat)
    requires p <= i && text != [] && Stands(b, text, i)
    requires forall k: nat :: p <= k < i ==> b[k] != 0 && !Stands(b, text, k)
    ensures P.StrStr(b, p, text) == Some(i)
    decreases i - p
  {
    StandsIs(b, text, p);
    if p < i {
      SearchFinds(b, p + 1, text, i);
    }
  }

  lemma {:induction false} SearchFails(b: Octets, p: nat, text: seq<int>)
    requires p <= |b| && text != [] && forall k: nat :: p <= k < |b| ==> !Stands(b, text, k)
    ensures P.StrStr(b, p, text) == None
    decreases |b| - p
  {
    StandsIs(b, text, p);
    if p < |b| {
      SearchFails(b, p + 1, text);
    }
  }

  lemma {:induction false} CharFound(b: Octets, p: nat, c: byte, i: nat)
    requires p <= i < |b| && b[i] == c && forall k: nat :: p <= k < i ==> b[k] != 0 && b[k] != c
    ensures P.StrChr(b, p, c) == Some(i)
    decreases i - p
  {
    if p < i {
      CharFound(b, p + 1, c, i);
    }
  }

  lemma {:induction false} CharMissing(b: Octets, p: nat, c: byte)
    requires p <= |b| && forall k: nat :: p <= k < |b| ==> b[k] != c
    ensures P.StrChr(b, p, c) == None
    decreases |b| - p
  {
    if p < |b| {
      CharMissing(b, p + 1, c);
    }
  }

  predicate White(b: Octets) {
    forall i :: 0 <= i < |b| ==> b[i] == 0x20 || b[i] == 9 || b[i] == 10 || b[i] == 11 || b[i] == 12 || b[i] == 13
  }

  lemma {:induction false} WhiteSkipped(b: Octets, p: nat, q: nat)
    requires p <= q <= |b| && White(b[p..q]) && (q == |b| || !White([b[q]]))
    ensures P.SkipSpace(b, p, |b|) == q
    decreases q - p
  {
    if p < q {
      assert b[p..q][0] == b[p] && b[p + 1..q] == b[p..q][1..];
      WhiteSkipped(b, p + 1, q);
    } else if q < |b| {
      assert [b[q]][0] == b[q];
    }
  }

  // A text with its first key, what is between that and the colon, white space, and what follows.
  predicate Keyed(b: Octets, key: string, before: Octets, between: Octets, white: Octets, rest: Octets) {
    && b == before + (InQuotes(key) + (between + ([0x3A] + (white + rest))))
    && Absent(b, key, |before|) && 0 !in before && 0 !in between && 0x3A !in between
    && White(white) && (rest == [] || !White([rest[0]]))
  }

  lemma FiveParts(a: seq<int>, t: seq<int>, m: seq<int>, w: seq<int>, r: seq<int>)
    ensures var b, n := a + (t + (m + ([0x3A] + (w + r)))), |a| + |t|;
      var colon := n + |m|;
      var q := colon + 1 + |w|;
      && |b| == q + |r| && b[..|a|] == a && b[|a|..n] == t && b[n..colon] == m && b[colon] == 0x3A
      && b[colon + 1..q] == w && b[q..] == r
  {
  }

  lemma NotIn(b: Octets, from: nat, to: nat, part: Octets, c: byte)
    requires from <= to <= |b| && b[from..to] == part && c !in part
    ensures forall k: nat :: from <= k < to ==> b[k] != c
  {
    forall k: nat | from <= k < to
      ensures b[k] != c
    {
      assert b[k] == b[from..to][k - from] == part[k - from];
    }
  }

  lemma KeyedParts(b: Octets, key: string, before: Octets, between: Octets, white: Octets, rest: Octets,
                   n: nat, colon: nat, q: nat)
    requires Keyed(b, key, before, between, white, rest)
    requires n == |before| + |key| + 2 && colon == n + |between| && q == colon + 1 + |white|
    ensures P.StrStr(b, 0, InQuotes(key)) == Some(|before|)
    ensures n <= |b| && P.StrChr(b, n, 0x3A) == Some(colon)
    ensures colon < |b| && P.SkipSpace(b, colon + 1, |b|) == q
    ensures q + |rest| == |b| && (rest != [] ==> b[q] == rest[0])
  {
    hide P.StrStr, P.StrChr, P.SkipSpace, White, InQuotes, Stands;
    var text := InQuotes(key);
    FiveParts(before, text, between, white, rest);
    StandsIs(b, text, |before|);
    NotIn(b, 0, |before|, before, 0);
    SearchFinds(b, 0, text, |before|);
    NotIn(b, n, colon, between, 0);
    NotIn(b, n, colon, between, 0x3A);
    CharFound(b, n, 0x3A, colon);
    assert q < |b| ==> b[q] == b[q..][0];
    WhiteSkipped(b, colon + 1, q);
  }

  // One step of the search, from where the key, the colon and the value are.
  lemma OneStep(b: Octets, key: string, room: nat, found: nat, n: nat, colon: nat, q: nat)
    requires P.StrStr(b, 0, InQuotes(key)) == Some(found) && n == found + |key| + 2 <= |b|
    requires P.StrChr(b, n, 0x3A) == Some(colon) && colon < |b| && P.SkipSpace(b, colon + 1, |b|) == q
    ensures q < |b| && b[q] == 0x22 ==>
      P.ExtractFrom(b, |b|, key, room, 0) == Some(P.CString(P.QuotedValue(b, q + 1, |b|, room)))
    ensures q >= |b| || b[q] != 0x22 ==>
      P.ExtractFrom(b, |b|, key, room, 0) == P.ExtractFrom(b, |b|, key, room, n)
  {
    hide P.StrStr, P.StrChr, P.SkipSpace, P.CString, P.QuotedValue, P.Ascii;
  }

  /** A quoted value behind the key, a colon and white space is taken; another kind of value is passed over, and the
    * search goes on behind the key. */
  lemma ValueTaken(b: Octets, key: string, room: nat, before: Octets, between: Octets, white: Octets, rest: Octets)
    requires Keyed(b, key, before, between, white, rest)
    ensures |rest| <= |b| && |before| + |key| + 2 <= |b|
    ensures rest != [] && rest[0] == 0x22 ==>
      P.ExtractFrom(b, |b|, key, room, 0) == Some(P.CString(P.QuotedValue(b, |b| - |rest| + 1, |b|, room)))
    ensures rest == [] || rest[0] != 0x22 ==>
      P.ExtractFrom(b, |b|, key, room, 0) == P.ExtractFrom(b, |b|, key, room, |before| + |key| + 2)
  {
    hide *;
    var n := |before| + |key| + 2;
    var colon := n + |between|;
    var q := colon + 1 + |white|;
    KeyedParts(b, key, before, between, white, rest, n, colon, q);
    OneStep(b, key, room, |before|, n, colon, q);
    assert q == |b| - |rest|;
  }

  /** Without the key there is no value. */
  lemma NoKey(b: Octets, key: string, room: nat)
    requires Absent(b, key, |b|)
    ensures P.ExtractFrom(b, |b|, key, room, 0) == None
  {
    hide P.StrStr, P.StrChr, P.SkipSpace;
    SearchFails(b, 0, InQuotes(key));
  }

  /** A quoted value ends at the next quote or with the text; a backslash stands for the octet after it; and no more
    * than its room is kept. */
  lemma QuotedIs(b: Octets, q: nat, room: nat)
    requires q <= |b|
    ensures q == |b| || b[q] == 0x22 ==> P.QuotedValue(b, q, |b|, room) == []
    ensures q + 1 < |b| && b[q] == 0x5C ==>
      P.QuotedValue(b, q, |b|, room) == (if room > 0 then [b[q + 1]] else [])
        + P.QuotedValue(b, q + 2, |b|, if room > 0 then room - 1 else 0)
    ensures q < |b| && b[q] != 0x22 && (b[q] != 0x5C || q + 1 == |b|) ==>
      P.QuotedValue(b, q, |b|, room) == (if room > 0 then [b[q]] else [])
        + P.QuotedValue(b, q + 1, |b|, if room > 0 then room - 1 else 0)
  {
  }

  // --- the category in a parameter file ---

  /** A file with the four octets of a parameter file, its two tables inside, and at most 1024 entries. */
  predicate ParameterFile(b: Octets) {
    && |b| >= 20 && b[0] == 0 && b[1] == 0x50 && b[2] == 0x53 && b[3] == 0x46
    && C.Word(b, 8) < |b| && C.Word(b, 12) < |b| && C.Word(b, 16) <= 1024
  }

  predicate HasRow(b: Octets, i: nat) {
    |b| >= 20 && i < C.Word(b, 16) && 36 + 16 * i <= |b|
  }

  // Row i has the key CATEGORY, and its data lie in the file.
  predicate CategoryRow(b: Octets, i: nat)
    requires ParameterFile(b) && HasRow(b, i)
  {
    var row := 20 + 16 * i;
    var key := C.Word(b, 8) + b[row] as int + 0x100 * (b[row + 1] as int);
    && key + 9 <= |b| && b[key..key + 9] == [0x43, 0x41, 0x54, 0x45, 0x47, 0x4F, 0x52, 0x59, 0]
    && C.Word(b, 12) + C.Word(b, row + 12) + C.Word(b, row + 4) <= |b|
  }

  // Its data, cut to 15 octets and at the first zero.
  function Data(b: Octets, i: nat): Octets
    requires ParameterFile(b) && HasRow(b, i) && CategoryRow(b, i)
  {
    var row := 20 + 16 * i;
    var at, size := C.Word(b, 12) + C.Word(b, row + 12), C.Word(b, row + 4);
    P.CString(b[at..at + if size > 15 then 15 else size])
  }

  function RowData(b: Octets, i: nat): Octets
    requires ParameterFile(b) && HasRow(b, i)
  {
    if CategoryRow(b, i) then Data(b, i) else []
  }

  lemma HalfIs(b: Octets, at: nat)
    requires at + 2 <= |b|
    ensures FromLe(b[at..at + 2]) == b[at] as int + 0x100 * (b[at + 1] as int)
  {
    var w := b[at..at + 2];
    assert w[1..][1..] == [];
    assert FromLe(w[1..]) == w[1];
  }

  lemma UsableIs(b: Octets)
    ensures P.SfoUsable(b) <==> ParameterFile(b)
  {
    hide FromLe, C.Word;
    if |b| >= 20 {
      C.WordIs(b, 8);
      C.WordIs(b, 12);
      C.WordIs(b, 16);
      assert b[..4] == P.SFO_MAGIC <==> b[0] == 0 && b[1] == 0x50 && b[2] == 0x53 && b[3] == 0x46 by {
        assert forall k :: 0 <= k < 4 ==> b[..4][k] == b[k];
      }
    }
  }

  const CATEGORY: Octets := [0x43, 0x41, 0x54, 0x45, 0x47, 0x4F, 0x52, 0x59]

  // A key that is ended is CATEGORY if and only if these nine octets are there.
  lemma KeyIs(b: Octets, key: nat)
    requires key < |b|
    ensures 0 in b[key..] && P.CString(b[key..]) == P.Ascii("CATEGORY") <==>
      key + 9 <= |b| && b[key..key + 9] == [0x43, 0x41, 0x54, 0x45, 0x47, 0x4F, 0x52, 0x59, 0]
  {
    var rest := b[key..];
    assert P.Ascii("CATEGORY") == CATEGORY && CATEGORY + [0] == [0x43, 0x41, 0x54, 0x45, 0x47, 0x4F, 0x52, 0x59, 0];
    if key + 9 <= |b| {
      StringIs(rest, CATEGORY);
      assert rest[..9] == b[key..key + 9];
      if b[key..key + 9] == CATEGORY + [0] {
        assert b[key..key + 9][8] == rest[8] == 0;
      }
    }
  }

  lemma RowNumbers(b: Octets, i: nat)
    requires ParameterFile(b) && HasRow(b, i)
    ensures var row := 20 + 16 * i;
      && P.Le32(b, 8) == C.Word(b, 8) && P.Le32(b, 12) == C.Word(b, 12) && P.Le32(b, row + 4) == C.Word(b, row + 4)
      && P.Le32(b, row + 12) == C.Word(b, row + 12)
      && FromLe(b[row..row + 2]) == b[row] as int + 0x100 * (b[row + 1] as int)
  {
    hide FromLe, C.Word;
    var row := 20 + 16 * i;
    C.WordIs(b, 8);
    C.WordIs(b, 12);
    C.WordIs(b, row + 4);
    C.WordIs(b, row + 12);
    HalfIs(b, row);
  }

  lemma EntryAs(b: Octets, i: nat, key: nat, size: nat, offset: nat, table: nat)
    requires |b| >= 20 && 36 + i * 16 <= |b|
    requires key == P.Le32(b, 8) + FromLe(b[20 + i * 16..22 + i * 16])
    requires size == P.Le32(b, 24 + i * 16) && offset == P.Le32(b, 32 + i * 16) && table == P.Le32(b, 12)
    ensures P.SfoEntry(b, i) ==
      if key < |b| && 0 in b[key..] && P.CString(b[key..]) == P.Ascii("CATEGORY") && table + offset + size <= |b|
      then P.CString(b[table + offset..table + offset + if size > 15 then 15 else size])
      else []
  {
    hide FromLe, P.Le32, P.CString, P.Ascii;
    assert P.CATEGORY_SIZE - 1 == 15 && Min(size, 15) == if size > 15 then 15 else size;
  }

  lemma RowIs(b: Octets, i: nat)
    requires ParameterFile(b) && HasRow(b, i)
    ensures P.SfoEntry(b, i) == RowData(b, i)
  {
    hide FromLe, C.Word, P.CString, P.Ascii, P.Le32, ParameterFile, P.SfoEntry;
    RowNumbers(b, i);
    var row := 20 + 16 * i;
    var key := C.Word(b, 8) + b[row] as int + 0x100 * (b[row + 1] as int);
    EntryAs(b, i, key, C.Word(b, row + 4), C.Word(b, row + 12), C.Word(b, 12));
    if key < |b| {
      KeyIs(b, key);
    }
  }

  // Row j is the first, from row i on, that has a category that is not empty.
  predicate RowFrom(b: Octets, i: nat, j: nat)
    requires ParameterFile(b)
  {
    i <= j && HasRow(b, j) && RowData(b, j) != [] && forall k: nat :: i <= k < j && HasRow(b, k) ==> RowData(b, k) == []
  }

  lemma {:induction false} CategoryFrom(b: Octets, i: nat, sofar: Octets)
    requires ParameterFile(b) && P.SfoUsable(b) && i <= P.Le32(b, 16) == C.Word(b, 16)
    ensures sofar != [] ==> P.SfoFrom(b, i, sofar) == sofar
    ensures sofar == [] && (forall k: nat :: i <= k && HasRow(b, k) ==> RowData(b, k) == []) ==>
      P.SfoFrom(b, i, sofar) == []
    ensures sofar == [] ==> forall j: nat :: RowFrom(b, i, j) ==> P.SfoFrom(b, i, sofar) == RowData(b, j)
    decreases C.Word(b, 16) - i
  {
    hide P.SfoEntry, RowData, C.Word, P.Le32;
    if i < C.Word(b, 16) && 36 + 16 * i <= |b| {
      RowIs(b, i);
      CategoryFrom(b, i + 1, if sofar == [] then P.SfoEntry(b, i) else sofar);
    }
  }

  /** A parameter file's category is that of the first row with one; without such a row, or in another file, none. */
  lemma CategoryIs(b: Octets)
    ensures !ParameterFile(b) ==> P.SfoCategory(b) == []
    ensures ParameterFile(b) ==> forall i: nat :: RowFrom(b, 0, i) ==> P.SfoCategory(b) == RowData(b, i)
    ensures ParameterFile(b) && (forall i: nat :: HasRow(b, i) ==> RowData(b, i) == []) ==> P.SfoCategory(b) == []
  {
    hide P.SfoFrom, RowData, C.Word;
    UsableIs(b);
    if ParameterFile(b) {
      C.WordIs(b, 16);
      CategoryFrom(b, 0, []);
    }
  }

  // --- names and tables ---

  /** Row i of a table of 32 octets each is the first of type 0x0200. */
  predicate NamesRow(table: Octets, i: nat) {
    && 32 * (i + 1) <= |table| && FromBe(table[32 * i..32 * i + 4]) == 0x0200
    && forall k: nat :: k < i ==> FromBe(table[32 * k..32 * k + 4]) != 0x0200
  }

  lemma {:induction false} NamesFrom(table: Octets, k: nat, i: nat)
    requires k <= i && 32 * (i + 1) <= |table| && FromBe(table[32 * i..32 * i + 4]) == 0x0200
    requires forall j: nat :: k <= j < i ==> FromBe(table[32 * j..32 * j + 4]) != 0x0200
    ensures P.Names(table, k) == (FromBe(table[32 * i + 16..32 * i + 20]), FromBe(table[32 * i + 20..32 * i + 24]))
    decreases i - k
  {
    hide FromBe;
    if k < i {
      assert FromBe(table[32 * k..32 * k + 4]) != 0x0200;
      NamesFrom(table, k + 1, i);
    }
  }

  /** Both readers take the names from where the first entry of type 0x0200 says, if there are fewer than 65536 octets
    * of them and they are there. */
  lemma NamesAre(b: Octets, cnt: nat, table: Octets, i: nat)
    requires NamesRow(table, i)
    ensures var at := cnt + FromBe(table[32 * i + 16..32 * i + 20]);
      var size := FromBe(table[32 * i + 20..32 * i + 24]);
      if 0 < size < 65536 && at + size <= |b|
      then P.FileNames(b, cnt, table) == Some(b[at..at + size]) && P.MemNames(b, cnt, table) == (at, size)
      else P.FileNames(b, cnt, table) == None && P.MemNames(b, cnt, table) == (0, 0)
  {
    hide FromBe, P.Names;
    NamesFrom(table, 0, i);
  }

  lemma {:induction false} NamesNone(table: Octets, k: nat)
    requires 32 * k <= |table|
    requires forall j: nat :: k <= j && 32 * (j + 1) <= |table| ==> FromBe(table[32 * j..32 * j + 4]) != 0x0200
    ensures P.Names(table, k) == (0, 0)
    decreases |table| - 32 * k
  {
    hide FromBe;
    if 32 * (k + 1) <= |table| {
      assert FromBe(table[32 * k..32 * k + 4]) != 0x0200;
      NamesNone(table, k + 1);
    }
  }

  /** Without such an entry there are no names. */
  lemma Nameless(b: Octets, cnt: nat, table: Octets)
    requires forall j: nat :: 32 * (j + 1) <= |table| ==> FromBe(table[32 * j..32 * j + 4]) != 0x0200
    ensures P.FileNames(b, cnt, table) == None && P.MemNames(b, cnt, table) == (0, 0)
  {
    hide FromBe, P.Names;
    NamesNone(table, 0);
  }

  /** A file without a container, or whose container is cut off or says no or too many entries, is none. */
  lemma ReadExactly(file: Octets, cnt: nat)
    requires |file| >= 0x80 && file[..8] != P.PartHeader.MAGIC && P.FileContainer(file) == Some(cnt)
    ensures P.FileParse(file).Some? <==> exists magic, table, count :: Container(file, cnt, magic, table, count)
  {
    hide FromBe, P.KindOf, P.ContentId, P.FileNames, P.FileEntries, P.FileContainer;
    if cnt + 0x80 <= |file| {
      SubSub(file, cnt, cnt + 0x80, 0, 4);
      SubSub(file, cnt, cnt + 0x80, 4, 8);
      SubSub(file, cnt, cnt + 0x80, 0x10, 0x14);
      SubSub(file, cnt, cnt + 0x80, 0x18, 0x1C);
      var count, at := FromBe(file[cnt + 0x10..cnt + 0x14]), FromBe(file[cnt + 0x18..cnt + 0x1C]);
      if P.FileParse(file).Some? {
        assert Container(file, cnt, FromBe(file[cnt + 4..cnt + 8]), file[cnt + at..cnt + at + count * 32], count);
      }
    }
  }
}

/** Which kind of package the two readers report, in terms of what the entry table holds. */
module PackageKind {
  import opened Bytes
  import opened Wrappers
  import PartHeader
  import P = PkgParsers

  // One entry as a reader sees it: its type, its name, its size, and its content if that can be read.
  datatype Item = Item(kind: nat, name: Octets, size: nat, content: Option<Octets>)

  function Text(s: string): (r: Octets)
    requires forall i :: 0 <= i < |s| ==> (s[i] as int) < 128
    ensures r == P.Ascii(s)
  {
    seq(|s|, i requires 0 <= i < |s| => (s[i] as int) as byte)
  }

  // --- what an entry says ---

  predicate MarksUpdate(i: Item) {
    || i.kind == 0x1008 || i.kind == 0x0407 || i.kind == 0x0408
    || i.name == P.Ascii("app/playgo-chunk.dat")
    || i.name == P.Ascii("target-deltainfo.dat") || i.name == P.Ascii("origin-deltainfo.dat")
  }

  predicate HasJson(i: Item) {
    (i.kind == 0x2000 || i.name == P.Ascii("param.json")) && 0 < i.size < 262144 && i.content.Some?
  }

  predicate HasSfo(i: Item) {
    (i.kind == 0x1000 || i.name == P.Ascii("param.sfo")) && 0 < i.size < 262144 && i.content.Some?
  }

  /** The key stands somewhere in the text, in quotes. */
  predicate Quotes(json: Octets, key: string) {
    exists i :: 0 <= i <= |json| && Stands(json, P.Ascii("\"" + key + "\""), i)
  }

  predicate Stands(json: Octets, text: seq<int>, i: nat) {
    i + |text| <= |json| && forall k :: 0 <= k < |text| ==> json[i + k] == text[k]
  }

  predicate Describes(i: Item) {
    && HasJson(i)
    && var json := i.content.value;
       || Quotes(json, "applicationDrmType") || Quotes(json, "applicationCategoryType")
       || Quotes(json, "contentBadgeType")
  }

  // The category an entry offers as JSON, and as a parameter file; empty if none.
  function JsonOffer(i: Item): Octets {
    if HasJson(i) && |i.content.value| == i.size then
      var c := P.ExtractFrom(i.content.value, i.size, "category", 15, 0);
      if c.Some? then c.value else []
    else []
  }

  function SfoOffer(i: Item): Octets {
    if HasSfo(i) then P.SfoCategory(i.content.value) else []
  }

  // --- what the entries say together ---

  ghost predicate Readable(items: seq<Item>) {
    forall k :: 0 <= k < |items| && items[k].content.Some? ==> |items[k].content.value| == items[k].size
  }

  // Entry k is the first that offers a category.
  predicate FirstOffer(items: seq<Item>, k: nat) {
    && k < |items| && (JsonOffer(items[k]) != [] || SfoOffer(items[k]) != [])
    && forall j :: 0 <= j < k ==> JsonOffer(items[j]) == [] && SfoOffer(items[j]) == []
  }

  // The first category that is not empty is c, and a parameter file offers it or not; JSON comes first in an entry.
  ghost predicate Category(items: seq<Item>, c: Octets, fromSfo: bool) {
    exists k: nat :: FirstOffer(items, k)
      && (if JsonOffer(items[k]) != [] then c == JsonOffer(items[k]) && !fromSfo
          else c == SfoOffer(items[k]) && fromSfo)
  }

  predicate Uncategorized(items: seq<Item>) {
    forall k :: 0 <= k < |items| ==> JsonOffer(items[k]) == [] && SfoOffer(items[k]) == []
  }

  predicate Begins(c: Octets, a: char, b: char) {
    |c| >= 2 && c[0] == a as int && c[1] == b as int
  }

  /** A patch mark, a container type of a delta, or a category that begins with gp. */
  ghost predicate IsUpdate(magic: nat, items: seq<Item>) {
    || (exists k :: 0 <= k < |items| && MarksUpdate(items[k]))
    || magic % 256 == 0x1E || magic / 0x100_0000 == 0x41
    || (exists c, s :: Category(items, c, s) && Begins(c, 'g', 'p'))
  }

  /** No update, and a category of add-ons; or a container of type 1 that no application metadata and no parameter
    * file's base category speak for. */
  ghost predicate IsDlc(magic: nat, items: seq<Item>) {
    && !IsUpdate(magic, items)
    && (|| (exists c, s :: Category(items, c, s)
              && (Begins(c, 'a', 'c') || Begins(c, 'a', 'l') || c == P.Ascii("addcont")))
        || (&& magic % 256 == 1
            && !(exists k :: 0 <= k < |items| && Describes(items[k]))
            && !(exists c :: Category(items, c, true) && IsBaseCategory(c))))
  }

  predicate IsBaseCategory(c: Octets) {
    Begins(c, 'g', 'd') || Begins(c, 'b', 'd') || Begins(c, 'g', 'c') || Begins(c, 'w', 't')
  }

  // --- the readers' findings ---

  function Step(s: P.Findings, i: Item): P.Findings {
    var s1 := P.Marked(s, i.kind, i.name);
    var s2 :=
      if P.IsJson(i.kind, i.name, i.size) && i.content.Some? && |i.content.value| == i.size
      then P.WithJson(s1, P.HasAppMetadata(i.content.value),
                      P.ExtractFrom(i.content.value, i.size, "category", P.CATEGORY_SIZE - 1, 0))
      else s1;
    if P.IsSfo(i.kind, i.name, i.size) && i.content.Some? then P.WithSfo(s2, P.SfoCategory(i.content.value)) else s2
  }

  function FindAll(items: seq<Item>): P.Findings {
    if items == [] then P.NOTHING else Step(FindAll(items[..|items| - 1]), items[|items| - 1])
  }

  // What the findings mean.
  ghost predicate Meaning(s: P.Findings, items: seq<Item>) {
    && (s.playgo || s.delta <==> exists k :: 0 <= k < |items| && MarksUpdate(items[k]))
    && (s.appMetadata <==> exists k :: 0 <= k < |items| && Describes(items[k]))
    && (s.category == [] <==> Uncategorized(items))
    && (s.category != [] ==> Category(items, s.category, s.sfoCategory))
    && (s.sfoCategory ==> s.category != [])
  }

  lemma MetadataQuoted(json: Octets)
    ensures P.HasAppMetadata(json) <==>
      || Quotes(json, "applicationDrmType") || Quotes(json, "applicationCategoryType")
      || Quotes(json, "contentBadgeType")
  {
    hide P.Ascii;
    KeyQuoted(json, "applicationDrmType");
    KeyQuoted(json, "applicationCategoryType");
    KeyQuoted(json, "contentBadgeType");
  }

  lemma KeyQuoted(json: Octets, key: string)
    ensures P.HasKey(json, key) <==> Quotes(json, key)
  {
    hide P.Ascii;
    var pattern := P.Ascii("\"" + key + "\"");
    forall i | 0 <= i <= |json|
      ensures P.Occurs(json, pattern, i) <==> Stands(json, pattern, i)
    {
      if Stands(json, pattern, i) {
        assert json[i..i + |pattern|] == pattern;
      }
    }
  }

  /** What one more entry adds to the findings: marks, */
  lemma StepMarks(s: P.Findings, i: Item)
    requires i.content.Some? ==> |i.content.value| == i.size
    ensures var t := Step(s, i);
      && (t.playgo || t.delta <==> s.playgo || s.delta || MarksUpdate(i))
      && (t.appMetadata <==> s.appMetadata || Describes(i))
  {
    hide P.Ascii, P.ExtractFrom, P.SfoCategory, P.HasAppMetadata, Quotes;
    if i.content.Some? {
      MetadataQuoted(i.content.value);
    }
  }

  /** and a category, if there is none yet. */
  lemma StepCategory(s: P.Findings, i: Item)
    requires i.content.Some? ==> |i.content.value| == i.size
    ensures var t := Step(s, i);
      && (s.category != [] ==> t.category == s.category && t.sfoCategory == s.sfoCategory)
      && (s.category == [] ==>
            && t.category == (if JsonOffer(i) != [] then JsonOffer(i) else SfoOffer(i))
            && t.sfoCategory == (s.sfoCategory || (JsonOffer(i) == [] && SfoOffer(i) != [])))
  {
    hide P.Ascii, P.ExtractFrom, P.SfoCategory, P.HasAppMetadata;
  }

  lemma {:induction false} FoundMeans(items: seq<Item>)
    requires Readable(items)
    ensures Meaning(FindAll(items), items)
  {
    hide Step, MarksUpdate, Describes, JsonOffer, SfoOffer;
    if items != [] {
      var n := |items| - 1;
      FoundMeans(items[..n]);
      var s := FindAll(items[..n]);
      StepMarks(s, items[n]);
      StepCategory(s, items[n]);
      MeaningMore(s, items, Step(s, items[n]));
    }
  }

  lemma MeaningMore(s: P.Findings, items: seq<Item>, t: P.Findings)
    requires items != [] && Meaning(s, items[..|items| - 1])
    requires var i := items[|items| - 1];
      && (t.playgo || t.delta <==> s.playgo || s.delta || MarksUpdate(i))
      && (t.appMetadata <==> s.appMetadata || Describes(i))
      && (s.category != [] ==> t.category == s.category && t.sfoCategory == s.sfoCategory)
      && (s.category == [] ==>
            && t.category == (if JsonOffer(i) != [] then JsonOffer(i) else SfoOffer(i))
            && t.sfoCategory == (s.sfoCategory || (JsonOffer(i) == [] && SfoOffer(i) != [])))
    ensures Meaning(t, items)
  {
    hide MarksUpdate, Describes, JsonOffer, SfoOffer;
    var n := |items| - 1;
    var r := items[..n];
    assert forall k :: 0 <= k < n ==> r[k] == items[k];
    if s.category != [] {
      var k: nat :| FirstOffer(r, k) && (if JsonOffer(r[k]) != [] then s.category == JsonOffer(r[k]) && !s.sfoCategory
                                         else s.category == SfoOffer(r[k]) && s.sfoCategory);
      assert FirstOffer(items, k);
    } else if t.category != [] {
      assert FirstOffer(items, n);
    }
  }

  /** There is one first category. */
  lemma OneCategory(items: seq<Item>, c: Octets, s: bool, d: Octets, t: bool)
    requires Category(items, c, s) && Category(items, d, t)
    ensures c == d && s == t && c != [] && !Uncategorized(items)
  {
    hide JsonOffer, SfoOffer;
    var j: nat :| FirstOffer(items, j) && (if JsonOffer(items[j]) != [] then c == JsonOffer(items[j]) && !s
                                           else c == SfoOffer(items[j]) && s);
    var k: nat :| FirstOffer(items, k) && (if JsonOffer(items[k]) != [] then d == JsonOffer(items[k]) && !t
                                           else d == SfoOffer(items[k]) && t);
    assert j == k;
  }

  lemma TwoLetters(c: Octets, s: string)
    requires |s| == 2
    ensures P.Starts(c, s) <==> Begins(c, s[0], s[1])
  {
    assert P.Ascii(s) == [s[0] as int, s[1] as int];
  }

  lemma Letters(c: Octets)
    ensures P.Starts(c, "gp") <==> Begins(c, 'g', 'p')
    ensures P.Starts(c, "ac") <==> Begins(c, 'a', 'c')
    ensures P.Starts(c, "al") <==> Begins(c, 'a', 'l')
    ensures P.BaseCategory(c) <==> IsBaseCategory(c)
  {
    hide P.Ascii, P.Starts, Begins;
    TwoLetters(c, "gp");
    TwoLetters(c, "ac");
    TwoLetters(c, "al");
    TwoLetters(c, "gd");
    TwoLetters(c, "bd");
    TwoLetters(c, "gc");
    TwoLetters(c, "wt");
  }

  /** The kind that the marks, the category and the container's type make a package. */
  lemma KindExactly(magic: nat, items: seq<Item>)
    requires Readable(items)
    ensures var kind := P.KindOf(magic, FindAll(items));
      && (kind == P.Update <==> IsUpdate(magic, items))
      && (kind == P.Dlc <==> IsDlc(magic, items))
      && (kind == P.Base <==> !IsUpdate(magic, items) && !IsDlc(magic, items))
  {
    hide P.Ascii, P.Starts, P.BaseCategory, Begins, IsBaseCategory, MarksUpdate, Describes, FindAll, Category;
    FoundMeans(items);
    var s := FindAll(items);
    Letters(s.category);
    Letters([]);
    NoLetters();
    forall c, f | Category(items, c, f)
      ensures c == s.category && f == s.sfoCategory && s.category != []
    {
      if s.category == [] {
        OneCategory(items, c, f, c, f);
      } else {
        OneCategory(items, c, f, s.category, s.sfoCategory);
      }
    }
  }

  lemma NoLetters()
    ensures !Begins([], 'g', 'p') && !Begins([], 'a', 'c') && !Begins([], 'a', 'l') && !IsBaseCategory([])
    ensures P.Ascii("addcont") != []
  {
  }

  // --- the entries as the two readers see them ---

  function FileItem(file: Octets, cnt: nat, names: Option<Octets>, e: Octets): Item
    requires |e| == 32
  {
    var size := FromBe(e[20..24]);
    var at := cnt + FromBe(e[16..20]);
    Item(FromBe(e[0..4]), P.FileName(names, FromBe(e[4..8])), size,
         if at + size <= |file| then Some(file[at..at + size]) else None)
  }

  function FileItems(file: Octets, cnt: nat, names: Option<Octets>, table: Octets, n: nat): (r: seq<Item>)
    requires n * 32 <= |table|
    ensures |r| == n && Readable(r)
  {
    if n == 0 then []
    else FileItems(file, cnt, names, table, n - 1) + [FileItem(file, cnt, names, table[(n - 1) * 32..n * 32])]
  }

  function MemItem(data: Octets, cnt: nat, at: nat, size: nat, e: Octets): Item
    requires |e| == 32 && at + size <= |data|
  {
    var n := FromBe(e[20..24]);
    var start := cnt + FromBe(e[16..20]);
    Item(FromBe(e[0..4]), P.MemName(data, at, size, FromBe(e[4..8])), n,
         if n > 0 && start + n <= |data| then Some(data[start..start + n]) else None)
  }

  function MemItems(data: Octets, cnt: nat, at: nat, size: nat, table: Octets, n: nat): (r: seq<Item>)
    requires n * 32 <= |table| && at + size <= |data|
    ensures |r| == n && Readable(r)
  {
    if n == 0 then []
    else MemItems(data, cnt, at, size, table, n - 1) + [MemItem(data, cnt, at, size, table[(n - 1) * 32..n * 32])]
  }

  lemma {:induction false} FileFound(file: Octets, cnt: nat, names: Option<Octets>, table: Octets, n: nat)
    requires n * 32 <= |table|
    ensures P.FileEntries(file, cnt, names, table, n) == FindAll(FileItems(file, cnt, names, table, n))
  {
    hide P.FileEntry, Step, FromBe, P.FileName, FileItem;
    if n > 0 {
      FileFound(file, cnt, names, table, n - 1);
      var items, e := FileItems(file, cnt, names, table, n), table[(n - 1) * 32..n * 32];
      assert items[..n - 1] == FileItems(file, cnt, names, table, n - 1);
      FileStep(file, cnt, names, e, FindAll(items[..n - 1]));
    }
  }

  lemma FileStep(file: Octets, cnt: nat, names: Option<Octets>, e: Octets, s: P.Findings)
    requires |e| == 32
    ensures P.FileEntry(file, cnt, names, e, s) == Step(s, FileItem(file, cnt, names, e))
  {
    hide FromBe, P.FileName, P.Marked, P.IsJson, P.IsSfo, P.WithJson, P.WithSfo, P.HasAppMetadata, P.ExtractFrom,
         P.SfoCategory;
  }

  lemma {:induction false} MemFound(data: Octets, cnt: nat, at: nat, size: nat, table: Octets, n: nat)
    requires n * 32 <= |table| && at + size <= |data|
    ensures P.MemEntries(data, cnt, at, size, table, n) == FindAll(MemItems(data, cnt, at, size, table, n))
  {
    hide P.MemEntry, Step, FromBe, P.MemName, MemItem;
    if n > 0 {
      MemFound(data, cnt, at, size, table, n - 1);
      var items, e := MemItems(data, cnt, at, size, table, n), table[(n - 1) * 32..n * 32];
      assert items[..n - 1] == MemItems(data, cnt, at, size, table, n - 1);
      MemStep(data, cnt, at, size, e, FindAll(items[..n - 1]));
    }
  }

  lemma MemStep(data: Octets, cnt: nat, at: nat, size: nat, e: Octets, s: P.Findings)
    requires |e| == 32 && at + size <= |data|
    ensures P.MemEntry(data, cnt, at, size, e, s) == Step(s, MemItem(data, cnt, at, size, e))
  {
    hide FromBe, P.MemName, P.Marked, P.IsJson, P.IsSfo, P.WithJson, P.WithSfo, P.HasAppMetadata, P.ExtractFrom,
         P.SfoCategory;
    var kind, name, n := FromBe(e[0..4]), P.MemName(data, at, size, FromBe(e[4..8])), FromBe(e[20..24]);
    var start := cnt + FromBe(e[16..20]);
    P.NotEmpty(kind, name, n);
    if P.Slice(data, start, n) {
      P.SameJson(data, start, n);
    }
  }

  // A place for a container in the window of a wrapped package: a multiple of 4096, not too near.
  predicate Candidate(file: Octets, off: nat)
    requires off + 8 <= |file|
  {
    var c := FromLe(file[off..off + 8]);
    0x10000 <= c && c % 0x1000 == 0 && c + 4 <= |file| && file[c..c + 4] == [0x7F, 0x43, 0x4E, 0x54]
  }

  predicate FirstCandidate(file: Octets, i: nat)
    requires 8 * i + 8 <= |file|
  {
    Candidate(file, 8 * i) && forall j :: 2 <= j < i ==> !Candidate(file, 8 * j)
  }

  /** Where the container is: at the beginning; or, behind a wrapper, where 0x58 says; or at the first place that the
    * window of 512 octets names from 0x10 on. */
  lemma ContainerPlace(file: Octets)
    requires |file| >= 0x80
    ensures file[..4] == [0x7F, 0x43, 0x4E, 0x54] ==> P.FileContainer(file) == Some(0)
    ensures file[..4] != [0x7F, 0x43, 0x4E, 0x54] && file[..4] != [0x7F, 0x46, 0x49, 0x48] ==>
      P.FileContainer(file) == None
    ensures file[..4] == [0x7F, 0x46, 0x49, 0x48] ==>
      var c := FromLe(file[0x58..0x60]);
      if 0 < c && c + 4 <= |file| && file[c..c + 4] == [0x7F, 0x43, 0x4E, 0x54] then P.FileContainer(file) == Some(c)
      else
        && (forall i :: 2 <= i && 8 * i + 8 <= Min(512, |file|) && FirstCandidate(file, i) ==>
              P.FileContainer(file) == Some(FromLe(file[8 * i..8 * i + 8])))
        && ((forall i :: 2 <= i && 8 * i + 8 <= Min(512, |file|) ==> !Candidate(file, 8 * i)) ==>
              P.FileContainer(file) == None)
  {
    hide FromLe, P.FileScan, Candidate;
    if file[..4] == [0x7F, 0x46, 0x49, 0x48] {
      assert P.FIH == [0x7F, 0x46, 0x49, 0x48] && P.CNT == [0x7F, 0x43, 0x4E, 0x54] && P.FIH[1] != P.CNT[1];
      forall i | 2 <= i && 8 * i + 8 <= Min(512, |file|) && FirstCandidate(file, i)
        ensures P.FileScan(file, 0x10) == Some(FromLe(file[8 * i..8 * i + 8]))
      {
        ScanFinds(file, 2, i);
      }
      if forall i :: 2 <= i && 8 * i + 8 <= Min(512, |file|) ==> !Candidate(file, 8 * i) {
        ScanNone(file, 2);
      }
    }
  }

  lemma {:induction false} ScanFinds(file: Octets, k: nat, i: nat)
    requires 2 <= k <= i && 8 * i + 8 <= Min(512, |file|) && Candidate(file, 8 * i)
    requires forall j :: k <= j < i ==> !Candidate(file, 8 * j)
    ensures P.FileScan(file, 8 * k) == Some(FromLe(file[8 * i..8 * i + 8]))
    decreases i - k
  {
    hide FromLe;
    if k < i {
      assert !Candidate(file, 8 * k);
      ScanFinds(file, k + 1, i);
    }
  }

  lemma {:induction false} ScanNone(file: Octets, k: nat)
    requires forall i :: k <= i && 8 * i + 8 <= Min(512, |file|) ==> !Candidate(file, 8 * i)
    ensures P.FileScan(file, 8 * k) == None
    decreases 512 - 8 * k
  {
    hide FromLe;
    if 8 * k + 8 <= Min(512, |file|) {
      assert !Candidate(file, 8 * k);
      ScanNone(file, k + 1);
    }
  }

  /** The content id is the longest beginning of its field that can be printed. */
  lemma {:induction false} IdPrinted(b: Octets)
    ensures var id := P.ContentId(b);
      && id <= b && (forall k :: 0 <= k < |id| ==> 32 <= id[k] <= 126)
      && (|id| < |b| ==> b[|id|] < 32 || b[|id|] > 126)
  {
    if b != [] && 32 <= b[0] <= 126 {
      IdPrinted(b[1..]);
    }
  }

  /** A part of a split package says its kind in words. */
  lemma PartKind(h: PartHeader.Header)
    requires |h.pkgType| == 16 && |h.contentId| == 64
    ensures var p := P.Multipart(h);
      && p.multipart && p.partIndex == h.partIndex && p.totalParts == h.totalParts
      && (p.kind == P.Update <==> h.pkgType[..7] == [0x75, 0x70, 0x64, 0x61, 0x74, 0x65, 0])
      && (p.kind == P.Dlc <==> h.pkgType[..4] == [0x64, 0x6C, 0x63, 0])
  {
    var b := h.pkgType[..15];
    assert P.Ascii("update") == [0x75, 0x70, 0x64, 0x61, 0x74, 0x65] && P.Ascii("dlc") == [0x64, 0x6C, 0x63];
    StringIs(b, [0x75, 0x70, 0x64, 0x61, 0x74, 0x65]);
    StringIs(b, [0x64, 0x6C, 0x63]);
    assert h.pkgType[..7] == b[..7] && h.pkgType[..4] == b[..4];
  }

  lemma {:induction false} StringIs(b: Octets, s: Octets)
    requires 0 !in s && |s| < |b|
    ensures P.CString(b) == s <==> b[..|s| + 1] == s + [0]
  {
    if s == [] {
      assert b[..1] == [b[0]];
    } else {
      assert s[0] in s;
      StringIs(b[1..], s[1..]);
      assert b[..|s| + 1] == [b[0]] + b[1..][..|s|];
      assert s + [0] == [s[0]] + (s[1..] + [0]);
      assert b[..|s| + 1][1..] == b[1..][..|s|] && (s + [0])[1..] == s[1..] + [0];
    }
  }

  // A package's container: where it is, its header's numbers, and the table that they name.
  ghost predicate Container(b: Octets, cnt: nat, magic: nat, table: Octets, count: nat) {
    && cnt + 0x80 <= |b| && b[cnt..cnt + 4] == [0x7F, 0x43, 0x4E, 0x54]
    && magic == FromBe(b[cnt + 4..cnt + 8]) && count == FromBe(b[cnt + 0x10..cnt + 0x14])
    && 0 < count <= 2048
    && var at := FromBe(b[cnt + 0x18..cnt + 0x1C]);
      at <= 0x200000 && cnt + at + count * 32 <= |b| && table == b[cnt + at..cnt + at + count * 32]
  }

  /** The file's reader reports a package exactly where there is a container, with the kind its entries make it. */
  lemma FileKind(file: Octets, cnt: nat, magic: nat, table: Octets, count: nat)
    requires |file| >= 0x80 && file[..8] != PartHeader.MAGIC && P.FileContainer(file) == Some(cnt)
    requires Container(file, cnt, magic, table, count)
    ensures var items := FileItems(file, cnt, P.FileNames(file, cnt, table), table, count);
      && P.FileParse(file).Some? && !P.FileParse(file).value.multipart
      && var kind := P.FileParse(file).value.kind;
        && (kind == P.Update <==> IsUpdate(magic, items))
        && (kind == P.Dlc <==> IsDlc(magic, items))
        && (kind == P.Base <==> !IsUpdate(magic, items) && !IsDlc(magic, items))
  {
    hide FromBe, P.KindOf, P.ContentId, P.FileNames, P.FileEntries, FileItems, IsUpdate, IsDlc, FindAll,
         P.FileContainer;
    SubSub(file, cnt, cnt + 0x80, 0, 4);
    SubSub(file, cnt, cnt + 0x80, 4, 8);
    SubSub(file, cnt, cnt + 0x80, 0x10, 0x14);
    SubSub(file, cnt, cnt + 0x80, 0x18, 0x1C);
    var names := P.FileNames(file, cnt, table);
    FileFound(file, cnt, names, table, count);
    KindExactly(magic, FileItems(file, cnt, names, table, count));
  }

  /** So does the buffer's. */
  lemma MemKind(data: Octets, total: nat, cnt: nat, magic: nat, table: Octets, count: nat)
    requires |data| >= 0x80 && data[..8] != PartHeader.MAGIC && P.MemContainer(data, total) == Some(cnt)
    requires Container(data, cnt, magic, table, count)
    ensures var m := P.MemNames(data, cnt, table);
      var items := MemItems(data, cnt, m.0, m.1, table, count);
      && P.MemParse(data, total).Some? && !P.MemParse(data, total).value.multipart
      && var kind := P.MemParse(data, total).value.kind;
        && (kind == P.Update <==> IsUpdate(magic, items))
        && (kind == P.Dlc <==> IsDlc(magic, items))
        && (kind == P.Base <==> !IsUpdate(magic, items) && !IsDlc(magic, items))
  {
    hide FromBe, P.KindOf, P.ContentId, P.MemNames, P.MemEntries, MemItems, IsUpdate, IsDlc, FindAll, P.MemContainer;
    var m := P.MemNames(data, cnt, table);
    MemFound(data, cnt, m.0, m.1, table, count);
    KindExactly(magic, MemItems(data, cnt, m.0, m.1, table, count));
  }

  // --- packages with a single entry ---

  // A container's header with these four octets for its type, an entry of this type, and its content.
  function Head(magic: Octets): Octets
    requires |magic| == 4
  {
    [0x7F, 0x43, 0x4E, 0x54] + (magic + (Zeros(8) + ([0, 0, 0, 1] + (Zeros(4) + ([0, 0, 0, 0x80] + Zeros(100))))))
  }

  function Row(kind: Octets, size: byte): Octets
    requires |kind| == 4
  {
    kind + (Zeros(12) + ([0, 0, 0, 0xA0] + ([0, 0, 0, size] + Zeros(8))))
  }

  function Package(magic: Octets, kind: Octets, content: Octets): Octets
    requires |magic| == 4 && |kind| == 4 && |content| < 256
  {
    Head(magic) + (Row(kind, |content|) + content)
  }

  lemma HeadIs(magic: Octets)
    requires |magic| == 4
    ensures var h := Head(magic);
      && |h| == 0x80 && h[..4] == [0x7F, 0x43, 0x4E, 0x54] && h[4..8] == magic && h[0x10..0x14] == [0, 0, 0, 1]
      && h[0x18..0x1C] == [0, 0, 0, 0x80] && h[0x40] == 0
  {
  }

  lemma RowIs(kind: Octets, size: byte)
    requires |kind| == 4
    ensures var e := Row(kind, size);
      && |e| == 32 && e[0..4] == kind && e[4..8] == [0, 0, 0, 0] && e[16..20] == [0, 0, 0, 0xA0]
      && e[20..24] == [0, 0, 0, size]
  {
  }

  lemma PackageIs(magic: Octets, kind: Octets, content: Octets)
    requires |magic| == 4 && |kind| == 4 && |content| < 256
    ensures var b := Package(magic, kind, content);
      && |b| == 0xA0 + |content| && b[..0x80] == Head(magic) && b[0x80..0xA0] == Row(kind, |content|)
      && b[0xA0..] == content
  {
    hide Head, Row;
    HeadIs(magic);
    RowIs(kind, |content|);
  }

  /** Both readers see one entry in it, without a name. */
  lemma PackageKinds(magic: Octets, kind: Octets, content: Octets, total: nat)
    requires |magic| == 4 && |kind| == 4 && 0 < |content| < 256 && FromBe(kind) != 0x0200
    requires var b := Package(magic, kind, content); total == |b| || total == 0
    ensures var b, k := Package(magic, kind, content),
                        P.KindOf(FromBe(magic), FindAll([Item(FromBe(kind), [], |content|, Some(content))]));
      P.FileParse(b) == P.MemParse(b, total) == Some(P.Parsed([], false, 0, 0, k))
  {
    hide FromBe, P.KindOf, FindAll, Package, P.FileEntries, P.NamesAlike, P.FileNames, P.MemNames, P.TableAlike,
         FileItems, P.FileBody, P.FileContainer, P.MemParse, Row, Head;
    var b, table := Package(magic, kind, content), Row(kind, |content|);
    PackageIs(magic, kind, content);
    RowIs(kind, |content|);
    NoNames(b, table, kind, |content|);
    HeadBody(b, table, magic);
    FileFound(b, 0, None, table, 1);
    OneItem(b, table, kind, content);
    NoPart(b, magic);
    P.ReadersAgree(b, total);
  }

  lemma NoPart(b: Octets, magic: Octets)
    requires |magic| == 4 && |b| >= 0x80 && b[..0x80] == Head(magic)
    ensures b[..8] != PartHeader.MAGIC
  {
    hide Head;
    HeadIs(magic);
    assert b[..8][0] == b[..0x80][..4][0];
  }

  lemma OneItem(b: Octets, table: Octets, kind: Octets, content: Octets)
    requires |kind| == 4 && |content| < 256 && table == Row(kind, |content|) && |b| == 0xA0 + |content|
    requires |table| == 32 && b[0xA0..] == content
    ensures FileItems(b, 0, None, table, 1) == [Item(FromBe(kind), [], |content|, Some(content))]
  {
    hide FromBe, Row;
    RowIs(kind, |content|);
    P.FourOctets(0, 0);
    P.FourOctets(0, 0xA0);
    P.FourOctets(0, |content|);
    assert FileItems(b, 0, None, table, 0) == [] && table[0..32] == table;
    assert b[0xA0..0xA0 + |content|] == content;
  }

  lemma NoNames(b: Octets, table: Octets, kind: Octets, size: byte)
    requires |kind| == 4 && table == Row(kind, size) && FromBe(kind) != 0x0200
    ensures P.FileNames(b, 0, table) == None && P.MemNames(b, 0, table) == (0, 0)
    ensures P.TableAlike(b, 0, table)
  {
    hide FromBe, Row;
    RowIs(kind, size);
    assert P.Names(table, 0) == P.Names(table, 1) == (0, 0);
  }

  lemma HeadBody(b: Octets, table: Octets, magic: Octets)
    requires |magic| == 4 && |b| >= 0xA0 && b[..0x80] == Head(magic) && b[0x80..0xA0] == table && |table| == 32
    requires P.FileNames(b, 0, table) == None && P.TableAlike(b, 0, table)
    ensures P.FileContainer(b) == Some(0) && P.NamesAlike(b, 0)
    ensures P.FileBody(b, 0) ==
      Some(P.Parsed([], false, 0, 0, P.KindOf(FromBe(magic), P.FileEntries(b, 0, None, table, 1))))
  {
    hide FromBe, P.KindOf, P.FileEntries, Head, P.FileNames, P.TableAlike;
    HeadIs(magic);
    P.FourOctets(0, 1);
    P.FourOctets(0, 0x80);
    var h := b[0..0x80];
    assert h == Head(magic) && b[..4] == h[..4] && P.CNT == [0x7F, 0x43, 0x4E, 0x54];
    assert P.ContentId(h[0x40..0x70]) == [];
    assert P.Pread(b, 0, 0x80) == Some(h) && P.Pread(b, 0x80, 32) == Some(table);
  }

  // --- examples ---

  /** A parameter file with one entry, CATEGORY, of two letters. */
  function Sfo(a: byte, b: byte): (r: Octets)
    ensures |r| == 48
  {
    [0, 0x50, 0x53, 0x46] + ([1, 1, 0, 0] + ([36, 0, 0, 0] + ([45, 0, 0, 0] + ([1, 0, 0, 0]
    + ([0, 0, 4, 2] + ([3, 0, 0, 0] + ([4, 0, 0, 0] + ([0, 0, 0, 0]
    + ([67, 65, 84, 69, 71, 79, 82, 89, 0] + [a, b, 0])))))))))
  }

  lemma LowOctets(a: byte)
    ensures FromLe([a, 0, 0, 0]) == a && FromLe([a, 0]) == a
  {
    assert [a, 0, 0, 0][1..] == [0, 0, 0] && [0, 0, 0][1..] == [0, 0] && [0, 0][1..] == [0] && [0][1..] == [];
    assert [a, 0][1..] == [0] && FromLe([]) == 0 && FromLe([0]) == 0 && FromLe([0, 0]) == 0 && FromLe([0, 0, 0]) == 0;
  }

  lemma SfoParts(a: byte, b: byte)
    ensures var s := Sfo(a, b);
      && s[..4] == [0, 0x50, 0x53, 0x46] && s[8..12] == [36, 0, 0, 0] && s[12..16] == [45, 0, 0, 0]
      && s[16..20] == [1, 0, 0, 0]
  {
  }

  lemma SfoRow(a: byte, b: byte)
    ensures var s := Sfo(a, b);
      && s[20..22] == [0, 0] && s[24..28] == [3, 0, 0, 0] && s[32..36] == [0, 0, 0, 0]
      && s[36..] == [67, 65, 84, 69, 71, 79, 82, 89, 0] + [a, b, 0] && s[45..48] == [a, b, 0]
  {
  }

  /** Its category. */
  lemma SfoSays(a: byte, b: byte)
    requires a != 0 && b != 0
    ensures P.SfoCategory(Sfo(a, b)) == [a, b]
  {
    hide FromLe, Sfo, P.SfoEntry;
    var s := Sfo(a, b);
    SfoParts(a, b);
    LowOctets(36);
    LowOctets(45);
    LowOctets(1);
    SfoFirst(a, b);
    assert P.SfoFrom(s, 1, [a, b]) == [a, b];
  }

  lemma SfoFirst(a: byte, b: byte)
    requires a != 0 && b != 0
    ensures P.SfoEntry(Sfo(a, b), 0) == [a, b]
  {
    hide FromLe, Sfo, P.CString;
    var s := Sfo(a, b);
    SfoParts(a, b);
    SfoRow(a, b);
    LowOctets(0);
    LowOctets(3);
    LowOctets(36);
    LowOctets(45);
    var name: Octets := [67, 65, 84, 69, 71, 79, 82, 89];
    assert name == P.Ascii("CATEGORY");
    assert s[36..] == name + ([0] + [a, b, 0]) && s[36..][8] == 0;
    StringIs(s[36..], name);
    assert s[36..][..9] == name + [0];
    StringIs([a, b, 0], [a, b]);
    assert [a, b, 0][..3] == [a, b] + [0];
  }

  /** An add-on whose parameter file says ac is one for both readers. */
  lemma AddOn()
    ensures var b := Package([0, 0, 0, 0], [0, 0, 0x10, 0], Sfo(97, 99));
      P.FileParse(b) == P.MemParse(b, |b|) == Some(P.Parsed([], false, 0, 0, P.Dlc))
  {
    LettersDecide(0, 97, 99);
  }

  /** A base package of an older console, of type 1, is no add-on. */
  lemma OlderBase()
    ensures var b := Package([0, 0, 0, 1], [0, 0, 0x10, 0], Sfo(103, 100));
      P.FileParse(b) == P.MemParse(b, |b|) == Some(P.Parsed([], false, 0, 0, P.Base))
  {
    LettersDecide(1, 103, 100);
  }

  /** One of type 1 with another category is. */
  lemma OlderAddOn()
    ensures var b := Package([0, 0, 0, 1], [0, 0, 0x10, 0], Sfo(120, 120));
      P.FileParse(b) == P.MemParse(b, |b|) == Some(P.Parsed([], false, 0, 0, P.Dlc))
  {
    LettersDecide(1, 120, 120);
  }

  // What two letters in a parameter file make a package without other marks, of type 0 or 1.
  function LetterKind(low: byte, a: byte, b: byte): P.Kind {
    if a == 103 && b == 112 then P.Update
    else if a == 97 && (b == 99 || b == 108) then P.Dlc
    else if (a == 103 && (b == 100 || b == 99)) || (a == 98 && b == 100) || (a == 119 && b == 116) then P.Base
    else if low == 1 then P.Dlc
    else P.Base
  }

  /** Both readers report that kind. */
  lemma LettersDecide(low: byte, a: byte, b: byte)
    requires low < 2 && a != 0 && b != 0
    ensures var p := Package([0, 0, 0, low], [0, 0, 0x10, 0], Sfo(a, b));
      P.FileParse(p) == P.MemParse(p, |p|) == Some(P.Parsed([], false, 0, 0, LetterKind(low, a, b)))
  {
    hide Sfo, FromBe, P.SfoCategory, P.FileParse, P.MemParse, Package, FindAll, P.Starts, P.BaseCategory, P.Ascii;
    var p := Package([0, 0, 0, low], [0, 0, 0x10, 0], Sfo(a, b));
    P.FourOctets(0, low);
    P.FourOctets(0x10, 0);
    PackageKinds([0, 0, 0, low], [0, 0, 0x10, 0], Sfo(a, b), |p|);
    SfoSays(a, b);
    SfoFound(a, b);
    ShortTexts([a, b]);
  }

  lemma SfoFound(a: byte, b: byte)
    requires a != 0 && b != 0 && P.SfoCategory(Sfo(a, b)) == [a, b]
    ensures FindAll([Item(0x1000, [], 48, Some(Sfo(a, b)))]) == P.NOTHING.(sfoCategory := true, category := [a, b])
  {
    hide Sfo, P.SfoCategory, P.ExtractFrom, P.HasAppMetadata;
    var i := Item(0x1000, [], 48, Some(Sfo(a, b)));
    assert [i][..0] == [] && FindAll([i]) == Step(P.NOTHING, i);
  }

  lemma ShortTexts(c: Octets)
    requires |c| == 2
    ensures c != P.Ascii("addcont")
    ensures P.Starts(c, "gp") <==> c == [103, 112]
    ensures P.Starts(c, "ac") <==> c == [97, 99]
    ensures P.Starts(c, "al") <==> c == [97, 108]
    ensures P.BaseCategory(c) <==> c == [103, 100] || c == [98, 100] || c == [103, 99] || c == [119, 116]
  {
    hide P.Starts, P.Ascii;
    Letters(c);
    assert |P.Ascii("addcont")| == 7;
  }

  const GP: Octets := [123, 34, 99, 97, 116, 101, 103, 111, 114, 121, 34, 58, 34, 103, 112, 34, 125]

  /** The text {"category":"gp"}. */
  lemma GpSays()
    ensures P.ExtractFrom(GP, 17, "category", 15, 0) == Some([103, 112])
  {
    hide P.QuotedValue, P.CString, P.StrStr, P.StrChr;
    var pattern := P.Ascii("\"" + "category" + "\"");
    assert "\"" + "category" + "\"" == "\"category\"";
    assert pattern == [34, 99, 97, 116, 101, 103, 111, 114, 121, 34];
    GpFound(pattern);
    GpValue();
  }

  lemma GpFound(pattern: seq<int>)
    requires pattern == [34, 99, 97, 116, 101, 103, 111, 114, 121, 34]
    ensures P.StrStr(GP, 0, pattern) == Some(1) && P.StrChr(GP, 11, P.COLON) == Some(11)
  {
    assert GP[0..10][0] != pattern[0] && GP[1..11] == pattern;
    assert P.StrStr(GP, 1, pattern) == Some(1);
  }

  lemma GpValue()
    ensures P.CString(P.QuotedValue(GP, 13, 17, 15)) == [103, 112]
  {
    assert P.QuotedValue(GP, 15, 17, 13) == [];
    assert P.QuotedValue(GP, 14, 17, 14) == [112] + [];
    assert P.QuotedValue(GP, 13, 17, 15) == [103] + [112];
    assert [103, 112][1..] == [112] && [112][1..] == [];
    assert P.CString([112]) == [112];
  }

  /** A package whose description says gp is an update for both readers. */
  lemma GpUpdate()
    ensures var b := Package([0, 0, 0, 0], [0, 0, 0x20, 0], GP);
      P.FileParse(b) == P.MemParse(b, |b|) == Some(P.Parsed([], false, 0, 0, P.Update))
  {
    hide FromBe, P.FileParse, P.MemParse, Package;
    var p := Package([0, 0, 0, 0], [0, 0, 0x20, 0], GP);
    P.FourOctets(0, 0);
    P.FourOctets(0x20, 0);
    PackageKinds([0, 0, 0, 0], [0, 0, 0x20, 0], GP, |p|);
    GpCategory();
    ShortTexts([103, 112]);
  }

  lemma GpCategory()
    ensures FindAll([Item(0x2000, [], 17, Some(GP))]).category == [103, 112]
  {
    hide P.SfoCategory, P.ExtractFrom, P.HasAppMetadata;
    GpSays();
    var i := Item(0x2000, [], 17, Some(GP));
    assert [i][..0] == [] && FindAll([i]) == Step(P.NOTHING, i);
  }
}

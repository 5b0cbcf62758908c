/** The two readers of package headers: one reads a file piece by piece, the other slices a buffer. */
module PkgParsers {
  import opened Bytes
  import PartHeader
  import opened Wrappers

  datatype Kind = Base | Update | Dlc

  // What both readers report.
  datatype Parsed = Parsed(contentId: Octets, multipart: bool, partIndex: nat, totalParts: nat, kind: Kind)

  function Ascii(s: string): (r: seq<int>)
    ensures |r| == |s|
  {
    seq(|s|, i requires 0 <= i < |s| => s[i] as int)
  }

  /** The C string that begins a buffer: what comes before the first NUL. */
  function CString(b: Octets): (r: Octets)
    ensures r <= b && 0 !in r && (|r| < |b| ==> b[|r|] == 0)
  {
    if b == [] || b[0] == 0 then [] else [b[0]] + CString(b[1..])
  }

  const CNT := [0x7F, 0x43, 0x4E, 0x54]
  const FIH := [0x7F, 0x46, 0x49, 0x48]

  // --- the application's description as JSON ---

  /** strstr from position p: the text ends at the first NUL or with the buffer. */
  function StrStr(view: Octets, p: nat, pattern: seq<int>): (r: Option<nat>)
    requires p <= |view| && pattern != []
    ensures r.Some? ==> p <= r.value && r.value + |pattern| <= |view|
    decreases |view| - p
  {
    if p + |pattern| <= |view| && view[p..p + |pattern|] == pattern then Some(p)
    else if p == |view| || view[p] == 0 then None
    else StrStr(view, p + 1, pattern)
  }

  function StrChr(view: Octets, p: nat, c: byte): (r: Option<nat>)
    requires p <= |view|
    ensures r.Some? ==> p <= r.value < |view|
    decreases |view| - p
  {
    if p == |view| then None
    else if view[p] == c then Some(p)
    else if view[p] == 0 then None
    else StrChr(view, p + 1, c)
  }

  predicate IsSpace(b: byte) {
    b == 32 || 9 <= b <= 13
  }

  function SkipSpace(view: Octets, q: nat, len: nat): (r: nat)
    requires q <= len <= |view|
    ensures q <= r <= len
    decreases len - q
  {
    if q < len && IsSpace(view[q]) then SkipSpace(view, q + 1, len) else q
  }

  const QUOTE: byte := 34
  const BACKSLASH: byte := 92
  const COLON: byte := 58

  /** A quoted value from q on, backslashes taken out, cut to room bytes. */
  function QuotedValue(view: Octets, q: nat, len: nat, room: nat): Octets
    requires q <= len <= |view|
    decreases len - q
  {
    if q == len || view[q] == QUOTE then []
    else
      var at := if view[q] == BACKSLASH && q + 1 < len then q + 1 else q;
      if room == 0 then QuotedValue(view, at + 1, len, 0)
      else [view[at]] + QuotedValue(view, at + 1, len, room - 1)
  }

  /** json_extract_key from position p; len is where the caller says the text ends. */
  function ExtractFrom(view: Octets, len: nat, key: string, room: nat, p: nat): Option<Octets>
    requires len <= |view| && p <= |view|
    decreases |view| - p
  {
    var pattern := Ascii("\"" + key + "\"");
    if p >= len then None
    else
      match StrStr(view, p, pattern)
      case None => None
      case Some(found) =>
        if found >= len then None
        else
          match StrChr(view, found + |pattern|, COLON)
          case None => None
          case Some(colon) =>
            if colon >= len then None
            else
              var q := SkipSpace(view, colon + 1, len);
              if q < len && view[q] == QUOTE then Some(CString(QuotedValue(view, q + 1, len, room)))
              else ExtractFrom(view, len, key, room, found + |pattern|)
  }

  predicate Occurs(b: Octets, pattern: seq<int>, i: nat) {
    i + |pattern| <= |b| && b[i..i + |pattern|] == pattern
  }

  /** json_has_key. */
  predicate HasKey(json: Octets, key: string) {
    exists i :: 0 <= i <= |json| && Occurs(json, Ascii("\"" + key + "\""), i)
  }

  predicate HasAppMetadata(json: Octets) {
    HasKey(json, "applicationDrmType") || HasKey(json, "applicationCategoryType") || HasKey(json, "contentBadgeType")
  }

  lemma {:induction false} StrStrLocal(view: Octets, len: nat, p: nat, pattern: seq<int>)
    requires p <= len <= |view| && pattern != []
    ensures var full, cut := StrStr(view, p, pattern), StrStr(view[..len], p, pattern);
      && (cut.Some? ==> full == cut)
      && (full.Some? && full.value + |pattern| <= len ==> cut == full)
    decreases len - p
  {
    var cut := view[..len];
    if p + |pattern| <= len {
      assert cut[p..p + |pattern|] == view[p..p + |pattern|];
    }
    if p < len {
      StrStrLocal(view, len, p + 1, pattern);
    }
  }

  lemma {:induction false} StrChrLocal(view: Octets, len: nat, p: nat, c: byte)
    requires p <= len <= |view|
    ensures var full, cut := StrChr(view, p, c), StrChr(view[..len], p, c);
      && (cut.Some? ==> full == cut)
      && (full.Some? && full.value < len ==> cut == full)
    decreases len - p
  {
    if p < len {
      StrChrLocal(view, len, p + 1, c);
    }
  }

  lemma {:induction false} ValueLocal(view: Octets, len: nat, q: nat, room: nat)
    requires q <= len <= |view|
    ensures SkipSpace(view, q, len) == SkipSpace(view[..len], q, len)
    ensures QuotedValue(view, q, len, room) == QuotedValue(view[..len], q, len, room)
    decreases len - q
  {
    if q < len {
      ValueLocal(view, len, q + 1, room);
      ValueLocal(view, len, q + 1, if room == 0 then 0 else room - 1);
      if q + 1 < len {
        ValueLocal(view, len, q + 2, if room == 0 then 0 else room - 1);
      }
    }
  }

  /** Searching past the end of the text, without a NUL there, finds nothing more and misses nothing. */
  lemma {:induction false} ExtractLocal(view: Octets, len: nat, key: string, room: nat, p: nat)
    requires p <= len <= |view|
    ensures ExtractFrom(view, len, key, room, p) == ExtractFrom(view[..len], len, key, room, p)
    decreases len - p
  {
    hide Ascii, QuotedValue, SkipSpace, StrStr, StrChr, CString;
    var pattern := Ascii("\"" + key + "\"");
    var cut := view[..len];
    StrStrLocal(view, len, p, pattern);
    var found := StrStr(view, p, pattern);
    if p < len && found.Some? && found.value + |pattern| <= len {
      StrChrLocal(view, len, found.value + |pattern|, COLON);
      var colon := StrChr(view, found.value + |pattern|, COLON);
      if colon.Some? && colon.value < len {
        ValueLocal(view, len, colon.value + 1, room);
        var q := SkipSpace(view, colon.value + 1, len);
        if q < len {
          assert cut[q] == view[q];
          ValueLocal(view, len, q + 1, room);
        }
      }
      ExtractLocal(view, len, key, room, found.value + |pattern|);
    }
  }

  // --- the category in an older package's parameter file ---

  function Le32(b: Octets, at: nat): (v: nat)
    requires at + 4 <= |b|
  {
    FromLe(b[at..at + 4])
  }

  function Be32(b: Octets, at: nat): (v: nat)
    requires at + 4 <= |b|
  {
    FromBe(b[at..at + 4])
  }

  const CATEGORY_SIZE: nat := 16
  const SFO_MAGIC := [0, 0x50, 0x53, 0x46]

  predicate SfoUsable(sfo: Octets) {
    && |sfo| >= 20 && sfo[..4] == SFO_MAGIC
    && Le32(sfo, 8) < |sfo| && Le32(sfo, 12) < |sfo| && Le32(sfo, 16) <= 1024
  }

  /** What entry i offers as a category: nothing if it is out of range or has another key. */
  function SfoEntry(sfo: Octets, i: nat): Octets
    requires |sfo| >= 20 && 20 + (i + 1) * 16 <= |sfo|
  {
    var e := 20 + i * 16;
    var key := Le32(sfo, 8) + FromLe(sfo[e..e + 2]);
    var size, offset, table := Le32(sfo, e + 4), Le32(sfo, e + 12), Le32(sfo, 12);
    if key >= |sfo| || 0 !in sfo[key..] || table + offset + size > |sfo| then []
    else if CString(sfo[key..]) != Ascii("CATEGORY") then []
    else CString(sfo[table + offset..table + offset + Min(size, CATEGORY_SIZE - 1)])
  }

  /** The category after entries i and up, given the one found so far: the first that is not empty. */
  function SfoFrom(sfo: Octets, i: nat, sofar: Octets): Octets
    requires SfoUsable(sfo) && i <= Le32(sfo, 16)
    decreases Le32(sfo, 16) - i
  {
    if i == Le32(sfo, 16) || 20 + (i + 1) * 16 > |sfo| then sofar
    else SfoFrom(sfo, i + 1, if sofar == [] then SfoEntry(sfo, i) else sofar)
  }

  function SfoCategory(sfo: Octets): Octets {
    if SfoUsable(sfo) then SfoFrom(sfo, 0, []) else []
  }

  /** pkg_parser_parse_param_sfo, as far as the category is concerned. */
  method ParseSfo(sfo: Octets) returns (category: Octets)
    ensures category == SfoCategory(sfo)
  {
    hide SfoEntry, Le32;
    category := [];
    if !SfoUsable(sfo) {
      return;
    }
    var count, i := Le32(sfo, 16), 0;
    while i < count && 20 + (i + 1) * 16 <= |sfo|
      invariant i <= count && SfoFrom(sfo, i, category) == SfoCategory(sfo)
    {
      if category == [] {
        category := SfoEntry(sfo, i);
      }
      i := i + 1;
    }
  }

  // --- what the entries say together ---

  datatype Findings = Findings(playgo: bool, delta: bool, appMetadata: bool, sfoCategory: bool, category: Octets)

  const NOTHING := Findings(false, false, false, false, [])

  function Marked(s: Findings, kind: nat, name: Octets): Findings {
    s.(playgo := s.playgo || kind == 0x1008 || name == Ascii("app/playgo-chunk.dat"),
       delta := s.delta || kind == 0x0407 || kind == 0x0408 || name == Ascii("target-deltainfo.dat")
                || name == Ascii("origin-deltainfo.dat"))
  }

  const PARAM_LIMIT: nat := 262144

  predicate IsJson(kind: nat, name: Octets, size: nat) {
    (kind == 0x2000 || name == Ascii("param.json")) && 0 < size < PARAM_LIMIT
  }

  predicate IsSfo(kind: nat, name: Octets, size: nat) {
    (kind == 0x1000 || name == Ascii("param.sfo")) && 0 < size < PARAM_LIMIT
  }

  function WithJson(s: Findings, metadata: bool, category: Option<Octets>): Findings {
    s.(appMetadata := s.appMetadata || metadata,
       category := if s.category == [] && category.Some? then category.value else s.category)
  }

  function WithSfo(s: Findings, category: Octets): Findings {
    if category != [] && s.category == [] then s.(sfoCategory := true, category := category) else s
  }

  predicate Starts(category: Octets, two: string) {
    Ascii(two) <= category
  }

  predicate BaseCategory(c: Octets) {
    Starts(c, "gd") || Starts(c, "bd") || Starts(c, "gc") || Starts(c, "wt")
  }

  /** Which kind of package the marks, the category and the container's type make it. */
  function KindOf(magic: nat, s: Findings): Kind {
    if s.playgo || s.delta || magic % 0x100 == 0x1E || magic / 0x100_0000 == 0x41 || Starts(s.category, "gp")
    then Update
    else if Starts(s.category, "ac") || Starts(s.category, "al") || s.category == Ascii("addcont") then Dlc
    else if s.sfoCategory && BaseCategory(s.category) then Base
    else if magic % 0x100 == 1 && !s.appMetadata then Dlc
    else Base
  }

  /** The printable beginning of the 48 bytes of a content id. */
  function ContentId(b: Octets): Octets {
    if b == [] || b[0] < 32 || b[0] > 126 then [] else [b[0]] + ContentId(b[1..])
  }

  function Multipart(h: PartHeader.Header): Parsed
    requires |h.pkgType| == 16 && |h.contentId| == 64
  {
    var kind := CString(h.pkgType[..15]);
    Parsed(CString(h.contentId[..63]), true, h.partIndex, h.totalParts,
           if kind == Ascii("update") then Update else if kind == Ascii("dlc") then Dlc else Base)
  }

  // --- reading a file ---

  const WINDOW: nat := 0x200
  const CNT_HEADER: nat := 0x80
  const ENTRY: nat := 32

  /** pread: all of the bytes asked for, or nothing usable. */
  function Pread(file: Octets, offset: nat, n: nat): (r: Option<Octets>)
    ensures r.Some? ==> |r.value| == n
  {
    if offset + n <= |file| then Some(file[offset..offset + n]) else None
  }

  predicate FileCnt(file: Octets, offset: nat) {
    Pread(file, offset, 4) == Some(CNT)
  }

  /** The scan of the header window, from position off on. */
  function FileScan(file: Octets, off: nat): Option<nat>
    decreases WINDOW - off
  {
    if off + 8 > Min(WINDOW, |file|) then None
    else
      var cand := FromLe(file[off..off + 8]);
      if cand >= 0x10000 && cand < |file| && cand % 0x1000 == 0 && FileCnt(file, cand) then Some(cand)
      else FileScan(file, off + 8)
  }

  function FileContainer(file: Octets): Option<nat>
    requires |file| >= CNT_HEADER
  {
    if file[..4] == CNT then Some(0)
    else if file[..4] != FIH then None
    else
      var cand := FromLe(file[0x58..0x60]);
      if 0 < cand < |file| && FileCnt(file, cand) then Some(cand) else FileScan(file, 0x10)
  }

  // Where the names are: offset and size, from the first entry of type 0x0200.
  function Names(table: Octets, i: nat): (nat, nat)
    requires i * ENTRY <= |table|
    decreases |table| - i * ENTRY
  {
    if (i + 1) * ENTRY > |table| then (0, 0)
    else if Be32(table, i * ENTRY) == 0x0200 then (Be32(table, i * ENTRY + 16), Be32(table, i * ENTRY + 20))
    else Names(table, i + 1)
  }

  predicate NamesUsable(size: nat) {
    0 < size < 65536
  }

  function FileNames(file: Octets, cnt: nat, table: Octets): Option<Octets> {
    var where := Names(table, 0);
    if NamesUsable(where.1) then Pread(file, cnt + where.0, where.1) else None
  }

  /** An entry's name: up to the first NUL, one being added behind the table. */
  function FileName(names: Option<Octets>, offset: nat): Octets {
    if names.Some? && offset < |names.value| then CString(names.value[offset..]) else []
  }

  function FileEntry(file: Octets, cnt: nat, names: Option<Octets>, e: Octets, s: Findings): Findings
    requires |e| == ENTRY
  {
    var kind, name := Be32(e, 0), FileName(names, Be32(e, 4));
    var offset, size := cnt + Be32(e, 16), Be32(e, 20);
    var s1 := Marked(s, kind, name);
    var json := Pread(file, offset, size);
    var s2 :=
      if IsJson(kind, name, size) && json.Some?
      then WithJson(s1, HasAppMetadata(json.value), ExtractFrom(json.value, size, "category", CATEGORY_SIZE - 1, 0))
      else s1;
    if IsSfo(kind, name, size) && json.Some? then WithSfo(s2, SfoCategory(json.value)) else s2
  }

  function FileEntries(file: Octets, cnt: nat, names: Option<Octets>, table: Octets, n: nat): Findings
    requires n * ENTRY <= |table|
  {
    if n == 0 then NOTHING
    else FileEntry(file, cnt, names, table[(n - 1) * ENTRY..n * ENTRY], FileEntries(file, cnt, names, table, n - 1))
  }

  function FileBody(file: Octets, cnt: nat): Option<Parsed> {
    var header := Pread(file, cnt, CNT_HEADER);
    if header.None? || header.value[..4] != CNT then None
    else
      var h := header.value;
      var count, at := Be32(h, 0x10), cnt + Be32(h, 0x18);
      if count == 0 || count > 2048 || Be32(h, 0x18) > 0x200000 then None
      else
        match Pread(file, at, count * ENTRY)
        case None => None
        case Some(table) =>
          var names := FileNames(file, cnt, table);
          Some(Parsed(ContentId(h[0x40..0x70]), false, 0, 0,
                      KindOf(Be32(h, 4), FileEntries(file, cnt, names, table, count))))
  }

  /** pkg_parser_parse on a local file's bytes. */
  function FileParse(file: Octets): Option<Parsed> {
    if |file| < CNT_HEADER then None
    else if file[..8] == PartHeader.MAGIC && PartHeader.ReadHeader(file).Valid? then
      Some(Multipart(PartHeader.ReadHeader(file).header))
    else
      match FileContainer(file)
      case None => None
      case Some(cnt) => FileBody(file, cnt)
  }

  // --- slicing a buffer ---

  /** mem_slice: may the n bytes at offset be used? */
  predicate Slice(data: Octets, offset: nat, n: nat) {
    n > 0 && offset <= |data| && n <= |data| && offset <= |data| - n
  }

  predicate MemCnt(data: Octets, offset: nat) {
    Slice(data, offset, 4) && data[offset..offset + 4] == CNT
  }

  predicate Plausible(cand: nat, total: nat) {
    total == 0 || cand < total
  }

  function MemScan(data: Octets, total: nat, off: nat): Option<nat>
    decreases WINDOW - off
  {
    if off + 8 > (if |data| < WINDOW then |data| else WINDOW) then None
    else
      var cand := FromLe(data[off..off + 8]);
      if cand >= 0x10000 && Plausible(cand, total) && cand % 0x1000 == 0 && MemCnt(data, cand) then Some(cand)
      else MemScan(data, total, off + 8)
  }

  function MemContainer(data: Octets, total: nat): Option<nat>
    requires |data| >= CNT_HEADER
  {
    if data[..4] == CNT then Some(0)
    else if data[..4] != FIH then None
    else
      var cand := FromLe(data[0x58..0x60]);
      if cand > 0 && Plausible(cand, total) && MemCnt(data, cand) then Some(cand) else MemScan(data, total, 0x10)
  }

  /** Where the names lie in the buffer; none at all if they are not usable. */
  function MemNames(data: Octets, cnt: nat, table: Octets): (r: (nat, nat))
    ensures r.0 + r.1 <= |data|
  {
    var where := Names(table, 0);
    if NamesUsable(where.1) && Slice(data, cnt + where.0, where.1) then (cnt + where.0, where.1) else (0, 0)
  }

  const NAME_BUFFER: nat := 128

  /** An entry's name: one byte more than its length is copied into a small zeroed buffer, if it fits. */
  function MemName(data: Octets, at: nat, size: nat, offset: nat): Octets
    requires at + size <= |data|
  {
    if offset >= size then []
    else
      var n := |CString(data[at + offset..at + size])|;
      if n >= NAME_BUFFER then [] else CString(ReadAt(data, at + offset, n + 1))
  }

  function MemEntry(data: Octets, cnt: nat, at: nat, size: nat, e: Octets, s: Findings): Findings
    requires |e| == ENTRY && at + size <= |data|
  {
    var kind, name := Be32(e, 0), MemName(data, at, size, Be32(e, 4));
    var offset, n := cnt + Be32(e, 16), Be32(e, 20);
    var s1 := Marked(s, kind, name);
    var s2 :=
      if IsJson(kind, name, n) && Slice(data, offset, n)
      then WithJson(s1, HasAppMetadata(data[offset..offset + n]),
                    ExtractFrom(data[offset..], n, "category", CATEGORY_SIZE - 1, 0))
      else s1;
    if IsSfo(kind, name, n) && Slice(data, offset, n) then WithSfo(s2, SfoCategory(data[offset..offset + n])) else s2
  }

  function MemEntries(data: Octets, cnt: nat, at: nat, size: nat, table: Octets, n: nat): Findings
    requires n * ENTRY <= |table| && at + size <= |data|
  {
    if n == 0 then NOTHING
    else MemEntry(data, cnt, at, size, table[(n - 1) * ENTRY..n * ENTRY], MemEntries(data, cnt, at, size, table, n - 1))
  }

  function MemBody(data: Octets, cnt: nat): Option<Parsed> {
    if !Slice(data, cnt, CNT_HEADER) || data[cnt..cnt + 4] != CNT || !Slice(data, cnt + 0x40, 48) then None
    else
      var count, at := Be32(data, cnt + 0x10), cnt + Be32(data, cnt + 0x18);
      if count == 0 || count > 2048 || Be32(data, cnt + 0x18) > 0x200000 || !Slice(data, at, count * ENTRY) then None
      else
        var table := data[at..at + count * ENTRY];
        var names := MemNames(data, cnt, table);
        Some(Parsed(ContentId(data[cnt + 0x40..cnt + 0x70]), false, 0, 0,
                    KindOf(Be32(data, cnt + 4), MemEntries(data, cnt, names.0, names.1, table, count))))
  }

  /** pkg_parser_parse_mem. */
  function MemParse(data: Octets, total: nat): Option<Parsed> {
    if !Slice(data, 0, CNT_HEADER) then None
    else if data[..8] == PartHeader.MAGIC then
      if Slice(data, 0, PartHeader.HEADER_SIZE) && PartHeader.IsValid(PartHeader.Unpack(data))
      then Some(Multipart(PartHeader.Unpack(data))) else None
    else
      match MemContainer(data, total)
      case None => None
      case Some(cnt) => MemBody(data, cnt)
  }

  // --- the program ---

  method ReadQuoted(view: Octets, start: nat, len: nat, room: nat) returns (out: Octets)
    requires start <= len <= |view|
    ensures out == QuotedValue(view, start, len, room)
  {
    out := [];
    var q := start;
    while q < len && view[q] != QUOTE
      invariant start <= q <= len && |out| <= room
      invariant out + QuotedValue(view, q, len, room - |out|) == QuotedValue(view, start, len, room)
      decreases len - q
    {
      if view[q] == BACKSLASH && q + 1 < len {
        q := q + 1;
      }
      if |out| < room {
        out := out + [view[q]];
      }
      q := q + 1;
    }
  }

  /** json_extract_key. */
  method ExtractKey(view: Octets, len: nat, key: string, room: nat) returns (out: Option<Octets>)
    requires len <= |view|
    ensures out == ExtractFrom(view, len, key, room, 0)
  {
    hide StrStr, StrChr, QuotedValue, CString, Ascii, SkipSpace;
    var pattern := Ascii("\"" + key + "\"");
    var p := 0;
    while p < len
      invariant p <= |view|
      invariant ExtractFrom(view, len, key, room, p) == ExtractFrom(view, len, key, room, 0)
    {
      var found := StrStr(view, p, pattern);
      if found.None? || found.value >= len {
        return None;
      }
      var colon := StrChr(view, found.value + |pattern|, COLON);
      if colon.None? || colon.value >= len {
        return None;
      }
      var q := SkipSpace(view, colon.value + 1, len);
      if q < len && view[q] == QUOTE {
        var value := ReadQuoted(view, q + 1, len, room);
        return Some(CString(value));
      }
      p := found.value + |pattern|;
    }
    out := None;
  }

  method ReadContentId(b: Octets) returns (id: Octets)
    ensures id == ContentId(b)
  {
    var i := 0;
    while i < |b| && 32 <= b[i] <= 126
      invariant i <= |b| && b[..i] + ContentId(b[i..]) == ContentId(b)
    {
      assert b[i..][1..] == b[i + 1..];
      i := i + 1;
    }
    id := b[..i];
  }

  method FindNames(table: Octets, count: nat) returns (offset: nat, size: nat)
    requires |table| == count * ENTRY
    ensures (offset, size) == Names(table, 0)
  {
    hide Be32;
    var i := 0;
    while i < count
      invariant i <= count && Names(table, i) == Names(table, 0)
    {
      if Be32(table, i * ENTRY) == 0x0200 {
        return Be32(table, i * ENTRY + 16), Be32(table, i * ENTRY + 20);
      }
      i := i + 1;
    }
    return 0, 0;
  }

  method FindFileContainer(file: Octets) returns (cnt: Option<nat>)
    requires |file| >= CNT_HEADER
    ensures cnt == FileContainer(file)
  {
    hide FromLe, FileCnt;
    if file[..4] == CNT {
      return Some(0);
    }
    if file[..4] != FIH {
      return None;
    }
    var cand := FromLe(file[0x58..0x60]);
    if 0 < cand < |file| && FileCnt(file, cand) {
      return Some(cand);
    }
    var off := 0x10;
    while off + 8 <= Min(WINDOW, |file|)
      invariant FileScan(file, off) == FileScan(file, 0x10)
    {
      cand := FromLe(file[off..off + 8]);
      if cand >= 0x10000 && cand < |file| && cand % 0x1000 == 0 && FileCnt(file, cand) {
        return Some(cand);
      }
      off := off + 8;
    }
    cnt := None;
  }

  method FindMemContainer(data: Octets, total: nat) returns (cnt: Option<nat>)
    requires |data| >= CNT_HEADER
    ensures cnt == MemContainer(data, total)
  {
    hide FromLe, MemCnt;
    if data[..4] == CNT {
      return Some(0);
    }
    if data[..4] != FIH {
      return None;
    }
    var cand := FromLe(data[0x58..0x60]);
    if cand > 0 && Plausible(cand, total) && MemCnt(data, cand) {
      return Some(cand);
    }
    var scanEnd := if |data| < WINDOW then |data| else WINDOW;
    var off := 0x10;
    while off + 8 <= scanEnd
      invariant MemScan(data, total, off) == MemScan(data, total, 0x10)
    {
      cand := FromLe(data[off..off + 8]);
      if cand >= 0x10000 && Plausible(cand, total) && cand % 0x1000 == 0 && MemCnt(data, cand) {
        return Some(cand);
      }
      off := off + 8;
    }
    cnt := None;
  }

  /** pkg_parser_parse on a local file's bytes. */
  method ParseFile(file: Octets) returns (out: Option<Parsed>)
    ensures out == FileParse(file)
  {
    hide FileContainer, FileEntry, FileNames, KindOf, ContentId, Multipart, Names, FromBe;
    if |file| < CNT_HEADER {
      return None;
    }
    if file[..8] == PartHeader.MAGIC && PartHeader.ReadHeader(file).Valid? {
      return Some(Multipart(PartHeader.ReadHeader(file).header));
    }
    var cnt := FindFileContainer(file);
    if cnt.None? {
      return None;
    }
    out := ParseFileBody(file, cnt.value);
  }

  method ParseFileBody(file: Octets, cnt: nat) returns (out: Option<Parsed>)
    ensures out == FileBody(file, cnt)
  {
    hide FileEntry, KindOf, ContentId, Names, FromBe;
    var header := Pread(file, cnt, CNT_HEADER);
    if header.None? || header.value[..4] != CNT {
      return None;
    }
    var h := header.value;
    var contentId := ReadContentId(h[0x40..0x70]);
    var count, at := Be32(h, 0x10), Be32(h, 0x18);
    if count == 0 || count > 2048 || at > 0x200000 {
      return None;
    }
    var read := Pread(file, cnt + at, count * ENTRY);
    if read.None? {
      return None;
    }
    var table := read.value;
    var offset, size := FindNames(table, count);
    var names: Option<Octets> := None;
    if NamesUsable(size) {
      names := Pread(file, cnt + offset, size);
    }
    var s, i := NOTHING, 0;
    while i < count
      invariant i <= count && s == FileEntries(file, cnt, names, table, i)
    {
      s := FileEntry(file, cnt, names, table[i * ENTRY..(i + 1) * ENTRY], s);
      i := i + 1;
    }
    out := Some(Parsed(contentId, false, 0, 0, KindOf(Be32(h, 4), s)));
  }

  method ParseMemBody(data: Octets, cnt: nat) returns (out: Option<Parsed>)
    ensures out == MemBody(data, cnt)
  {
    hide MemEntry, KindOf, ContentId, Names, FromBe;
    if !Slice(data, cnt, CNT_HEADER) || data[cnt..cnt + 4] != CNT || !Slice(data, cnt + 0x40, 48) {
      return None;
    }
    var contentId := ReadContentId(data[cnt + 0x40..cnt + 0x70]);
    var count, at := Be32(data, cnt + 0x10), cnt + Be32(data, cnt + 0x18);
    if count == 0 || count > 2048 || Be32(data, cnt + 0x18) > 0x200000 || !Slice(data, at, count * ENTRY) {
      return None;
    }
    var table := data[at..at + count * ENTRY];
    var offset, size := FindNames(table, count);
    var start, length := 0, 0;
    if NamesUsable(size) && Slice(data, cnt + offset, size) {
      start, length := cnt + offset, size;
    }
    var s, i := NOTHING, 0;
    while i < count
      invariant i <= count && s == MemEntries(data, cnt, start, length, table, i)
    {
      s := MemEntry(data, cnt, start, length, table[i * ENTRY..(i + 1) * ENTRY], s);
      i := i + 1;
    }
    out := Some(Parsed(contentId, false, 0, 0, KindOf(Be32(data, cnt + 4), s)));
  }

  /** pkg_parser_parse_mem. */
  method ParseMem(data: Octets, total: nat) returns (out: Option<Parsed>)
    ensures out == MemParse(data, total)
  {
    hide MemContainer, MemBody, Multipart;
    if !Slice(data, 0, CNT_HEADER) {
      return None;
    }
    if data[..8] == PartHeader.MAGIC {
      if !Slice(data, 0, PartHeader.HEADER_SIZE) || !PartHeader.IsValid(PartHeader.Unpack(data)) {
        return None;
      }
      return Some(Multipart(PartHeader.Unpack(data)));
    }
    var cnt := FindMemContainer(data, total);
    if cnt.None? {
      return None;
    }
    out := ParseMemBody(data, cnt.value);
  }

  // --- the two readers agree ---

  predicate WholeSize(file: Octets, total: nat) {
    total == |file| || total == 0
  }

  lemma {:induction false} SameScan(file: Octets, total: nat, off: nat)
    requires WholeSize(file, total)
    ensures FileScan(file, off) == MemScan(file, total, off)
    decreases WINDOW - off
  {
    hide FileCnt, FromLe;
    if off + 8 <= Min(WINDOW, |file|) {
      CntInside(file, FromLe(file[off..off + 8]));
      SameScan(file, total, off + 8);
    }
  }

  lemma CntInside(file: Octets, c: nat)
    ensures FileCnt(file, c) <==> MemCnt(file, c)
    ensures MemCnt(file, c) ==> c < |file|
  {
  }

  lemma SameContainer(file: Octets, total: nat)
    requires WholeSize(file, total) && |file| >= CNT_HEADER
    ensures FileContainer(file) == MemContainer(file, total)
  {
    hide FileCnt, MemCnt, FileScan, MemScan, FromLe;
    SameScan(file, total, 0x10);
    CntInside(file, FromLe(file[0x58..0x60]));
  }

  // The names the readers look for.
  predicate Known(name: Octets) {
    name == Ascii("app/playgo-chunk.dat") || name == Ascii("target-deltainfo.dat")
    || name == Ascii("origin-deltainfo.dat") || name == Ascii("param.json") || name == Ascii("param.sfo")
  }

  lemma KnownShort(name: Octets)
    ensures Known(name) ==> 0 < |name| < NAME_BUFFER
  {
    hide Ascii;
  }

  // Names that compare alike with all of these.
  predicate Alike(a: Octets, b: Octets) {
    a == b || (!Known(a) && !Known(b))
  }

  lemma AlikeNames(a: Octets, b: Octets, kind: nat, size: nat, s: Findings)
    requires Alike(a, b)
    ensures Marked(s, kind, a) == Marked(s, kind, b)
    ensures IsJson(kind, a, size) == IsJson(kind, b, size) && IsSfo(kind, a, size) == IsSfo(kind, b, size)
  {
    hide Ascii;
  }

  // The rest of the name table from a name on, and the byte behind the table, if any.
  function Behind(data: Octets, end: nat): (r: Octets)
    requires end <= |data|
  {
    if end < |data| then [data[end]] else []
  }

  lemma NamesAre(data: Octets, at: nat, size: nat, offset: nat)
    requires at + size <= |data| && offset < size
    ensures var tail := data[at + offset..at + size];
      var n := |CString(tail)|;
      && FileName(Some(data[at..at + size]), offset) == CString(tail)
      && MemName(data, at, size, offset)
         == if n >= NAME_BUFFER then []
            else CString(if n < |tail| then tail[..n + 1] else tail + Behind(data, at + size))
  {
    hide CString, ReadAt, Behind;
    Suffix(data, at, size, offset);
    var tail := data[at + offset..at + size];
    CStringShort(tail);
    Copied(data, at + offset, at + size, |CString(tail)|);
  }

  lemma Suffix(data: Octets, at: nat, size: nat, offset: nat)
    requires at + size <= |data| && offset < size
    ensures data[at..at + size][offset..] == data[at + offset..at + size]
  {
    SubSub(data, at, at + size, offset, size);
  }

  lemma Copied(data: Octets, start: nat, end: nat, n: nat)
    requires start < end <= |data| && n <= end - start
    ensures var tail := data[start..end];
      ReadAt(data, start, n + 1) == if n < |tail| then tail[..n + 1] else tail + Behind(data, end)
  {
    if n < end - start {
      assert data[start..start + n + 1] == data[start..end][..n + 1];
    } else if end < |data| {
      assert data[start..end + 1] == data[start..end] + [data[end]];
    }
  }

  lemma CStringShort(b: Octets)
    ensures CString(b) <= b && 0 !in CString(b)
  {
  }

  /** May both readers see the same name here? It ends in the table, or with the data or a NUL right behind it; or
    * neither what the table has of it, nor that and the next byte, is a name that is looked for. */
  predicate ReadAlike(data: Octets, at: nat, size: nat, offset: nat)
    requires at + size <= |data|
  {
    offset < size ==>
      var tail, end := data[at + offset..at + size], at + size;
      || 0 in tail || end == |data| || data[end] == 0
      || (!Known(tail) && !Known(tail + [data[end]]))
  }

  /** A name compares alike in both readers exactly in these cases. */
  lemma NamesDiffer(data: Octets, at: nat, size: nat, offset: nat)
    requires at + size <= |data|
    ensures
      Alike(FileName(if size == 0 then None else Some(data[at..at + size]), offset), MemName(data, at, size, offset))
      <==> ReadAlike(data, at, size, offset)
  {
    hide CString, FileName, MemName, Known;
    if offset >= size {
      NoName(data, at, size, offset);
    } else {
      NamesAre(data, at, size, offset);
      var tail := data[at + offset..at + size];
      KnownShort(tail);
      KnownShort(CString(tail));
      KnownShort([]);
      if 0 in tail {
        HasNul(tail);
        CutString(tail, |CString(tail)|);
      } else {
        NoNul(tail);
        if at + size == |data| {
          assert tail + Behind(data, at + size) == tail;
        } else {
          NoNulThen(tail, data[at + size]);
          KnownShort(tail + [data[at + size]]);
        }
      }
    }
  }

  lemma NoName(data: Octets, at: nat, size: nat, offset: nat)
    requires at + size <= |data| && offset >= size
    ensures FileName(if size == 0 then None else Some(data[at..at + size]), offset) == []
    ensures MemName(data, at, size, offset) == []
  {
  }

  lemma {:induction false} CutString(b: Octets, n: nat)
    requires n == |CString(b)| < |b|
    ensures CString(b[..n + 1]) == CString(b)
  {
    if b[0] != 0 {
      CutString(b[1..], n - 1);
      assert b[..n + 1][1..] == b[1..][..n];
    }
  }

  lemma HasNul(b: Octets)
    requires 0 in b
    ensures |CString(b)| < |b|
  {
    assert CString(b) == b[..|CString(b)|];
    assert b[..|b|] == b;
  }

  lemma {:induction false} NoNul(b: Octets)
    requires 0 !in b
    ensures CString(b) == b
  {
    if b != [] {
      NoNul(b[1..]);
    }
  }

  lemma {:induction false} NoNulThen(b: Octets, c: byte)
    requires 0 !in b
    ensures CString(b + [c]) == if c == 0 then b else b + [c]
  {
    if c != 0 {
      NoNul(b + [c]);
    } else {
      assert (b + [c])[..|b| + 1] == b + [c];
      NulAfter(b);
    }
  }

  lemma {:induction false} NulAfter(b: Octets)
    requires 0 !in b
    ensures CString(b + [0]) == b
  {
    if b != [] {
      assert (b + [0])[1..] == b[1..] + [0];
      NulAfter(b[1..]);
    }
  }

  lemma SameRead(file: Octets, offset: nat, n: nat)
    requires n > 0
    ensures Pread(file, offset, n) == if Slice(file, offset, n) then Some(file[offset..offset + n]) else None
  {
  }

  lemma SameJson(file: Octets, offset: nat, n: nat)
    requires Slice(file, offset, n)
    ensures ExtractFrom(file[offset..], n, "category", CATEGORY_SIZE - 1, 0)
         == ExtractFrom(file[offset..offset + n], n, "category", CATEGORY_SIZE - 1, 0)
  {
    ExtractLocal(file[offset..], n, "category", CATEGORY_SIZE - 1, 0);
    assert file[offset..][..n] == file[offset..offset + n];
  }

  lemma SameEntry(file: Octets, cnt: nat, names: Option<Octets>, at: nat, size: nat, e: Octets, s: Findings)
    requires |e| == ENTRY && at + size <= |file|
    requires Alike(FileName(names, Be32(e, 4)), MemName(file, at, size, Be32(e, 4)))
    ensures FileEntry(file, cnt, names, e, s) == MemEntry(file, cnt, at, size, e, s)
  {
    hide Marked, IsJson, IsSfo, WithJson, WithSfo, Be32, FileName, MemName, ExtractFrom, HasAppMetadata, SfoCategory,
         Alike, Slice, Pread;
    var kind, o := Be32(e, 0), Be32(e, 4);
    var offset, n := cnt + Be32(e, 16), Be32(e, 20);
    AlikeNames(FileName(names, o), MemName(file, at, size, o), kind, n, s);
    NotEmpty(kind, FileName(names, o), n);
    if n > 0 {
      SameRead(file, offset, n);
      if Slice(file, offset, n) {
        SliceInside(file, offset, n);
        SameJson(file, offset, n);
      }
    }
  }

  lemma SliceInside(data: Octets, offset: nat, n: nat)
    ensures Slice(data, offset, n) ==> offset + n <= |data|
  {
  }

  lemma NotEmpty(kind: nat, name: Octets, size: nat)
    ensures IsJson(kind, name, size) || IsSfo(kind, name, size) ==> size > 0
  {
  }

  // Where the name of entry i begins in the name table.
  function NameOffset(table: Octets, i: nat): nat
    requires (i + 1) * ENTRY <= |table|
  {
    Be32(table, i * ENTRY + 4)
  }

  lemma EntryName(table: Octets, i: nat)
    requires (i + 1) * ENTRY <= |table|
    ensures Be32(table[i * ENTRY..(i + 1) * ENTRY], 4) == NameOffset(table, i)
  {
    hide FromBe;
    SubSub(table, i * ENTRY, (i + 1) * ENTRY, 4, 8);
  }

  lemma {:induction false} SameEntries(file: Octets, cnt: nat, names: Option<Octets>, at: nat, size: nat,
                                       table: Octets, n: nat)
    requires n * ENTRY <= |table| && at + size <= |file|
    requires forall i :: 0 <= i < n ==>
      Alike(FileName(names, NameOffset(table, i)), MemName(file, at, size, NameOffset(table, i)))
    ensures FileEntries(file, cnt, names, table, n) == MemEntries(file, cnt, at, size, table, n)
  {
    hide FileEntry, MemEntry, FileName, MemName, Alike, FromBe;
    if n > 0 {
      EntryName(table, n - 1);
      SameEntries(file, cnt, names, at, size, table, n - 1);
      SameEntry(file, cnt, names, at, size, table[(n - 1) * ENTRY..n * ENTRY],
                FileEntries(file, cnt, names, table, n - 1));
    }
  }

  // Is the name of every entry read alike?
  ghost predicate TableAlike(file: Octets, cnt: nat, table: Octets) {
    var m := MemNames(file, cnt, table);
    forall i {:trigger NameOffset(table, i)} :: 0 <= i && (i + 1) * ENTRY <= |table| ==>
      ReadAlike(file, m.0, m.1, NameOffset(table, i))
  }

  ghost predicate NamesAlike(file: Octets, cnt: nat) {
    var header := Pread(file, cnt, CNT_HEADER);
    header.Some? ==>
      var table := Pread(file, cnt + Be32(header.value, 0x18), Be32(header.value, 0x10) * ENTRY);
      table.Some? ==> TableAlike(file, cnt, table.value)
  }

  /** A name table that ends in a NUL will do. */
  lemma EndedTable(file: Octets, cnt: nat, table: Octets)
    requires var m := MemNames(file, cnt, table); m.1 > 0 ==> file[m.0 + m.1 - 1] == 0
    ensures TableAlike(file, cnt, table)
  {
    hide MemNames, Known, NameOffset;
    var m := MemNames(file, cnt, table);
    forall i | 0 <= i && (i + 1) * ENTRY <= |table|
      ensures ReadAlike(file, m.0, m.1, NameOffset(table, i))
    {
      var o := NameOffset(table, i);
      if o < m.1 {
        var tail := file[m.0 + o..m.0 + m.1];
        assert tail[|tail| - 1] == 0;
      }
    }
  }

  lemma SameTable(file: Octets, cnt: nat, table: Octets, count: nat)
    requires count * ENTRY <= |table| && TableAlike(file, cnt, table)
    ensures var m := MemNames(file, cnt, table);
      FileEntries(file, cnt, FileNames(file, cnt, table), table, count) == MemEntries(file, cnt, m.0, m.1, table, count)
  {
    hide FileEntries, MemEntries, FileName, MemName, Names, Alike, ReadAlike, NameOffset;
    var names, m := FileNames(file, cnt, table), MemNames(file, cnt, table);
    assert names == if m.1 == 0 then None else Some(file[m.0..m.0 + m.1]);
    forall i | 0 <= i < count
      ensures Alike(FileName(names, NameOffset(table, i)), MemName(file, m.0, m.1, NameOffset(table, i)))
    {
      NamesDiffer(file, m.0, m.1, NameOffset(table, i));
    }
    SameEntries(file, cnt, names, m.0, m.1, table, count);
  }

  lemma SameBody(file: Octets, cnt: nat)
    requires NamesAlike(file, cnt)
    ensures FileBody(file, cnt) == MemBody(file, cnt)
  {
    hide FileEntries, MemEntries, KindOf, ContentId, FileNames, MemNames, FromBe, TableAlike;
    SameRead(file, cnt, CNT_HEADER);
    if Slice(file, cnt, CNT_HEADER) {
      var h := file[cnt..cnt + CNT_HEADER];
      SubSub(file, cnt, cnt + CNT_HEADER, 4, 8);
      SubSub(file, cnt, cnt + CNT_HEADER, 0, 4);
      SubSub(file, cnt, cnt + CNT_HEADER, 0x10, 0x14);
      SubSub(file, cnt, cnt + CNT_HEADER, 0x18, 0x1C);
      SubSub(file, cnt, cnt + CNT_HEADER, 0x40, 0x70);
      var count, at := Be32(h, 0x10), cnt + Be32(h, 0x18);
      if count > 0 {
        SameRead(file, at, count * ENTRY);
        if Slice(file, at, count * ENTRY) {
          SameTable(file, cnt, file[at..at + count * ENTRY], count);
        }
      }
    }
  }

  /** Given the whole file, and entries' names that are read alike, both readers report the same. */
  lemma ReadersAgree(file: Octets, total: nat)
    requires WholeSize(file, total)
    requires |file| >= CNT_HEADER && FileContainer(file).Some? ==> NamesAlike(file, FileContainer(file).value)
    ensures FileParse(file) == MemParse(file, total)
  {
    hide FileContainer, MemContainer, FileBody, MemBody, NamesAlike, Multipart;
    if |file| >= CNT_HEADER {
      SameContainer(file, total);
      if FileContainer(file).Some? {
        SameBody(file, FileContainer(file).value);
      }
      if file[..8] == PartHeader.MAGIC {
        NoContainer(file);
      }
    }
  }

  /** A slice's header is no container's. */
  lemma NoContainer(file: Octets)
    requires |file| >= CNT_HEADER && file[..8] == PartHeader.MAGIC
    ensures FileContainer(file) == None
  {
    assert file[..4][0] == file[..8][0];
  }

  // --- a file the readers disagree on ---

  // A container with one entry, whose name, app/playgo-chunk.dat, fills the name table; another byte follows.
  const OVERRUN_NAME: Octets :=
    [0x61, 0x70, 0x70, 0x2F, 0x70, 0x6C, 0x61, 0x79, 0x67, 0x6F, 0x2D, 0x63, 0x68, 0x75, 0x6E, 0x6B, 0x2E, 0x64, 0x61,
     0x74]
  const OVERRUN_ENTRY: Octets := [0, 0, 2, 0] + (Zeros(12) + ([0, 0, 0, 0xA0] + ([0, 0, 0, 20] + Zeros(8))))
  const OVERRUN_HEAD: Octets := CNT + (Zeros(12) + ([0, 0, 0, 1] + (Zeros(4) + ([0, 0, 0, 0x80] + Zeros(100)))))
  const OVERRUN: Octets := OVERRUN_HEAD + (OVERRUN_ENTRY + (OVERRUN_NAME + [1]))

  lemma FourOctets(a: byte, b: byte)
    ensures FromBe([0, 0, a, b]) == 256 * a + b
  {
    assert [0, 0, a, b][..3] == [0, 0, a] && [0, 0, a][..2] == [0, 0] && [0, 0][..1] == [0] && [0][..0] == [];
    assert FromBe([0]) == 0 && FromBe([0, 0]) == 0 && FromBe([0, 0, a]) == a;
  }

  lemma OverrunHead()
    ensures var h := OVERRUN_HEAD;
      && |h| == CNT_HEADER && h[..4] == CNT && h[4..8] == [0, 0, 0, 0] && h[0x10..0x14] == [0, 0, 0, 1]
      && h[0x18..0x1C] == [0, 0, 0, 0x80] && h[0x40] == 0
  {
  }

  lemma OverrunEntry()
    ensures var e := OVERRUN_ENTRY;
      && |e| == ENTRY && e[..4] == [0, 0, 2, 0] && e[4..8] == [0, 0, 0, 0] && e[16..20] == [0, 0, 0, 0xA0]
      && e[20..24] == [0, 0, 0, 20]
  {
  }

  lemma OverrunParts()
    ensures |OVERRUN| == 181 && OVERRUN[..0x80] == OVERRUN_HEAD && OVERRUN[0x80..0xA0] == OVERRUN_ENTRY
    ensures OVERRUN[0xA0..180] == OVERRUN_NAME && OVERRUN[180] == 1
  {
    OverrunHead();
    OverrunEntry();
  }

  lemma OverrunName()
    ensures OVERRUN_NAME == Ascii("app/playgo-chunk.dat") && 0 !in OVERRUN_NAME && |OVERRUN_NAME| == 20
  {
  }

  lemma OverrunNumbers()
    ensures Be32(OVERRUN_HEAD, 4) == 0 && Be32(OVERRUN_HEAD, 0x10) == 1 && Be32(OVERRUN_HEAD, 0x18) == 0x80
    ensures Be32(OVERRUN_ENTRY, 0) == 0x0200 && Be32(OVERRUN_ENTRY, 4) == 0
    ensures Be32(OVERRUN_ENTRY, 16) == 0xA0 && Be32(OVERRUN_ENTRY, 20) == 20
  {
    hide FromBe;
    OverrunHead();
    OverrunEntry();
    FourOctets(0, 0);
    FourOctets(0, 1);
    FourOctets(0, 0x80);
    FourOctets(2, 0);
    FourOctets(0, 0xA0);
    FourOctets(0, 20);
  }

  /** What the file's reader finds in the entry, and what the buffer's does. */
  lemma OverrunFindings()
    ensures FileEntries(OVERRUN, 0, FileNames(OVERRUN, 0, OVERRUN_ENTRY), OVERRUN_ENTRY, 1).playgo
    ensures var m := MemNames(OVERRUN, 0, OVERRUN_ENTRY);
      MemEntries(OVERRUN, 0, m.0, m.1, OVERRUN_ENTRY, 1) == NOTHING
  {
    hide FromBe, CString, Ascii, FileName, MemName;
    OverrunNumbers();
    OverrunParts();
    OverrunName();
    OverrunEntry();
    assert Names(OVERRUN_ENTRY, 0) == (0xA0, 20);
    assert OVERRUN_ENTRY[0..ENTRY] == OVERRUN_ENTRY;
    NamesAre(OVERRUN, 0xA0, 20, 0);
    NoNul(OVERRUN_NAME);
    NoNulThen(OVERRUN_NAME, 1);
    assert MemName(OVERRUN, 0xA0, 20, 0) == OVERRUN_NAME + [1];
    LongerUnknown(OVERRUN_NAME + [1]);
  }

  lemma LongerUnknown(name: Octets)
    requires |name| == 21
    ensures !Known(name)
  {
    hide Ascii;
  }

  /** The whole of it, and the readers report different kinds: the file's sees the mark of an update. */
  lemma OverrunDiffers()
    ensures FileParse(OVERRUN) == Some(Parsed([], false, 0, 0, Update))
    ensures MemParse(OVERRUN, |OVERRUN|) == Some(Parsed([], false, 0, 0, Base))
  {
    hide FromBe, FileEntries, MemEntries, FileNames, MemNames, Ascii;
    OverrunNumbers();
    OverrunParts();
    OverrunHead();
    OverrunFindings();
    var h := OVERRUN_HEAD;
    assert OVERRUN[0..0x80] == h && OVERRUN[..4] == CNT;
    assert ContentId(h[0x40..0x70]) == [];
    assert OVERRUN[..8][0] != PartHeader.MAGIC[0];
    SubSub(OVERRUN, 0, 0x80, 4, 8);
    SubSub(OVERRUN, 0, 0x80, 0x10, 0x14);
    SubSub(OVERRUN, 0, 0x80, 0x18, 0x1C);
    SubSub(OVERRUN, 0, 0x80, 0x40, 0x70);
  }
}

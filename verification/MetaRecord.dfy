/** Cached package metadata: written as a text record, looked up again field by field. */
module MetaRecord {
  import opened Decimal
  import opened JsonText
  import opened Wrappers

  datatype Texts = Texts(
    titleId: string, titleName: string, localizedTitles: string, defaultLanguage: string, contentId: string,
    appVersion: string, typeText: string, category: string, blurhash: string)

  datatype Numbers = Numbers(
    fileSize: nat, totalSize: nat, iconOffset: nat, iconSize: nat, hasIcon: bool, isMultipart: bool,
    partIndex: nat, totalParts: nat, pkgType: int, mtime: nat)

  datatype Meta = Meta(texts: Texts, numbers: Numbers)

  // The C strings and integers of a record, in the sizes its struct gives them.
  predicate Fits(m: Meta) {
    && |m.texts.titleId| < 32 && |m.texts.titleName| < 256 && |m.texts.localizedTitles| < 2048
    && |m.texts.defaultLanguage| < 32 && |m.texts.contentId| < 64 && |m.texts.appVersion| < 32
    && |m.texts.typeText| < 16 && |m.texts.category| < 16 && |m.texts.blurhash| < 64
    && m.numbers.fileSize <= ULL_MAX && m.numbers.totalSize <= ULL_MAX && m.numbers.iconOffset <= ULL_MAX
    && m.numbers.mtime <= ULL_MAX
    && m.numbers.iconSize < 0x1_0000_0000 && m.numbers.partIndex < 0x1_0000_0000 && m.numbers.totalParts < 0x1_0000_0000
    && 0 <= m.numbers.pkgType <= 3
  }

  predicate AllPrintable(t: Texts) {
    && Printable(t.titleId) && Printable(t.titleName) && Printable(t.localizedTitles) && Printable(t.defaultLanguage)
    && Printable(t.contentId) && Printable(t.appVersion) && Printable(t.typeText) && Printable(t.category)
  }

  /** What a record's texts come back as; the hash, of bare characters, is not escaped. */
  function ShownTexts(t: Texts): Texts {
    Texts(Shown(t.titleId), Shown(t.titleName), Shown(t.localizedTitles), Shown(t.defaultLanguage), Shown(t.contentId),
          Shown(t.appVersion), Shown(t.typeText), Shown(t.category), t.blurhash)
  }

  /** The package size as recorded: a missing one is the file's. */
  function Total(m: Meta): nat {
    if m.numbers.totalSize > 0 then m.numbers.totalSize else m.numbers.fileSize
  }

  const INDENT := "  "

  /** The fields in the order they are written. */
  function Fields(m: Meta): (fs: seq<Field>)
    ensures |fs| == 19
  {
    [Text("title_id", m.texts.titleId), Text("title_name", m.texts.titleName),
     Text("localized_titles", m.texts.localizedTitles), Text("default_language", m.texts.defaultLanguage),
     Text("content_id", m.texts.contentId), Text("app_version", m.texts.appVersion),
     Plain("file_size", Print(m.numbers.fileSize)), Plain("total_pkg_size", Print(Total(m))),
     Plain("icon_offset", Print(m.numbers.iconOffset)), Plain("icon_size", Print(m.numbers.iconSize)),
     Plain("has_icon", Flag(m.numbers.hasIcon)), Plain("is_multipart", Flag(m.numbers.isMultipart)),
     Plain("part_index", Print(m.numbers.partIndex)), Plain("total_parts", Print(m.numbers.totalParts)),
     Plain("pkg_type", PrintInt(m.numbers.pkgType)),
     Text("pkg_type_str", m.texts.typeText), Text("category", m.texts.category), Plain("mtime", Print(m.numbers.mtime)),
     Raw("blurhash", m.texts.blurhash)]
  }

  function Record(m: Meta): string {
    "{\n" + Lines(INDENT, Fields(m)) + "}\n"
  }

  function Key(i: nat): (k: string)
    requires i < 19
    ensures k != ""
  {
    if i == 0 then "title_id" else if i == 1 then "title_name" else if i == 2 then "localized_titles"
    else if i == 3 then "default_language" else if i == 4 then "content_id" else if i == 5 then "app_version"
    else if i == 6 then "file_size" else if i == 7 then "total_pkg_size" else if i == 8 then "icon_offset"
    else if i == 9 then "icon_size" else if i == 10 then "has_icon" else if i == 11 then "is_multipart"
    else if i == 12 then "part_index" else if i == 13 then "total_parts" else if i == 14 then "pkg_type"
    else if i == 15 then "pkg_type_str" else if i == 16 then "category" else if i == 17 then "mtime"
    else "blurhash"
  }

  function KeyLength(i: nat): nat {
    if i == 17 then 5 else if i in {0, 10, 14, 16, 18} then 8 else if i in {6, 9} then 9
    else if i in {1, 4, 12} then 10 else if i in {5, 8, 13} then 11 else if i in {11, 15} then 12
    else if i == 7 then 14 else 16
  }

  function KeyStart(i: nat): char {
    if i in {4, 16} then 'c' else if i in {0, 1, 7, 13} then 't' else if i == 2 then 'l' else if i == 3 then 'd'
    else if i == 5 then 'a' else if i == 6 then 'f' else if i in {8, 9, 11} then 'i' else if i == 10 then 'h'
    else if i in {12, 14, 15} then 'p' else if i == 17 then 'm' else 'b'
  }

  lemma KeyShape(i: nat)
    requires i < 19
    ensures |Key(i)| == KeyLength(i) && Key(i)[0] == KeyStart(i)
  {
  }

  lemma KeyLetters(i: nat)
    requires i < 19
    ensures IsKey(Key(i))
  {
    hide Key, IsKey;
    if i < 3 {
      FirstLetters(i);
    } else if i < 7 {
      SecondLetters(i);
    } else if i < 13 {
      MiddleLetters(i);
    } else {
      LastLetters(i);
    }
  }

  lemma FirstLetters(i: nat)
    requires i < 3
    ensures IsKey(Key(i))
  {
  }

  lemma SecondLetters(i: nat)
    requires 3 <= i < 7
    ensures IsKey(Key(i))
  {
  }

  lemma MiddleLetters(i: nat)
    requires 7 <= i < 13
    ensures IsKey(Key(i))
  {
  }

  lemma LastLetters(i: nat)
    requires 13 <= i < 19
    ensures IsKey(Key(i))
  {
  }

  lemma KeysApart(i: nat, j: nat)
    requires i < j < 19
    ensures Key(i) != Key(j)
  {
    hide Key;
    KeyShape(i);
    KeyShape(j);
  }

  lemma FieldKeys(m: Meta, i: nat)
    requires i < 19
    ensures Fields(m)[i].key == Key(i)
  {
  }

  lemma NumberLawful(key: string, n: nat)
    requires IsKey(key)
    ensures Lawful(Plain(key, Print(n))) && Lawful(Plain(key, "-" + Print(n)))
  {
    assert forall c :: c in Print(n) ==> IsDigit(c);
  }

  lemma TextKind(m: Meta, i: nat)
    requires i < 6 || i in {15, 16}
    ensures Fields(m)[i].Text?
  {
  }

  lemma PlainKind(m: Meta, i: nat)
    requires 6 <= i < 15 || i == 17
    ensures Fields(m)[i].Plain? && (PlainText(Fields(m)[i].text))
  {
    hide Print, PlainText, Flag;
    NumberLawful("n", m.numbers.fileSize);
    NumberLawful("n", Total(m));
    NumberLawful("n", m.numbers.iconOffset);
    NumberLawful("n", m.numbers.iconSize);
    FlagLawful("n", m.numbers.hasIcon);
    FlagLawful("n", m.numbers.isMultipart);
    NumberLawful("n", m.numbers.partIndex);
    NumberLawful("n", m.numbers.totalParts);
    NumberLawful("n", if m.numbers.pkgType >= 0 then m.numbers.pkgType else -m.numbers.pkgType);
    NumberLawful("n", m.numbers.mtime);
  }

  lemma FieldLawful(m: Meta, i: nat)
    requires i < 19 && Bare(m.texts.blurhash)
    ensures Lawful(Fields(m)[i])
  {
    hide Fields, Bare, IsKey, PlainText, Key;
    KeyLetters(i);
    FieldKeys(m, i);
    if i < 6 || i in {15, 16} {
      TextKind(m, i);
    } else if i == 18 {
      TextFields(m);
    } else {
      PlainKind(m, i);
    }
  }

  /** Every field is found under its key. */
  lemma Found(m: Meta, i: nat, max: nat)
    requires i < 19 && Bare(m.texts.blurhash) && |Fields(m)[i].text| < max
    ensures Extract(Record(m), Fields(m)[i].key, max) == ReadBack(Fields(m)[i])
  {
    hide Extract, Lines, Lawful, Fields, ReadBack;
    var fs := Fields(m);
    forall j | 0 <= j <= i
      ensures Lawful(fs[j]) && (j < i ==> fs[j].key != fs[i].key)
    {
      FieldLawful(m, j);
      FieldKeys(m, j);
      FieldKeys(m, i);
      if j < i {
        KeysApart(j, i);
      }
    }
    FieldFound(INDENT, fs, i, "}\n", max);
    var text := Lines(INDENT, fs) + "}\n";
    var key := fs[i].key;
    forall k | 0 <= k < 2
      ensures !MatchAt("{\n" + text, Pattern(key), k)
    {
      if MatchAt("{\n" + text, Pattern(key), k) {
        MatchParts("{\n" + text, key, k);
      }
    }
    ExtractSkip("{\n", text, key, max);
    assert Record(m) == "{\n" + text;
  }

  // --- the record fits the reader's buffer ---

  const BUFFER: nat := 8192

  lemma {:induction false} LinesCap(m: Meta, i: nat)
    requires Fits(m) && i <= 19
    ensures |Lines(INDENT, Fields(m)[i..])|
         <= (19 - i) * 160 + (if i <= 1 then 390 else 0) + (if i <= 2 then 3980 else 0)
    decreases 19 - i
  {
    hide Fields, Written;
    if i < 19 {
      var fs := Fields(m);
      LinesCap(m, i + 1);
      assert fs[i..][0] == fs[i] && fs[i..][1..] == fs[i + 1..];
      LineCap(m, i);
    }
  }

  lemma LineCap(m: Meta, i: nat)
    requires i < 19 && Fits(m)
    ensures |Line(INDENT, Fields(m)[i], LineEnd(i == 18))| + 1
         <= 160 + (if i == 1 then 390 else 0) + (if i == 2 then 3980 else 0)
    ensures |LineEnd(false)| == |LineEnd(i == 18)| || i == 18
  {
    hide Fields, Written, Key;
    FieldKeys(m, i);
    KeyShape(i);
    FieldShort(m, i);
    WrittenShort(Fields(m)[i]);
  }

  lemma WrittenShort(f: Field)
    ensures |Written(f)| <= 2 * |f.text| + 2
    ensures f.Plain? ==> |Written(f)| == |f.text|
  {
  }

  /** No field is longer than its array, or than the digits of its integer type. */
  lemma FieldShort(m: Meta, i: nat)
    requires i < 19 && Fits(m)
    ensures |Fields(m)[i].text| <= if i == 1 then 255 else if i == 2 then 2047 else 63
  {
    hide Print, Pow10;
    ULong(m.numbers.fileSize);
    ULong(Total(m));
    ULong(m.numbers.iconOffset);
    ULong(m.numbers.iconSize);
    ULong(m.numbers.partIndex);
    ULong(m.numbers.totalParts);
    ULong(m.numbers.mtime);
    ULong(m.numbers.pkgType);
  }

  lemma ULong(n: nat)
    requires n <= ULL_MAX
    ensures |Print(n)| <= 20
  {
    assert Pow10(10) == 1_0000_0000_00;
    assert Pow10(15) == 1_0000_0000_0000_000;
    assert ULL_MAX < Pow10(20);
    PrintShort(n, 20);
  }

  lemma RecordShort(m: Meta)
    requires Fits(m)
    ensures 0 < |Record(m)| < BUFFER - 1
  {
    LinesCap(m, 0);
    assert Fields(m)[0..] == Fields(m);
  }

  // --- the program ---

  // The fields as they are printed, the texts escaped before.
  function Printed(m: Meta): (fs: seq<Field>)
    ensures |fs| == 19
  {
    [Raw("title_id", Escape(m.texts.titleId)), Raw("title_name", Escape(m.texts.titleName)),
     Raw("localized_titles", Escape(m.texts.localizedTitles)),
     Raw("default_language", Escape(m.texts.defaultLanguage)),
     Raw("content_id", Escape(m.texts.contentId)), Raw("app_version", Escape(m.texts.appVersion)),
     Plain("file_size", Print(m.numbers.fileSize)), Plain("total_pkg_size", Print(Total(m))),
     Plain("icon_offset", Print(m.numbers.iconOffset)), Plain("icon_size", Print(m.numbers.iconSize)),
     Plain("has_icon", Flag(m.numbers.hasIcon)), Plain("is_multipart", Flag(m.numbers.isMultipart)),
     Plain("part_index", Print(m.numbers.partIndex)), Plain("total_parts", Print(m.numbers.totalParts)),
     Plain("pkg_type", PrintInt(m.numbers.pkgType)), Raw("pkg_type_str", Escape(m.texts.typeText)),
     Raw("category", Escape(m.texts.category)), Plain("mtime", Print(m.numbers.mtime)),
     Raw("blurhash", m.texts.blurhash)]
  }

  lemma PrintedEarly(m: Meta, i: nat)
    requires i < 10
    ensures Printed(m)[i].key == Fields(m)[i].key && Written(Printed(m)[i]) == Written(Fields(m)[i])
  {
    hide Escape, Print, PrintInt, Flag;
  }

  lemma PrintedLate(m: Meta, i: nat)
    requires 10 <= i < 19
    ensures Printed(m)[i].key == Fields(m)[i].key && Written(Printed(m)[i]) == Written(Fields(m)[i])
  {
    hide Escape, Print, PrintInt, Flag;
  }

  lemma PrintedSame(m: Meta)
    ensures Lines(INDENT, Printed(m)) == Lines(INDENT, Fields(m))
  {
    hide Printed, Fields, Written, Lines;
    forall i | 0 <= i < 19
      ensures Printed(m)[i].key == Fields(m)[i].key && Written(Printed(m)[i]) == Written(Fields(m)[i])
    {
      if i < 10 {
        PrintedEarly(m, i);
      } else {
        PrintedLate(m, i);
      }
    }
    SameLines(INDENT, Printed(m), Fields(m));
  }

  /** write_meta_json: every text goes through a buffer of its own before it is printed. */
  method WriteMeta(m: Meta) returns (text: string)
    requires Fits(m)
    ensures text == Record(m)
  {
    hide Escape, Lines, Print, PrintInt, Written, Fields;
    var titleId := EscapeJson(m.texts.titleId, 128);
    var titleName := EscapeJson(m.texts.titleName, 512);
    var localized := EscapeJson(m.texts.localizedTitles, 2 * 2048);
    var language := EscapeJson(m.texts.defaultLanguage, 64);
    var contentId := EscapeJson(m.texts.contentId, 256);
    var version := EscapeJson(m.texts.appVersion, 64);
    var typeText := EscapeJson(m.texts.typeText, 32);
    var category := EscapeJson(m.texts.category, 32);
    var n := m.numbers;
    var printed :=
      [Raw("title_id", titleId), Raw("title_name", titleName), Raw("localized_titles", localized),
       Raw("default_language", language), Raw("content_id", contentId), Raw("app_version", version),
       Plain("file_size", Print(n.fileSize)),
       Plain("total_pkg_size", Print(if n.totalSize > 0 then n.totalSize else n.fileSize)),
       Plain("icon_offset", Print(n.iconOffset)), Plain("icon_size", Print(n.iconSize)),
       Plain("has_icon", if n.hasIcon then "true" else "false"),
       Plain("is_multipart", if n.isMultipart then "true" else "false"),
       Plain("part_index", Print(n.partIndex)), Plain("total_parts", Print(n.totalParts)),
       Plain("pkg_type", PrintInt(n.pkgType)), Raw("pkg_type_str", typeText), Raw("category", category),
       Plain("mtime", Print(n.mtime)), Raw("blurhash", m.texts.blurhash)];
    assert printed == Printed(m);
    PrintedSame(m);
    text := "{\n" + Lines(INDENT, printed) + "}\n";
  }

  /** A number read from a value's text; absent ones stay zero. */
  function Number(val: string): nat {
    if val == "" then 0 else StrToUll(val)
  }

  function Number32(val: string): nat {
    Number(val) % 0x1_0000_0000
  }

  const VAL := 512

  function TextsOf(text: string): Texts {
    Texts(Extract(text, "title_id", 32), Extract(text, "title_name", 256), Extract(text, "localized_titles", 2048),
          Extract(text, "default_language", 32), Extract(text, "content_id", 64), Extract(text, "app_version", 32),
          Extract(text, "pkg_type_str", 16), Extract(text, "category", 16), Extract(text, "blurhash", 64))
  }

  function NumbersOf(text: string, iconExists: bool): Numbers {
    var fileSize := Number(Extract(text, "file_size", VAL));
    var total := Extract(text, "total_pkg_size", VAL);
    var pkgType := Extract(text, "pkg_type", VAL);
    Numbers(
      fileSize, if total == "" then fileSize else StrToUll(total), Number(Extract(text, "icon_offset", VAL)),
      Number32(Extract(text, "icon_size", VAL)), IsTrue(Extract(text, "has_icon", VAL)) || iconExists,
      IsTrue(Extract(text, "is_multipart", VAL)), Number32(Extract(text, "part_index", VAL)),
      Number32(Extract(text, "total_parts", VAL)), if pkgType == "" then 0 else Atoi(pkgType),
      Number(Extract(text, "mtime", VAL)))
  }

  function Stale(t: Texts): bool {
    t.titleId == "" && t.titleName == "Unknown Package"
  }

  /** pkg_cache_lookup, as a function of the file's text and whether the icon file exists. */
  function Lookup(text: string, iconExists: bool): Option<Meta> {
    if text == "" || |text| >= BUFFER - 1 || Stale(TextsOf(text)) then None
    else Some(Meta(TextsOf(text), NumbersOf(text, iconExists)))
  }

  method LookupTexts(text: string) returns (t: Texts)
    ensures t == TextsOf(text)
  {
    hide Extract;
    var titleId := ExtractField(text, "title_id", 32);
    var titleName := ExtractField(text, "title_name", 256);
    var localizedTitles := ExtractField(text, "localized_titles", 2048);
    var defaultLanguage := ExtractField(text, "default_language", 32);
    var contentId := ExtractField(text, "content_id", 64);
    var appVersion := ExtractField(text, "app_version", 32);
    var typeText := ExtractField(text, "pkg_type_str", 16);
    var category := ExtractField(text, "category", 16);
    var blurhash := ExtractField(text, "blurhash", 64);
    t := Texts(titleId, titleName, localizedTitles, defaultLanguage, contentId, appVersion, typeText, category,
               blurhash);
  }

  method LookupNumber(text: string, key: string) returns (n: nat)
    ensures n == Number(Extract(text, key, VAL))
  {
    hide Extract, StrToUll;
    n := 0;
    var val := ExtractField(text, key, VAL);
    if val != "" {
      n := StrToUll(val);
    }
  }

  method LookupFlag(text: string, key: string) returns (b: bool)
    ensures b == IsTrue(Extract(text, key, VAL))
  {
    hide Extract;
    var val := ExtractField(text, key, VAL);
    b := val == "true" || val == "1";
  }

  method LookupNumbers(text: string, iconExists: bool) returns (n: Numbers)
    ensures n == NumbersOf(text, iconExists)
  {
    hide Extract, StrToUll, Atoi, IsTrue, Number;
    var fileSize := LookupNumber(text, "file_size");
    var val := ExtractField(text, "total_pkg_size", VAL);
    var totalSize := if val != "" then StrToUll(val) else fileSize;
    var iconOffset := LookupNumber(text, "icon_offset");
    var iconSize := LookupNumber(text, "icon_size");
    var hasIcon := LookupFlag(text, "has_icon");
    var isMultipart := LookupFlag(text, "is_multipart");
    var partIndex := LookupNumber(text, "part_index");
    var totalParts := LookupNumber(text, "total_parts");
    val := ExtractField(text, "pkg_type", VAL);
    var pkgType := if val != "" then Atoi(val) else 0;
    var mtime := LookupNumber(text, "mtime");
    if iconExists {
      hasIcon := true;
    }
    n := Numbers(fileSize, totalSize, iconOffset, iconSize % 0x1_0000_0000, hasIcon, isMultipart,
                 partIndex % 0x1_0000_0000, totalParts % 0x1_0000_0000, pkgType, mtime);
  }

  /** pkg_cache_lookup. */
  method LookupMeta(text: string, iconExists: bool) returns (out: Option<Meta>)
    ensures out == Lookup(text, iconExists)
  {
    hide TextsOf, NumbersOf;
    if |text| >= BUFFER - 1 || |text| == 0 {
      return None;
    }
    var texts := LookupTexts(text);
    var numbers := LookupNumbers(text, iconExists);
    if Stale(texts) {
      return None;
    }
    out := Some(Meta(texts, numbers));
  }

  // --- the round trip ---

  lemma TextBack(m: Meta, i: nat)
    requires Fits(m) && Bare(m.texts.blurhash) && (i < 6 || i in {15, 16, 18})
    ensures Extract(Record(m), Fields(m)[i].key, TextSize(i)) == ReadBack(Fields(m)[i])
  {
    hide Extract, Record, Print, ReadBack, Bare;
    TextFits(m, i);
    Found(m, i, TextSize(i));
  }

  lemma TextFields(m: Meta)
    ensures var fs, t := Fields(m), m.texts;
      && fs[0] == Text("title_id", t.titleId) && fs[1] == Text("title_name", t.titleName)
      && fs[2] == Text("localized_titles", t.localizedTitles) && fs[3] == Text("default_language", t.defaultLanguage)
      && fs[4] == Text("content_id", t.contentId) && fs[5] == Text("app_version", t.appVersion)
      && fs[15] == Text("pkg_type_str", t.typeText) && fs[16] == Text("category", t.category)
      && fs[18] == Raw("blurhash", t.blurhash)
  {
    hide Print, Flag, PrintInt;
  }

  lemma TextsBack(m: Meta)
    requires Fits(m) && Bare(m.texts.blurhash)
    ensures TextsOf(Record(m)) == ShownTexts(m.texts)
  {
    hide Extract, Record, Shown, Fields, Fits, Bare;
    TextFields(m);
    TextBack(m, 0);
    TextBack(m, 1);
    TextBack(m, 2);
    TextBack(m, 3);
    TextBack(m, 4);
    TextBack(m, 5);
    TextBack(m, 15);
    TextBack(m, 16);
    TextBack(m, 18);
  }

  // The arrays the texts are read into.
  function TextSize(i: nat): nat {
    if i in {0, 3, 5} then 32 else if i == 1 then 256 else if i == 2 then 2048 else if i in {4, 18} then 64 else 16
  }

  lemma TextFits(m: Meta, i: nat)
    requires Fits(m) && (i < 6 || i in {15, 16, 18})
    ensures |Fields(m)[i].text| < TextSize(i)
  {
  }

  lemma NumberBack(m: Meta, i: nat)
    requires Fits(m) && Bare(m.texts.blurhash) && 6 <= i < 18 && i != 15 && i != 16
    ensures Extract(Record(m), Fields(m)[i].key, VAL) == ReadBack(Fields(m)[i])
  {
    hide Extract, Record, Print, Fields, ReadBack;
    FieldShort(m, i);
    Found(m, i, VAL);
  }

  lemma PrintedBack(n: nat)
    requires n <= ULL_MAX
    ensures Number(Print(n)) == n && (n < 0x1_0000_0000 ==> Number32(Print(n)) == n)
  {
    PrintRead(n);
  }

  lemma NumberFields(m: Meta)
    requires m.numbers.pkgType >= 0
    ensures var fs, n := Fields(m), m.numbers;
      && fs[6] == Plain("file_size", Print(n.fileSize)) && fs[7] == Plain("total_pkg_size", Print(Total(m)))
      && fs[8] == Plain("icon_offset", Print(n.iconOffset)) && fs[9] == Plain("icon_size", Print(n.iconSize))
      && fs[10] == Plain("has_icon", Flag(n.hasIcon)) && fs[11] == Plain("is_multipart", Flag(n.isMultipart))
      && fs[12] == Plain("part_index", Print(n.partIndex)) && fs[13] == Plain("total_parts", Print(n.totalParts))
      && fs[14] == Plain("pkg_type", Print(n.pkgType)) && fs[17] == Plain("mtime", Print(n.mtime))
  {
    hide Print, Flag;
  }

  lemma PrintedValues(m: Meta)
    requires Fits(m)
    ensures var n := m.numbers;
      && Number(Print(n.fileSize)) == n.fileSize && StrToUll(Print(Total(m))) == Total(m)
      && Number(Print(n.iconOffset)) == n.iconOffset && Number32(Print(n.iconSize)) == n.iconSize
      && Number32(Print(n.partIndex)) == n.partIndex && Number32(Print(n.totalParts)) == n.totalParts
      && Atoi(Print(n.pkgType)) == n.pkgType && Number(Print(n.mtime)) == n.mtime
  {
    hide Print, StrToUll, Atoi, Number32, Number;
    var n := m.numbers;
    PrintedBack(n.fileSize);
    PrintRead(Total(m));
    PrintedBack(n.iconOffset);
    PrintedBack(n.iconSize);
    PrintedBack(n.partIndex);
    PrintedBack(n.totalParts);
    PrintRead(n.pkgType);
    PrintedBack(n.mtime);
  }

  lemma NumbersBack(m: Meta, iconExists: bool)
    requires Fits(m) && Bare(m.texts.blurhash)
    ensures NumbersOf(Record(m), iconExists)
         == m.numbers.(totalSize := Total(m), hasIcon := m.numbers.hasIcon || iconExists)
  {
    hide Extract, Record, Print, StrToUll, Atoi, Number32, Number, Fields, Bare, Total;
    NumberFields(m);
    forall i | 6 <= i < 15 || i == 17
      ensures Extract(Record(m), Fields(m)[i].key, VAL) == ReadBack(Fields(m)[i])
    {
      NumberBack(m, i);
    }
    PrintedValues(m);
  }

  lemma ShownTextsSame(t: Texts)
    ensures ShownTexts(t) == t <==> AllPrintable(t)
  {
    hide Shown, Printable;
    ShownSame(t.titleId);
    ShownSame(t.titleName);
    ShownSame(t.localizedTitles);
    ShownSame(t.defaultLanguage);
    ShownSame(t.contentId);
    ShownSame(t.appVersion);
    ShownSame(t.typeText);
    ShownSame(t.category);
  }

  /** What a record that was written is looked up as, its total size filled in and its texts as shown. */
  function Recovered(m: Meta, iconExists: bool): Meta {
    Meta(ShownTexts(m.texts), m.numbers.(totalSize := Total(m), hasIcon := m.numbers.hasIcon || iconExists))
  }

  /** Every record that was written is looked up, unless it names no package, whatever its texts contain; its texts are
    * those that were stored exactly if they have no control characters. */
  lemma RoundTrip(m: Meta, iconExists: bool)
    requires Fits(m) && Bare(m.texts.blurhash)
    ensures Lookup(Record(m), iconExists) == if Stale(ShownTexts(m.texts)) then None else Some(Recovered(m, iconExists))
    ensures Recovered(m, iconExists).texts == m.texts <==> AllPrintable(m.texts)
  {
    hide TextsOf, NumbersOf, Record, ShownTexts, AllPrintable;
    RecordShort(m);
    TextsBack(m);
    NumbersBack(m, iconExists);
    ShownTextsSame(m.texts);
  }
}

/** What the hand-written records look like, character by character, and what is made of texts nobody here wrote. */
module RecordTexts {
  import opened Decimal
  import opened JsonText
  import opened Wrappers
  import I = Strings
  import M = MetaRecord
  import S = Settings

  // --- escaping ---

  lemma {:induction false} EscapeJoin(a: string, b: string)
    ensures Escape(a + b) == Escape(a) + Escape(b)
  {
    hide EscapeChar;
    if b == "" {
      assert a + b == a;
    } else {
      EscapeJoin(a, b[..|b| - 1]);
      assert (a + b)[..|a + b| - 1] == a + b[..|b| - 1];
    }
  }

  /** Inside a text each character is escaped on its own. */
  lemma EscapedChar(a: string, c: char, b: string)
    ensures Escape(a + [c] + b) == Escape(a) +
      (if c == '"' then "\\\"" else if c == '\\' then "\\\\" else if c == '\n' then "\\n" else if c == '\r' then "\\r"
       else if c == '\t' then "\\t" else if c < ' ' then "" else [c]) + Escape(b)
  {
    hide Escape;
    EscapeJoin(a + [c], b);
    EscapeJoin(a, [c]);
    EscapeFirst([c]);
    EscapeFirst("");
  }

  // --- values ---

  // The key in quotes and a colon.
  function Colon(key: string): string {
    "\"" + key + "\":"
  }

  // The key with its colon stands nowhere in the text.
  predicate Missing(text: string, key: string) {
    forall i: nat :: i < |text| ==> !MatchAt(text, Colon(key), i)
  }

  /** A key that is missing has no value. */
  lemma NoValue(text: string, key: string, max: nat)
    requires Missing(text, key)
    ensures Extract(text, key, max) == ""
  {
    hide MatchAt, ValueAt;
    var i := Find(text, Pattern(key));
    assert Colon(key) == Pattern(key);
  }

  predicate Blank(s: string) {
    forall i :: 0 <= i < |s| ==> s[i] == ' ' || s[i] == '\t'
  }

  lemma {:induction false} Skipped(blank: string, rest: string)
    requires Blank(blank) && (rest == "" || (rest[0] != ' ' && rest[0] != '\t'))
    ensures SkipSpaces(blank + rest) == rest
  {
    if blank == "" {
      assert blank + rest == rest;
    } else {
      Skipped(blank[1..], rest);
      assert (blank + rest)[1..] == blank[1..] + rest;
    }
  }

  /** The value is what follows the first place of the key with its colon, and blanks. */
  lemma ValueOf(before: string, key: string, blank: string, rest: string, max: nat)
    requires forall i: nat :: i < |before| ==> !MatchAt(before + (Colon(key) + (blank + rest)), Colon(key), i)
    requires Blank(blank) && (rest == "" || (rest[0] != ' ' && rest[0] != '\t'))
    ensures Extract(before + (Colon(key) + (blank + rest)), key, max) ==
      if rest != "" && rest[0] == '"' then Unquote(rest[1..], max) else Unspaced(rest, max)
  {
    hide Unquote, Unspaced, SkipSpaces;
    var t := before + (Colon(key) + (blank + rest));
    assert Colon(key) == Pattern(key);
    assert t[|before|..|before| + |Colon(key)|] == Colon(key);
    FindIs(t, Pattern(key), |before|);
    assert t[|before| + |key| + 3..] == blank + rest;
    Skipped(blank, rest);
  }

  /** In quotes a backslash stands for what follows it, and the first other quote ends the value, or the buffer. */
  lemma InQuotes(c: char, rest: string, max: nat)
    ensures max <= 1 ==> Unquote([c] + rest, max) == ""
    ensures Unquote("", max) == "" && Unquote("\"" + rest, max) == ""
    ensures max > 1 ==> Unquote("\\" + ([c] + rest), max) == [c] + Unquote(rest, max - 1)
    ensures max > 1 && c != '"' && c != '\\' ==> Unquote([c] + rest, max) == [c] + Unquote(rest, max - 1)
  {
    hide Unquote;
    UnquoteIs("", max);
    UnquoteIs([c] + rest, max);
    UnquoteIs("\"" + rest, max);
    UnquoteIs("\\" + ([c] + rest), max);
    assert ([c] + rest)[1..] == rest && ("\\" + ([c] + rest))[2..] == rest;
  }

  lemma UnquoteIs(s: string, max: nat)
    ensures Unquote(s, max) ==
      if s == "" || s[0] == '"' || max <= 1 then ""
      else if s[0] == '\\' && |s| > 1 then [s[1]] + Unquote(s[2..], max - 1)
      else [s[0]] + Unquote(s[1..], max - 1)
  {
  }

  /** Without quotes a comma, a brace, a line break or a space ends it. */
  lemma {:induction false} Unquoted(v: string, c: char, rest: string, max: nat)
    requires forall i :: 0 <= i < |v| ==> v[i] !in ",}\n\r "
    requires c in ",}\n\r "
    ensures Unspaced(v + ([c] + rest), max) == if |v| < max then v else if max == 0 then "" else v[..max - 1]
  {
    if v != "" && max > 1 {
      Unquoted(v[1..], c, rest, max - 1);
      assert (v + ([c] + rest))[1..] == v[1..] + ([c] + rest);
    } else if v == "" {
      assert v + ([c] + rest) == [c] + rest;
    }
  }

  // --- lines ---

  function Joined(lines: seq<string>): string {
    if lines == [] then "" else lines[0] + Joined(lines[1..])
  }

  /** Lines of fields are the given ones if each of them is. */
  lemma {:induction false} LinesAre(indent: string, fs: seq<Field>, lines: seq<string>)
    requires |fs| == |lines|
    requires forall i :: 0 <= i < |fs| ==> lines[i] == Line(indent, fs[i], LineEnd(i == |fs| - 1))
    ensures Lines(indent, fs) == Joined(lines)
  {
    hide Line;
    if fs != [] {
      LinesAre(indent, fs[1..], lines[1..]);
    }
  }

  lemma TextLine(indent: string, key: string, text: string)
    ensures Line(indent, Text(key, text), LineEnd(false)) == TextRow(indent, key, text)
  {
    hide Escape;
  }

  lemma PlainLine(indent: string, key: string, text: string)
    ensures Line(indent, Plain(key, text), LineEnd(false)) == PlainRow(indent, key, text)
  {
  }

  lemma RawLine(text: string)
    ensures Line("  ", Raw("blurhash", text), LineEnd(true)) == "  \"blurhash\": \"" + text + "\"\n"
  {
    assert Label("  ", "blurhash") + "\"" == "  \"blurhash\": \"";
  }

  // --- the metadata record ---

  function Bool(b: bool): string {
    if b then "true" else "false"
  }

  function TextRow(indent: string, key: string, text: string): string {
    indent + "\"" + key + "\": \"" + Escape(text) + "\",\n"
  }

  function PlainRow(indent: string, key: string, text: string): string {
    indent + "\"" + key + "\": " + text + ",\n"
  }

  function MetaLines(m: M.Meta): (lines: seq<string>)
    ensures |lines| == 19
  {
    var t, n := m.texts, m.numbers;
    [TextRow("  ", "title_id", t.titleId), TextRow("  ", "title_name", t.titleName),
     TextRow("  ", "localized_titles", t.localizedTitles), TextRow("  ", "default_language", t.defaultLanguage),
     TextRow("  ", "content_id", t.contentId), TextRow("  ", "app_version", t.appVersion),
     PlainRow("  ", "file_size", Print(n.fileSize)),
     PlainRow("  ", "total_pkg_size", Print(if n.totalSize == 0 then n.fileSize else n.totalSize)),
     PlainRow("  ", "icon_offset", Print(n.iconOffset)), PlainRow("  ", "icon_size", Print(n.iconSize)),
     PlainRow("  ", "has_icon", Bool(n.hasIcon)), PlainRow("  ", "is_multipart", Bool(n.isMultipart)),
     PlainRow("  ", "part_index", Print(n.partIndex)), PlainRow("  ", "total_parts", Print(n.totalParts)),
     PlainRow("  ", "pkg_type", PrintInt(n.pkgType)), TextRow("  ", "pkg_type_str", t.typeText),
     TextRow("  ", "category", t.category), PlainRow("  ", "mtime", Print(n.mtime)),
     "  \"blurhash\": \"" + t.blurhash + "\"\n"]
  }

  lemma MetaLine(m: M.Meta, i: nat)
    requires i < 19
    ensures MetaLines(m)[i] == Line("  ", M.Fields(m)[i], LineEnd(i == 18))
  {
    hide Escape, Print, PrintInt, Line, LineEnd, TextRow, PlainRow, Flag, Bool;
    var f := M.Fields(m)[i];
    FlagIs(m.numbers.hasIcon);
    FlagIs(m.numbers.isMultipart);
    if f.Text? {
      TextLine("  ", f.key, f.text);
    } else if f.Plain? {
      PlainLine("  ", f.key, f.text);
    } else {
      RawLine(f.text);
    }
  }

  lemma FlagIs(b: bool)
    ensures Flag(b) == Bool(b)
  {
  }

  /** The record of a package. */
  lemma MetaText(m: M.Meta)
    ensures M.Record(m) == "{\n" + Joined(MetaLines(m)) + "}\n"
  {
    hide MetaLines, M.Fields, Lines, Joined, Line;
    forall i | 0 <= i < 19
      ensures MetaLines(m)[i] == Line("  ", M.Fields(m)[i], LineEnd(i == 18))
    {
      MetaLine(m, i);
    }
    LinesAre("  ", M.Fields(m), MetaLines(m));
  }

  /** A record is found unless its text is empty or of 8191 characters or more, or it names no package. */
  lemma FoundExactly(text: string, iconExists: bool)
    ensures M.Lookup(text, iconExists) == None <==>
      || text == "" || |text| >= 8191
      || (Extract(text, "title_id", 32) == "" && Extract(text, "title_name", 256) == "Unknown Package")
  {
    hide Extract, M.NumbersOf;
  }

  /** What a record says of the package, where a field is missing or a number is none. */
  lemma MissingFields(text: string, iconExists: bool)
    requires M.Lookup(text, iconExists).Some?
    ensures var m := M.Lookup(text, iconExists).value;
      && (Missing(text, "total_pkg_size") ==> m.numbers.totalSize == m.numbers.fileSize)
      && (Missing(text, "file_size") ==> m.numbers.fileSize == 0)
      && (Missing(text, "icon_offset") ==> m.numbers.iconOffset == 0)
      && (Missing(text, "icon_size") ==> m.numbers.iconSize == 0)
      && (Missing(text, "part_index") ==> m.numbers.partIndex == 0)
      && (Missing(text, "total_parts") ==> m.numbers.totalParts == 0)
      && (Missing(text, "pkg_type") ==> m.numbers.pkgType == 0)
      && (Missing(text, "mtime") ==> m.numbers.mtime == 0)
      && (Missing(text, "is_multipart") ==> !m.numbers.isMultipart)
      && (Missing(text, "has_icon") ==> m.numbers.hasIcon == iconExists)
  {
    hide Extract, Missing, StrToUll, Atoi, M.TextsOf;
    forall key: string, max: nat | Missing(text, key)
      ensures Extract(text, key, max) == ""
    {
      NoValue(text, key, max);
    }
  }

  /** A flag is set by the word true or the digit 1 alone; an icon that is there counts in any case. */
  lemma FlagsRead(text: string, iconExists: bool)
    requires M.Lookup(text, iconExists).Some?
    ensures var m := M.Lookup(text, iconExists).value;
      && (m.numbers.isMultipart <==> Extract(text, "is_multipart", 512) in {"true", "1"})
      && (m.numbers.hasIcon <==> iconExists || Extract(text, "has_icon", 512) in {"true", "1"})
  {
    hide Extract, StrToUll, Atoi, M.TextsOf;
  }

  /** Numbers are those of their digits; of the three narrow ones 32 bits are kept. */
  lemma NumbersRead(text: string, iconExists: bool)
    requires M.Lookup(text, iconExists).Some?
    ensures var n := M.Lookup(text, iconExists).value.numbers;
      && n.fileSize == StrToUll(Extract(text, "file_size", 512)) && n.mtime == StrToUll(Extract(text, "mtime", 512))
      && n.iconOffset == StrToUll(Extract(text, "icon_offset", 512))
      && n.iconSize == StrToUll(Extract(text, "icon_size", 512)) % 4294967296
      && n.partIndex == StrToUll(Extract(text, "part_index", 512)) % 4294967296
      && n.totalParts == StrToUll(Extract(text, "total_parts", 512)) % 4294967296
      && n.pkgType == Atoi(Extract(text, "pkg_type", 512))
      && (Extract(text, "total_pkg_size", 512) != "" ==>
            n.totalSize == StrToUll(Extract(text, "total_pkg_size", 512)))
  {
    hide Extract, StrToUll, Atoi, M.TextsOf;
    NothingRead();
  }

  lemma NothingRead()
    ensures StrToUll("") == 0 && Atoi("") == 0
  {
  }

  // --- the settings ---

  function ShareLines(s: S.Share): (lines: seq<string>)
    ensures |lines| == 12
  {
    [TextRow("      ", "id", s.id), TextRow("      ", "label", s.title), TextRow("      ", "server", s.server),
     PlainRow("      ", "port", PrintInt(s.port)), TextRow("      ", "share", s.share),
     TextRow("      ", "path", s.path), TextRow("      ", "username", s.user),
     TextRow("      ", "password", s.password), TextRow("      ", "workgroup", s.workgroup),
     PlainRow("      ", "is_read_only", Bool(s.readOnly)), PlainRow("      ", "browse_only", Bool(s.browseOnly)),
     "      \"enabled\": " + Bool(s.enabled) + "\n"]
  }

  lemma ShareLine(s: S.Share, i: nat)
    requires i < 12
    ensures ShareLines(s)[i] == Line("      ", S.ShareFields(s)[i], LineEnd(i == 11))
  {
    hide Escape, Print, PrintInt, Line, LineEnd, TextRow, PlainRow, Flag, Bool;
    var f := S.ShareFields(s)[i];
    FlagIs(s.readOnly);
    FlagIs(s.browseOnly);
    FlagIs(s.enabled);
    if f.Text? {
      TextLine("      ", f.key, f.text);
    } else if i < 11 {
      PlainLine("      ", f.key, f.text);
    } else {
      EnabledLine(f.text);
    }
  }

  lemma EnabledLine(text: string)
    ensures Line("      ", Plain("enabled", text), LineEnd(true)) == "      \"enabled\": " + text + "\n"
  {
    assert Label("      ", "enabled") == "      \"enabled\": ";
  }

  function ShareText(s: S.Share, last: bool): string {
    "    {\n" + Joined(ShareLines(s)) + (if last then "    }\n" else "    },\n")
  }

  function ShareTexts(shares: seq<S.Share>): string {
    if shares == [] then "" else ShareText(shares[0], |shares| == 1) + ShareTexts(shares[1..])
  }

  lemma ShareIs(s: S.Share, last: bool)
    ensures "    " + S.Object(s) + LineEnd(last) == ShareText(s, last)
  {
    hide ShareLines, S.ShareFields, Lines, Joined, Line;
    forall i | 0 <= i < 12
      ensures ShareLines(s)[i] == Line("      ", S.ShareFields(s)[i], LineEnd(i == 11))
    {
      ShareLine(s, i);
    }
    LinesAre("      ", S.ShareFields(s), ShareLines(s));
    assert "    " + "{\n" == "    {\n";
    assert "    }" + "\n" == "    }\n" && "    }" + ",\n" == "    },\n";
  }

  lemma {:induction false} SharesAre(shares: seq<S.Share>)
    ensures S.Items(shares) == ShareTexts(shares)
  {
    hide S.Object, ShareText, LineEnd;
    if shares != [] {
      ShareIs(shares[0], |shares| == 1);
      SharesAre(shares[1..]);
    }
  }

  /** The settings file. */
  lemma SettingsText(s: S.Saved)
    ensures S.SavedText(s) ==
      "{\n" + PlainRow("  ", "move_installed_to_end", Bool(s.flags.moveToEnd))
      + PlainRow("  ", "fade_installed_packages", Bool(s.flags.fade))
      + PlainRow("  ", "all_sources_mode", Bool(s.flags.allSources))
      + PlainRow("  ", "pkg_install_debug", Bool(s.flags.debug))
      + "  \"smb_shares\": [\n" + ShareTexts(s.shares) + "  ]\n}\n"
  {
    hide PlainRow, S.Items, ShareTexts, Flag, Bool, S.Row;
    RowIs("move_installed_to_end", s.flags.moveToEnd);
    RowIs("fade_installed_packages", s.flags.fade);
    RowIs("all_sources_mode", s.flags.allSources);
    RowIs("pkg_install_debug", s.flags.debug);
    SharesAre(s.shares);
    assert "  " + (S.NAME + (": [" + "\n")) == "  \"smb_shares\": [\n";
    var m, fd, a, d := S.Row(S.MOVE, s.flags.moveToEnd), S.Row(S.FADE, s.flags.fade),
                       S.Row(S.ALL, s.flags.allSources), S.Row(S.DEBUG, s.flags.debug);
    FlatRows("{\n", m, fd, a, d);
    FlatList("  ", S.NAME, ": [", "\n", S.Items(s.shares), S.TAIL);
    FlatEnd("{\n" + m + fd + a + d, "  \"smb_shares\": [\n", S.Items(s.shares), S.TAIL);
  }

  lemma FlatRows(a: string, b: string, c: string, d: string, e: string)
    ensures a + (b + (c + (d + e))) == a + b + c + d + e
  {
  }

  lemma FlatList(a: string, b: string, c: string, d: string, e: string, f: string)
    ensures a + (b + (c + (d + e + f))) == a + (b + (c + d)) + e + f
  {
  }

  lemma FlatEnd(a: string, b: string, c: string, d: string)
    ensures a + (b + c + d) == a + b + c + d
  {
  }

  lemma RowIs(key: string, b: bool)
    ensures S.Row(key, b) == PlainRow("  ", key, Bool(b))
  {
    hide Flag, Bool;
    FlagIs(b);
    PlainLine("  ", key, Flag(b));
  }

  /** What a share's object says where a field is missing: it is enabled, the port is 445, and the rest is empty. */
  lemma MissingShareFields(item: string)
    ensures var s := S.ShareOf(item);
      && (Missing(item, "enabled") ==> s.enabled)
      && (Missing(item, "browse_only") ==> !s.browseOnly)
      && (Missing(item, "is_read_only") ==> !s.readOnly)
      && (Missing(item, "port") ==> s.port == 445)
      && (Missing(item, "id") ==> s.id == "") && (Missing(item, "label") ==> s.title == "")
      && (Missing(item, "server") ==> s.server == "") && (Missing(item, "share") ==> s.share == "")
      && (Missing(item, "path") ==> s.path == "") && (Missing(item, "username") ==> s.user == "")
      && (Missing(item, "password") ==> s.password == "") && (Missing(item, "workgroup") ==> s.workgroup == "")
  {
    hide Extract, Missing, Atoi;
    forall key: string, max: nat | Missing(item, key)
      ensures Extract(item, key, max) == ""
    {
      NoValue(item, key, max);
    }
  }

  /** Flags of a share are set by the word true or the digit 1; a port that is not positive is none. */
  lemma ShareRead(item: string)
    ensures var s := S.ShareOf(item);
      && (s.enabled <==> Extract(item, "enabled", 64) in {"", "true", "1"})
      && (s.browseOnly <==> Extract(item, "browse_only", 64) in {"true", "1"})
      && (s.readOnly <==> Extract(item, "is_read_only", 64) in {"true", "1"})
      && s.port > 0
      && (Atoi(Extract(item, "port", 64)) <= 0 ==> s.port == 445)
      && (Extract(item, "port", 64) != "" && Atoi(Extract(item, "port", 64)) > 0 ==>
            s.port == Atoi(Extract(item, "port", 64)))
  {
    hide Extract, Atoi;
  }

  predicate FirstPlace(buf: string, key: string, i: nat) {
    i < |buf| && MatchAt(buf, Colon(key), i) && forall k: nat :: k < i ==> !MatchAt(buf, Colon(key), k)
  }

  // The word stands right behind the first place of the key with its colon, or one character on.
  ghost predicate Says(buf: string, key: string, word: string) {
    exists i: nat ::
      FirstPlace(buf, key, i) && (MatchAt(buf, word, i + |key| + 3) || MatchAt(buf, word, i + |key| + 4))
  }

  lemma PlaceIs(buf: string, key: string)
    ensures var i := Find(buf, Pattern(key)); if i < |buf| then FirstPlace(buf, key, i) else Missing(buf, key)
    ensures forall i: nat :: FirstPlace(buf, key, i) ==> i == Find(buf, Pattern(key)) && !Missing(buf, key)
  {
    hide MatchAt;
    assert Colon(key) == Pattern(key);
  }

  lemma FlagSaid(buf: string, key: string, word: string, was: bool)
    ensures S.LoadFlag(buf, key, word, was) ==
      if Missing(buf, key) then was else Says(buf, key, word) == (word == "true")
  {
    hide MatchAt, FirstPlace, Missing, Find;
    PlaceIs(buf, key);
    var i := Find(buf, Pattern(key));
    if i < |buf| {
      assert FirstPlace(buf, key, i);
    }
  }

  /** Flags that are missing keep their value. Of the others, two are cleared by the word false alone and two are set by
    * the word true alone. A text of 16384 characters or more is cut. */
  lemma FlagsLoaded(was: S.Saved, file: string)
    requires file != ""
    ensures var buf := if |file| >= 16384 then file[..16383] else file;
      var f := S.Loaded(was, file).flags;
      && f.moveToEnd == (if Missing(buf, "move_installed_to_end") then was.flags.moveToEnd
                         else !Says(buf, "move_installed_to_end", "false"))
      && f.fade == (if Missing(buf, "fade_installed_packages") then was.flags.fade
                    else !Says(buf, "fade_installed_packages", "false"))
      && f.allSources == (if Missing(buf, "all_sources_mode") then was.flags.allSources
                          else Says(buf, "all_sources_mode", "true"))
      && f.debug == (if Missing(buf, "pkg_install_debug") then was.flags.debug
                     else Says(buf, "pkg_install_debug", "true"))
  {
    hide S.LoadFlag, Missing, Says, S.ParseShares;
    var buf := if |file| >= 16384 then file[..16383] else file;
    FlagSaid(buf, "move_installed_to_end", "false", was.flags.moveToEnd);
    FlagSaid(buf, "fade_installed_packages", "false", was.flags.fade);
    FlagSaid(buf, "all_sources_mode", "true", was.flags.allSources);
    FlagSaid(buf, "pkg_install_debug", "true", was.flags.debug);
  }

  predicate NoControls(s: S.Share) {
    && Printable(s.id) && Printable(s.title) && Printable(s.server) && Printable(s.share) && Printable(s.path)
    && Printable(s.user) && Printable(s.password) && Printable(s.workgroup)
  }

  /** A share that is saved alone is loaded if it names a server and a share, or a server with a slash or a backslash;
    * without an id it gets smb0, and without a port 445. */
  lemma OneShare(f: S.Flags, s: S.Share, was: S.Saved)
    requires S.Fits(s) && NoControls(s)
    ensures S.Loaded(was, S.SavedText(S.Saved(f, [s]))) ==
      S.Saved(f,
              if s.server == "" || (s.share == "" && '/' !in s.server && '\\' !in s.server) then []
              else [s.(id := if s.id == "" then "smb0" else s.id, port := if s.port <= 0 then 445 else s.port)])
  {
    hide S.Loaded, S.SavedText, S.Fits, Shown, Printable;
    S.RoundTrip(S.Saved(f, [s]), was);
    ShownSame(s.id);
    ShownSame(s.title);
    ShownSame(s.server);
    ShownSame(s.share);
    ShownSame(s.path);
    ShownSame(s.user);
    ShownSame(s.password);
    ShownSame(s.workgroup);
    assert "smb" + Print(0) == "smb0";
    assert [s][1..] == [];
    assert S.AddAll(S.AddShown([], s), []) == S.AddShown([], s);
  }

  predicate Proper(shares: seq<S.Share>) {
    |shares| <= 8 && forall i :: 0 <= i < |shares| ==> shares[i].server != "" && shares[i].id != ""
  }

  lemma {:induction false} ProperItems(text: string, shares: seq<S.Share>)
    requires Proper(shares)
    ensures Proper(S.ParseItems(text, shares))
    decreases |text|
  {
    hide S.ShareOf, S.CloseObject;
    if text != "" && text[0] != ']' {
      var start := I.IndexOf(text, '{');
      if start < |text| {
        var end := start + S.CloseObject(text[start..], false, false);
        if end < |text| {
          ProperItems(text[end + 1..], S.AddShare(shares, text[start..end + 1]));
        }
      }
    }
  }

  /** No text gives more than eight shares, nor one without a server or an id. */
  lemma SharesLoaded(was: S.Saved, file: string)
    requires file != ""
    ensures Proper(S.Loaded(was, file).shares)
  {
    hide S.LoadFlag, S.ParseItems, Find;
    var buf := if |file| >= 16384 then file[..16383] else file;
    var name := Find(buf, S.NAME);
    if name < |buf| {
      var bracket := name + I.IndexOf(buf[name..], '[');
      if bracket < |buf| {
        ProperItems(buf[bracket + 1..], []);
      }
    }
  }
}

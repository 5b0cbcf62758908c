/** The application settings with their list of network shares: saved as text, loaded again. */
module Settings {
  import opened Decimal
  import opened JsonText
  import opened Strings

  datatype Share = Share(
    enabled: bool, browseOnly: bool, readOnly: bool, id: string, title: string, server: string, port: int,
    share: string, path: string, user: string, password: string, workgroup: string)

  datatype Flags = Flags(moveToEnd: bool, fade: bool, allSources: bool, debug: bool)

  datatype Saved = Saved(flags: Flags, shares: seq<Share>)

  const MAX_SHARES: nat := 8
  const DEFAULT_PORT: nat := 445

  // --- the text ---

  const MOVE := "move_installed_to_end"
  const FADE := "fade_installed_packages"
  const ALL := "all_sources_mode"
  const DEBUG := "pkg_install_debug"
  const SHARES := "smb_shares"
  const NAME := "\"smb_shares\""

  const INDENT := "  "
  const DEEPER := "      "

  function Row(key: string, b: bool): string {
    Line(INDENT, Plain(key, Flag(b)), ",\n")
  }

  function Rows(f: Flags): string {
    Row(MOVE, f.moveToEnd) + (Row(FADE, f.fade) + (Row(ALL, f.allSources) + Row(DEBUG, f.debug)))
  }

  function ShareFields(s: Share): (fs: seq<Field>)
    ensures |fs| == 12
  {
    [Text("id", s.id), Text("label", s.title), Text("server", s.server), Plain("port", PrintInt(s.port)),
     Text("share", s.share), Text("path", s.path), Text("username", s.user), Text("password", s.password),
     Text("workgroup", s.workgroup), Plain("is_read_only", Flag(s.readOnly)), Plain("browse_only", Flag(s.browseOnly)),
     Plain("enabled", Flag(s.enabled))]
  }

  function Object(s: Share): string {
    "{\n" + Lines(DEEPER, ShareFields(s)) + "    }"
  }

  function Items(shares: seq<Share>): string {
    if shares == [] then ""
    else "    " + Object(shares[0]) + LineEnd(|shares| == 1) + Items(shares[1..])
  }

  const TAIL := "  ]\n}\n"

  /** The settings file. */
  function SavedText(s: Saved): string {
    "{\n" + Rows(s.flags) + ("  " + (NAME + (": [" + ("\n" + Items(s.shares) + TAIL))))
  }

  // --- parsing ---

  /** A flag keeps its value if its key is missing; otherwise one word, right after the colon or a space on, decides. */
  function LoadFlag(buf: string, key: string, word: string, was: bool): bool {
    var i := Find(buf, Pattern(key));
    if i == |buf| then was
    else
      var v := i + |key| + 3;
      (MatchAt(buf, word, v) || MatchAt(buf, word, v + 1)) == (word == "true")
  }

  /** Where the object that begins s is closed, strings in it skipped; |s| if a bracket or the end comes first. */
  function CloseObject(s: string, inString: bool, escaped: bool): (e: nat)
    ensures e <= |s| && (e < |s| ==> s[e] == '}')
  {
    if s == "" then 0
    else if escaped then 1 + CloseObject(s[1..], inString, false)
    else if s[0] == '\\' && inString then 1 + CloseObject(s[1..], inString, true)
    else if s[0] == '"' then 1 + CloseObject(s[1..], !inString, false)
    else if !inString && s[0] == '}' then 0
    else if !inString && s[0] == ']' then |s|
    else 1 + CloseObject(s[1..], inString, false)
  }

  const VAL: nat := 64

  function PortOf(val: string): int {
    if val != "" && Atoi(val) > 0 then Atoi(val) else DEFAULT_PORT
  }

  function ShareOf(item: string): Share {
    var enabled := Extract(item, "enabled", VAL);
    Share(
      enabled == "" || IsTrue(enabled), IsTrue(Extract(item, "browse_only", VAL)),
      IsTrue(Extract(item, "is_read_only", VAL)), Extract(item, "id", 32), Extract(item, "label", 64),
      Extract(item, "server", 128), PortOf(Extract(item, "port", VAL)), Extract(item, "share", 128),
      Extract(item, "path", 256), Extract(item, "username", 64), Extract(item, "password", 64),
      Extract(item, "workgroup", 64))
  }

  predicate Usable(s: Share) {
    s.server != "" && (s.share != "" || '/' in s.server || '\\' in s.server)
  }

  /** One more share from an object's text, if there is room and it names a server; a missing id is made up. */
  function AddShare(shares: seq<Share>, item: string): (r: seq<Share>)
    ensures |shares| <= |r| <= |shares| + 1
  {
    var s := ShareOf(item);
    if |shares| >= MAX_SHARES || !Usable(s) then shares
    else shares + [if s.id == "" then s.(id := "smb" + Print(|shares|)) else s]
  }

  function ParseItems(s: string, shares: seq<Share>): seq<Share>
    decreases |s|
  {
    if s == "" || s[0] == ']' then shares
    else
      var start := IndexOf(s, '{');
      if start == |s| then shares
      else
        var end := start + CloseObject(s[start..], false, false);
        if end == |s| then shares
        else ParseItems(s[end + 1..], AddShare(shares, s[start..end + 1]))
  }

  /** pkg_cache_parse_smb_shares, as a function. */
  function ParseShares(buf: string): seq<Share> {
    var name := Find(buf, NAME);
    if name == |buf| then []
    else
      var bracket := name + IndexOf(buf[name..], '[');
      if bracket == |buf| then [] else ParseItems(buf[bracket + 1..], [])
  }

  const BUFFER: nat := 16384

  /** load_settings_from_disk: what the settings become, given the file's text. */
  function Loaded(was: Saved, file: string): Saved {
    var buf := if |file| < BUFFER then file else file[..BUFFER - 1];
    if buf == "" then was
    else
      Saved(Flags(LoadFlag(buf, MOVE, "false", was.flags.moveToEnd), LoadFlag(buf, FADE, "false", was.flags.fade),
                  LoadFlag(buf, ALL, "true", was.flags.allSources), LoadFlag(buf, DEBUG, "true", was.flags.debug)),
            ParseShares(buf))
  }

  // --- the program ---

  // The C strings and integers of a share, in the sizes its struct gives them.
  predicate Fits(s: Share) {
    && |s.id| < 32 && |s.title| < 64 && |s.server| < 128 && |s.share| < 128 && |s.path| < 256 && |s.user| < 64
    && |s.password| < 64 && |s.workgroup| < 64 && -0x8000_0000 <= s.port < 0x8000_0000
  }

  lemma EscapedFirst(key: string, s: string)
    ensures Written(Raw(key, Escape(s))) == Written(Text(key, s))
  {
  }

  method PrintShare(s: Share) returns (text: string)
    requires Fits(s)
    ensures text == Object(s)
  {
    hide Escape, Lines, PrintInt, Written;
    EscapedFirst("id", s.id);
    EscapedFirst("label", s.title);
    EscapedFirst("server", s.server);
    EscapedFirst("share", s.share);
    EscapedFirst("path", s.path);
    EscapedFirst("username", s.user);
    EscapedFirst("password", s.password);
    EscapedFirst("workgroup", s.workgroup);
    var id := EscapeJson(s.id, 128);
    var title := EscapeJson(s.title, 256);
    var server := EscapeJson(s.server, 256);
    var share := EscapeJson(s.share, 256);
    var path := EscapeJson(s.path, 512);
    var user := EscapeJson(s.user, 256);
    var password := EscapeJson(s.password, 256);
    var workgroup := EscapeJson(s.workgroup, 256);
    var printed :=
      [Raw("id", id), Raw("label", title), Raw("server", server), Plain("port", PrintInt(s.port)),
       Raw("share", share), Raw("path", path), Raw("username", user), Raw("password", password),
       Raw("workgroup", workgroup), Plain("is_read_only", if s.readOnly then "true" else "false"),
       Plain("browse_only", if s.browseOnly then "true" else "false"),
       Plain("enabled", if s.enabled then "true" else "false")];
    SameLines(DEEPER, printed, ShareFields(s));
    text := "{\n" + Lines(DEEPER, printed) + "    }";
  }

  method ExtractFlag(item: string, key: string, missing: bool) returns (b: bool)
    ensures var val := Extract(item, key, VAL); b == if val == "" then missing else IsTrue(val)
  {
    hide Extract;
    var val := ExtractField(item, key, VAL);
    b := missing;
    if val != "" {
      b := val == "true" || val == "1";
    }
  }

  method ExtractShare(item: string) returns (s: Share)
    ensures s == ShareOf(item)
  {
    hide Extract, Atoi;
    var id := ExtractField(item, "id", 32);
    var title := ExtractField(item, "label", 64);
    var server := ExtractField(item, "server", 128);
    var share := ExtractField(item, "share", 128);
    var path := ExtractField(item, "path", 256);
    var user := ExtractField(item, "username", 64);
    var password := ExtractField(item, "password", 64);
    var workgroup := ExtractField(item, "workgroup", 64);
    var val := ExtractField(item, "port", VAL);
    var port := DEFAULT_PORT as int;
    if val != "" && Atoi(val) > 0 {
      port := Atoi(val);
    }
    var readOnly := ExtractFlag(item, "is_read_only", false);
    var browseOnly := ExtractFlag(item, "browse_only", false);
    var enabled := ExtractFlag(item, "enabled", true);
    s := Share(enabled, browseOnly, readOnly, id, title, server, port, share, path, user, password, workgroup);
  }

  /** The string-aware search for an object's closing brace. */
  method FindClose(s: string, start: nat) returns (end: nat)
    requires start <= |s|
    ensures end == start + CloseObject(s[start..], false, false)
  {
    var inString, escaped := false, false;
    end := start;
    while end < |s|
      invariant start <= end <= |s|
      invariant start + CloseObject(s[start..], false, false) == end + CloseObject(s[end..], inString, escaped)
    {
      assert s[end..][1..] == s[end + 1..];
      var c := s[end];
      if escaped {
        escaped := false;
      } else if c == '\\' && inString {
        escaped := true;
      } else if c == '"' {
        inString := !inString;
      } else if !inString && c == '}' {
        return;
      } else if !inString && c == ']' {
        return |s|;
      }
      end := end + 1;
    }
  }

  lemma ItemsFrom(shares: seq<Share>, i: nat)
    requires i < |shares|
    ensures Items(shares[i..])
         == "    " + Object(shares[i]) + LineEnd(i + 1 == |shares|) + Items(shares[i + 1..])
  {
    hide Object, LineEnd;
    assert shares[i..][0] == shares[i] && shares[i..][1..] == shares[i + 1..];
  }

  lemma Appended(a: string, b: string, c: string, d: string, e: string)
    ensures a + (b + c + d + e) == a + b + c + d + e
  {
  }

  lemma NoMoreItems(items: string)
    ensures Items([]) == "" && items + Items([]) == items
  {
  }

  lemma SavedIs(s: Saved)
    ensures SavedText(s)
         == "{\n" + Rows(s.flags) + ("  " + (NAME + (": [" + ("\n" + Items(s.shares) + TAIL))))
  {
  }

  lemma ParseDone(s: string, shares: seq<Share>)
    requires s == "" || s[0] == ']'
    ensures ParseItems(s, shares) == shares
  {
  }

  /** One turn of the parser's loop, at a position in the whole text. */
  lemma ParseStepAt(buf: string, at: nat, shares: seq<Share>)
    requires at < |buf| && buf[at] != ']'
    ensures var start := at + IndexOf(buf[at..], '{');
      if start == |buf| then ParseItems(buf[at..], shares) == shares
      else
        var end := start + CloseObject(buf[start..], false, false);
        if end == |buf| then ParseItems(buf[at..], shares) == shares
        else ParseItems(buf[at..], shares) == ParseItems(buf[end + 1..], AddShare(shares, buf[start..end + 1]))
  {
    hide CloseObject, AddShare, IndexOf;
    var rest := buf[at..];
    var start := IndexOf(rest, '{');
    if start < |rest| {
      assert rest[start..] == buf[at + start..];
      var end := start + CloseObject(rest[start..], false, false);
      if end < |rest| {
        assert rest[start..end + 1] == buf[at + start..at + end + 1];
        assert rest[end + 1..] == buf[at + end + 1..];
      }
    }
  }

  class Store {
    var flags: Flags
    const shares: array<Share>
    var count: nat

    ghost predicate Valid()
      reads this
    {
      shares.Length == MAX_SHARES && count <= MAX_SHARES
    }

    ghost function Now(): Saved
      requires Valid()
      reads this, shares
    {
      Saved(flags, shares[..count])
    }

    constructor ()
      ensures Valid() && Now() == Saved(Flags(true, true, false, false), []) && fresh(shares)
    {
      flags := Flags(true, true, false, false);
      shares := new Share[MAX_SHARES];
      count := 0;
    }

    /** save_settings_to_disk: the text of the file. */
    method Save() returns (text: string)
      requires Valid() && forall i :: 0 <= i < count ==> Fits(shares[i])
      ensures text == SavedText(Now())
    {
      hide Fits, Object, Items, Rows, SavedText;
      var items := "";
      var i := 0;
      while i < count
        invariant i <= count
        invariant items + Items(shares[i..count]) == Items(shares[..count])
      {
        var object_ := PrintShare(shares[i]);
        ItemsFrom(shares[..count], i);
        assert shares[..count][i..] == shares[i..count] && shares[..count][i + 1..] == shares[i + 1..count];
        Appended(items, "    ", object_, LineEnd(i + 1 == count), Items(shares[i + 1..count]));
        items := items + "    " + object_ + (if i + 1 < count then ",\n" else "\n");
        i := i + 1;
      }
      assert shares[i..count] == [];
      NoMoreItems(items);
      SavedIs(Now());
      text := "{\n" + Rows(flags) + ("  " + (NAME + (": [" + ("\n" + items + TAIL))));
    }

    /** Take one object's share, if there is room and it can be used. */
    method Take(item: string)
      requires Valid()
      modifies this`count, shares
      ensures Valid() && shares[..count] == AddShare(old(shares[..count]), item)
    {
      hide ShareOf;
      if count < MAX_SHARES {
        var s := ExtractShare(item);
        if s.server != "" && (s.share != "" || '/' in s.server || '\\' in s.server) {
          if s.id == "" {
            s := s.(id := "smb" + Print(count));
          }
          shares[count] := s;
          count := count + 1;
        }
      }
    }

    /** pkg_cache_parse_smb_shares, into the array of shares. */
    method Parse(buf: string)
      requires Valid()
      modifies this`count, shares
      ensures Valid() && shares[..count] == ParseShares(buf)
    {
      hide CloseObject, AddShare, Find, IndexOf, ParseItems;
      count := 0;
      var name := Find(buf, NAME);
      if name == |buf| {
        return;
      }
      var at := name + IndexOf(buf[name..], '[');
      if at == |buf| {
        return;
      }
      at := at + 1;
      while at < |buf| && buf[at] != ']'
        invariant at <= |buf| && Valid()
        invariant ParseItems(buf[at..], shares[..count]) == ParseShares(buf)
        decreases |buf| - at
      {
        ParseStepAt(buf, at, shares[..count]);
        var start := at + IndexOf(buf[at..], '{');
        if start == |buf| {
          return;
        }
        var end := FindClose(buf, start);
        if end == |buf| {
          return;
        }
        Take(buf[start..end + 1]);
        at := end + 1;
      }
      ParseDone(buf[at..], shares[..count]);
    }

    /** load_settings_from_disk, given what the file holds. */
    method Load(file: string)
      requires Valid()
      modifies this, shares
      ensures Valid() && Now() == Loaded(old(Now()), file)
    {
      hide LoadFlag, ParseShares;
      var buf := if |file| < BUFFER then file else file[..BUFFER - 1];
      if |buf| == 0 {
        return;
      }
      flags := Flags(LoadFlag(buf, MOVE, "false", flags.moveToEnd), LoadFlag(buf, FADE, "false", flags.fade),
                     LoadFlag(buf, ALL, "true", flags.allSources), LoadFlag(buf, DEBUG, "true", flags.debug));
      Parse(buf);
    }
  }

  // --- what is saved is loaded ---

  /** What a share's own object says: texts as shown, and the usual port for one that is none. */
  function ShownShare(s: Share): Share {
    s.(id := Shown(s.id), title := Shown(s.title), server := Shown(s.server), share := Shown(s.share),
       path := Shown(s.path), user := Shown(s.user), password := Shown(s.password), workgroup := Shown(s.workgroup),
       port := if s.port > 0 then s.port else DEFAULT_PORT)
  }

  /** A loaded list with one more share, if it names a server; a missing id is made up. */
  function AddShown(shares: seq<Share>, s: Share): seq<Share> {
    var t := ShownShare(s);
    if |shares| >= MAX_SHARES || !Usable(t) then shares
    else shares + [if t.id == "" then t.(id := "smb" + Print(|shares|)) else t]
  }

  function AddAll(done: seq<Share>, todo: seq<Share>): seq<Share>
    decreases |todo|
  {
    if todo == [] then done else AddAll(AddShown(done, todo[0]), todo[1..])
  }

  // A share with an id, a server, a port, and no control characters; quotes, backslashes, braces and brackets may
  // occur.
  predicate Clean(s: Share) {
    && Printable(s.id) && Printable(s.title) && Printable(s.server) && Printable(s.share) && Printable(s.path)
    && Printable(s.user) && Printable(s.password) && Printable(s.workgroup)
    && s.id != "" && Usable(s) && s.port > 0
  }

  function Key(i: nat): (k: string)
    requires i < 12
    ensures k != ""
  {
    if i == 0 then "id" else if i == 1 then "label" else if i == 2 then "server" else if i == 3 then "port"
    else if i == 4 then "share" else if i == 5 then "path" else if i == 6 then "username"
    else if i == 7 then "password" else if i == 8 then "workgroup" else if i == 9 then "is_read_only"
    else if i == 10 then "browse_only" else "enabled"
  }

  function KeyLength(i: nat): nat {
    if i == 0 then 2 else if i in {3, 5} then 4 else if i in {1, 4} then 5 else if i == 2 then 6
    else if i in {6, 7} then 8 else if i == 8 then 9 else if i == 9 then 12 else if i == 10 then 11 else 7
  }

  function KeySecond(i: nat): char {
    if i == 0 then 'd' else if i in {1, 5, 7} then 'a' else if i == 2 then 'e' else if i in {3, 8} then 'o'
    else if i == 4 then 'h' else if i in {6, 9} then 's' else if i == 10 then 'r' else 'n'
  }

  lemma KeyShape(i: nat)
    requires i < 12
    ensures |Key(i)| == KeyLength(i) && Key(i)[1] == KeySecond(i)
  {
  }

  lemma KeyLetters(i: nat)
    requires i < 12
    ensures IsKey(Key(i))
  {
    if i < 6 {
      FirstLetters(i);
    } else {
      LastLetters(i);
    }
  }

  lemma FirstLetters(i: nat)
    requires i < 6
    ensures IsKey(Key(i))
  {
  }

  lemma LastLetters(i: nat)
    requires 6 <= i < 12
    ensures IsKey(Key(i))
  {
  }

  lemma KeysApart(i: nat, j: nat)
    requires i < j < 12
    ensures Key(i) != Key(j)
  {
    hide Key;
    KeyShape(i);
    KeyShape(j);
  }

  lemma FieldKeys(s: Share, i: nat)
    requires i < 12
    ensures ShareFields(s)[i].key == Key(i)
  {
  }

  lemma NumberLawful(key: string, n: int)
    requires IsKey(key)
    ensures Lawful(Plain(key, PrintInt(n)))
  {
    hide Print;
    var digits := Print(if n >= 0 then n else -n);
    assert forall c :: c in digits ==> IsDigit(c);
  }

  lemma FieldLawful(s: Share, i: nat)
    requires i < 12
    ensures Lawful(ShareFields(s)[i])
  {
    hide Printable, Bare, PrintInt, IsKey, Flag, PlainText;
    KeyLetters(i);
    FlagLawful(Key(i), s.readOnly);
    FlagLawful(Key(i), s.browseOnly);
    FlagLawful(Key(i), s.enabled);
    NumberLawful(Key(i), s.port);
    FieldKeys(s, i);
  }

  /** Every field of a share is found under its key in the share's own object. */
  lemma Found(s: Share, i: nat, max: nat)
    requires i < 12 && |ShareFields(s)[i].text| < max
    ensures Extract(Object(s), ShareFields(s)[i].key, max) == ReadBack(ShareFields(s)[i])
  {
    hide Extract, Lines, Lawful, ShareFields, ReadBack;
    var fs := ShareFields(s);
    forall j | 0 <= j <= i
      ensures Lawful(fs[j]) && (j < i ==> fs[j].key != fs[i].key)
    {
      FieldLawful(s, j);
      FieldKeys(s, j);
      FieldKeys(s, i);
      if j < i {
        KeysApart(j, i);
      }
    }
    FieldFound(DEEPER, fs, i, "    }", max);
    var text := Lines(DEEPER, fs) + "    }";
    var key := fs[i].key;
    forall k | 0 <= k < 2
      ensures !MatchAt("{\n" + text, Pattern(key), k)
    {
      if MatchAt("{\n" + text, Pattern(key), k) {
        MatchParts("{\n" + text, key, k);
      }
    }
    ExtractSkip("{\n", text, key, max);
    assert Object(s) == "{\n" + text;
  }

  // The arrays the texts are read into.
  function TextSize(i: nat): nat {
    if i == 0 then 32 else if i in {2, 4} then 128 else if i == 5 then 256 else 64
  }

  lemma FieldFits(s: Share, i: nat)
    requires i < 12 && Fits(s)
    ensures |ShareFields(s)[i].text| < TextSize(i)
  {
    hide Print, Pow10;
    assert Pow10(10) == 1_0000_0000_00 by { PowersOfTen(); }
    PrintShort(if s.port >= 0 then s.port else -s.port, 10);
  }

  lemma PowersOfTen()
    ensures Pow10(10) == 1_0000_0000_00
  {
    assert Pow10(5) == 1_0000_0;
  }

  lemma FieldsAre(s: Share)
    ensures var fs := ShareFields(s);
      && fs[0] == Text("id", s.id) && fs[1] == Text("label", s.title) && fs[2] == Text("server", s.server)
      && fs[3] == Plain("port", PrintInt(s.port)) && fs[4] == Text("share", s.share) && fs[5] == Text("path", s.path)
      && fs[6] == Text("username", s.user) && fs[7] == Text("password", s.password)
      && fs[8] == Text("workgroup", s.workgroup) && fs[9] == Plain("is_read_only", Flag(s.readOnly))
      && fs[10] == Plain("browse_only", Flag(s.browseOnly)) && fs[11] == Plain("enabled", Flag(s.enabled))
  {
    hide PrintInt, Flag;
  }

  /** A share is read back from its own object as shown. */
  lemma ShareBack(s: Share)
    requires Fits(s)
    ensures ShareOf(Object(s)) == ShownShare(s)
  {
    hide Extract, Object, PrintInt, Atoi, ShareFields, Shown;
    var fs, t := ShareFields(s), Object(s);
    forall i | 0 <= i < 12
      ensures Extract(t, fs[i].key, TextSize(i)) == ReadBack(fs[i])
    {
      FieldFits(s, i);
      Found(s, i, TextSize(i));
    }
    FieldsAre(s);
    PrintIntRead(s.port);
    assert PrintInt(s.port) != "" by { NumberLawful("n", s.port); }
  }

  // --- where a share's object ends ---

  // A text with whole strings in it, and no closing brace or bracket outside of them.
  ghost predicate Passed(a: string) {
    forall b {:trigger a + b} :: CloseObject(a + b, false, false) == |a| + CloseObject(b, false, false)
  }

  lemma PassedJoined(a: string, c: string)
    requires Passed(a) && Passed(c)
    ensures Passed(a + c)
  {
    hide CloseObject;
    forall b: string
      ensures CloseObject(a + c + b, false, false) == |a + c| + CloseObject(b, false, false)
    {
      assert a + c + b == a + (c + b);
    }
  }

  lemma {:induction false} PassedPlain(a: string)
    requires forall c :: c in a ==> c != '"' && c != '}' && c != ']'
    ensures Passed(a)
  {
    forall b: string
      ensures CloseObject(a + b, false, false) == |a| + CloseObject(b, false, false)
    {
      if a == "" {
        assert a + b == b;
      } else {
        assert forall c :: c in a[1..] ==> c in a;
        PassedPlain(a[1..]);
        assert a[0] in a;
        assert (a + b)[1..] == a[1..] + b;
      }
    }
  }

  lemma {:induction false} InString(s: string, b: string)
    ensures CloseObject(Escape(s) + "\"" + b, true, false) == |Escape(s)| + 1 + CloseObject(b, false, false)
  {
    EscapeFirst(s);
    if s == "" {
      assert Escape(s) + "\"" + b == "\"" + b;
      assert ("\"" + b)[1..] == b;
    } else {
      InRest(EscapeChar(s[0]), Escape(s[1..]), b);
      InString(s[1..], b);
      CharPassed(s[0], Escape(s[1..]) + "\"" + b);
    }
  }

  lemma InRest(c: string, e: string, b: string)
    ensures c + e + "\"" + b == c + (e + "\"" + b)
  {
  }

  lemma CharPassed(c: char, rest: string)
    ensures CloseObject(EscapeChar(c) + rest, true, false) == |EscapeChar(c)| + CloseObject(rest, true, false)
  {
    var t := EscapeChar(c) + rest;
    if |EscapeChar(c)| == 2 {
      assert t[1..][1..] == rest;
    } else if |EscapeChar(c)| == 1 {
      assert t[1..] == rest;
    } else {
      assert t == rest;
    }
  }

  lemma PassedQuoted(s: string)
    ensures Passed(Quoted(s))
  {
    hide Escape;
    forall b: string
      ensures CloseObject(Quoted(s) + b, false, false) == |Quoted(s)| + CloseObject(b, false, false)
    {
      InString(s, b);
      assert Quoted(s) + b == "\"" + (Escape(s) + "\"" + b);
      assert ("\"" + (Escape(s) + "\"" + b))[1..] == Escape(s) + "\"" + b;
    }
  }

  // A quoted text, or a plain one without a bracket.
  predicate Unbracketed(f: Field) {
    f.Text? || (f.Plain? && ']' !in f.text)
  }

  lemma PassedLine(indent: string, f: Field, end: string)
    requires Spaces(indent) && Lawful(f) && Unbracketed(f) && (end == "\n" || end == ",\n")
    ensures Passed(Line(indent, f, end))
  {
    hide Passed, Escape;
    PassedPlain(indent);
    KeyQuoted(f.key);
    PassedQuoted(f.key);
    PassedJoined(indent, Quoted(f.key));
    PassedPlain(": ");
    PassedJoined(indent + Quoted(f.key), ": ");
    assert Label(indent, f.key) == indent + Quoted(f.key) + ": ";
    if f.Text? {
      PassedQuoted(f.text);
    } else {
      PassedPlain(f.text);
    }
    PassedJoined(Label(indent, f.key), Written(f));
    PassedPlain(end);
    PassedJoined(Label(indent, f.key) + Written(f), end);
  }

  lemma KeyQuoted(key: string)
    requires IsKey(key)
    ensures Quoted(key) == "\"" + key + "\""
  {
    forall c | c in key
      ensures KeyChar(c)
    {
    }
    EscapeBare(key);
  }

  lemma {:induction false} PassedLines(indent: string, fs: seq<Field>)
    requires Spaces(indent) && forall i :: 0 <= i < |fs| ==> Lawful(fs[i]) && Unbracketed(fs[i])
    ensures Passed(Lines(indent, fs))
  {
    hide Passed, Lawful, Line, Unbracketed;
    if fs == [] {
      PassedPlain("");
    } else {
      PassedLine(indent, fs[0], LineEnd(|fs| == 1));
      PassedLines(indent, fs[1..]);
      PassedJoined(Line(indent, fs[0], LineEnd(|fs| == 1)), Lines(indent, fs[1..]));
    }
  }

  /** A share's object ends at its last character, whatever its texts contain. */
  lemma ObjectCloses(s: Share, rest: string)
    ensures CloseObject(Object(s) + rest, false, false) == |Object(s)| - 1
  {
    hide CloseObject, Lines, Lawful, ShareFields, Unbracketed, Printable;
    var fs := ShareFields(s);
    forall i | 0 <= i < 12
      ensures Lawful(fs[i]) && Unbracketed(fs[i])
    {
      FieldLawful(s, i);
      NoBracket(s, i);
    }
    PassedLines(DEEPER, fs);
    PassedPlain("{\n");
    PassedJoined("{\n", Lines(DEEPER, fs));
    PassedPlain("    ");
    var body := "{\n" + Lines(DEEPER, fs) + "    ";
    PassedJoined("{\n" + Lines(DEEPER, fs), "    ");
    assert Object(s) + rest == body + ("}" + rest);
    Brace(rest);
  }

  lemma NoBracket(s: Share, i: nat)
    requires i < 12
    ensures Unbracketed(ShareFields(s)[i])
  {
    hide Print;
    var digits := Print(if s.port >= 0 then s.port else -s.port);
    assert forall c :: c in digits ==> IsDigit(c);
  }

  lemma Brace(rest: string)
    ensures CloseObject("}" + rest, false, false) == 0
  {
  }

  // --- the list ---

  lemma {:induction false} IndexAfter(a: string, b: string, c: char)
    requires c !in a
    ensures IndexOf(a + b, c) == |a| + IndexOf(b, c)
  {
    if a == "" {
      assert a + b == b;
    } else {
      assert (a + b)[1..] == a[1..] + b;
      assert forall x :: x in a[1..] ==> x in a;
      IndexAfter(a[1..], b, c);
    }
  }

  lemma AddBack(shares: seq<Share>, s: Share)
    requires Fits(s)
    ensures AddShare(shares, Object(s)) == AddShown(shares, s)
  {
    hide ShareOf, Object, ShownShare;
    ShareBack(s);
  }

  /** One object off the front, after a separator. */
  lemma ParseStep(lead: string, o: string, rest: string, shares: seq<Share>)
    requires lead != "" && lead[0] != ']' && '{' !in lead && o != "" && o[0] == '{'
    requires CloseObject(o + rest, false, false) == |o| - 1
    ensures ParseItems(lead + (o + rest), shares) == ParseItems(rest, AddShare(shares, o))
  {
    hide CloseObject, AddShare, IndexOf, ParseItems;
    var t := lead + (o + rest);
    IndexAfter(lead, o + rest, '{');
    IndexHere(o + rest);
    ThreeParts(lead, o, rest);
    ParseStepAt(t, 0, shares);
    assert t[0..] == t;
  }

  lemma ThreeParts(a: string, b: string, c: string)
    ensures var t := a + (b + c);
      t[|a|..] == b + c && t[|a|..|a| + |b|] == b && t[|a| + |b|..] == c
    ensures b != "" ==> (b + c)[0] == b[0]
    ensures a != "" ==> (a + (b + c))[0] == a[0]
  {
  }

  lemma IndexHere(s: string)
    requires s != ""
    ensures IndexOf(s, s[0]) == 0
  {
  }

  lemma OneItem(lead: string, s: Share, rest: string, shares: seq<Share>)
    requires lead == "\n    " || lead == ",\n    "
    requires Fits(s)
    ensures ParseItems(lead + (Object(s) + rest), shares) == ParseItems(rest, AddShown(shares, s))
  {
    hide CloseObject, Fits, AddShare, AddShown, Object, ParseItems;
    ObjectStarts(s);
    ObjectCloses(s, rest);
    AddBack(shares, s);
    ParseStep(lead, Object(s), rest, shares);
  }

  lemma ObjectStarts(s: Share)
    ensures |Object(s)| > 1 && Object(s)[0] == '{'
  {
  }

  /** All of a saved list is parsed, in order. */
  lemma {:induction false} ItemsBack(lead: string, todo: seq<Share>, done: seq<Share>)
    requires lead == "\n" || (lead == ",\n" && todo != [])
    requires forall i :: 0 <= i < |todo| ==> Fits(todo[i])
    ensures ParseItems(lead + Items(todo) + TAIL, done) == AddAll(done, todo)
    decreases |todo|
  {
    hide Fits, AddShown, Object, ParseItems;
    if todo == [] {
      NoItems(done);
      assert lead + Items(todo) + TAIL == "\n" + TAIL;
    } else {
      var end := LineEnd(|todo| == 1);
      var rest := end + Items(todo[1..]) + TAIL;
      OneItem(lead + "    ", todo[0], rest, done);
      ItemsFirst(lead, todo);
      ItemsBack(end, todo[1..], AddShown(done, todo[0]));
    }
  }

  lemma ItemsFirst(lead: string, todo: seq<Share>)
    requires todo != []
    ensures lead + Items(todo) + TAIL
         == lead + "    " + (Object(todo[0]) + (LineEnd(|todo| == 1) + Items(todo[1..]) + TAIL))
  {
    hide Object, Items, LineEnd;
    var o, e, rest := Object(todo[0]), LineEnd(|todo| == 1), Items(todo[1..]);
    assert Items(todo) == "    " + o + e + rest by { ItemsUnfold(todo); }
    Regroup(lead, "    ", o, e, rest, TAIL);
  }

  lemma ItemsUnfold(todo: seq<Share>)
    requires todo != []
    ensures Items(todo) == "    " + Object(todo[0]) + LineEnd(|todo| == 1) + Items(todo[1..])
  {
  }

  lemma Regroup(a: string, b: string, c: string, d: string, e: string, f: string)
    ensures a + (b + c + d + e) + f == a + b + (c + (d + e + f))
  {
  }

  lemma NoItems(done: seq<Share>)
    ensures ParseItems("\n" + TAIL, done) == done
  {
    IndexAfter("\n" + TAIL, "", '{');
    assert "\n" + TAIL + "" == "\n" + TAIL;
  }

  // --- the flags ---

  lemma RowLawful(key: string, b: bool)
    requires IsKey(key)
    ensures Lawful(Plain(key, Flag(b))) && Safe(Written(Plain(key, Flag(b))))
  {
    FlagLawful(key, b);
    LawfulSafe(Plain(key, Flag(b)));
  }

  /** A row's key is found in the row itself. */
  lemma RowFlag(key: string, b: bool, more: string, word: string, was: bool)
    requires word == "true" || word == "false"
    ensures LoadFlag(Row(key, b) + more, key, word, was) == b
  {
    hide Find, Line, MatchAt, Flag;
    FirstAt(INDENT, Plain(key, Flag(b)), ",\n", more);
    var t := Row(key, b) + more;
    var v := |INDENT| + |key| + 3;
    var rest := " " + Flag(b) + ",\n" + more;
    assert t[v..] == rest;
    assert MatchAt(t, word, v) <==> MatchAt(rest, word, 0) by { MatchFrom(t, word, v, 0); }
    assert MatchAt(t, word, v + 1) <==> MatchAt(rest, word, 1) by { MatchFrom(t, word, v, 1); }
    assert rest == " " + Flag(b) + (",\n" + more);
    WordIs(b, word, ",\n" + more);
  }

  lemma MatchFrom(t: string, p: string, v: nat, i: nat)
    requires v <= |t|
    ensures MatchAt(t, p, v + i) <==> MatchAt(t[v..], p, i)
  {
    MatchShift(t[..v], t[v..], p, i);
    assert t[..v] + t[v..] == t;
  }

  lemma WordIs(b: bool, word: string, more: string)
    requires word == "true" || word == "false"
    ensures MatchAt(" " + Flag(b) + more, word, 1) <==> b == (word == "true")
    ensures !MatchAt(" " + Flag(b) + more, word, 0)
  {
    var t := " " + Flag(b) + more;
    assert t[0] == ' ' && t[0..|word|] != word;
    assert t[1] == Flag(b)[0];
    if Flag(b) == word {
      assert t[1..1 + |word|] == word;
    }
  }

  /** A text before which nothing has the key. */
  lemma FlagSkip(a: string, b: string, key: string, word: string, was: bool)
    requires forall k :: 0 <= k < |a| ==> !MatchAt(a + b, Pattern(key), k)
    ensures LoadFlag(a + b, key, word, was) == LoadFlag(b, key, word, was)
  {
    hide MatchAt, Find;
    FindSkip(a, b, Pattern(key));
    var i := Find(b, Pattern(key));
    MatchShift(a, b, word, i + |key| + 3);
    MatchShift(a, b, word, i + |key| + 4);
  }

  lemma RowSkip(key: string, b: bool, more: string, other: string, word: string, was: bool)
    requires IsKey(key) && IsKey(other) && key != other
    ensures LoadFlag(Row(key, b) + more, other, word, was) == LoadFlag(more, other, word, was)
  {
    hide MatchAt, Line, LoadFlag;
    var f := Plain(key, Flag(b));
    RowLawful(key, b);
    forall k | 0 <= k < |Row(key, b)|
      ensures !MatchAt(Row(key, b) + more, Pattern(other), k)
    {
      NoKeyInLine(INDENT, f, ",\n", more, other, k);
    }
    FlagSkip(Row(key, b), more, other, word, was);
  }

  lemma FlagKeys()
    ensures IsKey(MOVE) && IsKey(FADE) && IsKey(ALL) && IsKey(DEBUG) && IsKey(SHARES)
    ensures |MOVE| == 21 && |FADE| == 23 && |ALL| == 16 && |DEBUG| == 17 && |SHARES| == 10
  {
  }

  lemma StartSkip(text: string, key: string, word: string, was: bool)
    ensures LoadFlag("{\n" + text, key, word, was) == LoadFlag(text, key, word, was)
  {
    hide LoadFlag;
    forall k | 0 <= k < 2
      ensures !MatchAt("{\n" + text, Pattern(key), k)
    {
      if MatchAt("{\n" + text, Pattern(key), k) {
        MatchParts("{\n" + text, key, k);
      }
    }
    FlagSkip("{\n", text, key, word, was);
  }

  /** All four flags are loaded as they were saved. */
  lemma FlagsBack(f: Flags, more: string, was: Flags)
    ensures var t := "{\n" + Rows(f) + more;
      && LoadFlag(t, MOVE, "false", was.moveToEnd) == f.moveToEnd
      && LoadFlag(t, FADE, "false", was.fade) == f.fade
      && LoadFlag(t, ALL, "true", was.allSources) == f.allSources
      && LoadFlag(t, DEBUG, "true", was.debug) == f.debug
  {
    hide LoadFlag, Row, IsKey;
    FlagKeys();
    var r3 := Row(DEBUG, f.debug) + more;
    var r2 := Row(ALL, f.allSources) + r3;
    var r1 := Row(FADE, f.fade) + r2;
    var r0 := Row(MOVE, f.moveToEnd) + r1;
    assert "{\n" + Rows(f) + more == "{\n" + r0;
    StartSkip(r0, MOVE, "false", was.moveToEnd);
    RowFlag(MOVE, f.moveToEnd, r1, "false", was.moveToEnd);
    StartSkip(r0, FADE, "false", was.fade);
    RowSkip(MOVE, f.moveToEnd, r1, FADE, "false", was.fade);
    RowFlag(FADE, f.fade, r2, "false", was.fade);
    StartSkip(r0, ALL, "true", was.allSources);
    RowSkip(MOVE, f.moveToEnd, r1, ALL, "true", was.allSources);
    RowSkip(FADE, f.fade, r2, ALL, "true", was.allSources);
    RowFlag(ALL, f.allSources, r3, "true", was.allSources);
    StartSkip(r0, DEBUG, "true", was.debug);
    RowSkip(MOVE, f.moveToEnd, r1, DEBUG, "true", was.debug);
    RowSkip(FADE, f.fade, r2, DEBUG, "true", was.debug);
    RowSkip(ALL, f.allSources, r3, DEBUG, "true", was.debug);
    RowFlag(DEBUG, f.debug, more, "true", was.debug);
  }

  // --- the list's name ---

  lemma NameParts(t: string, i: nat)
    requires MatchAt(t, NAME, i)
    ensures i + 12 <= |t| && t[i] == '"' && t[i + 11] == '"'
    ensures forall x :: 0 <= x < 10 ==> t[i + 1 + x] == SHARES[x]
  {
    var m := t[i..i + 12];
    forall x | 0 <= x < 12
      ensures t[i + x] == NAME[x]
    {
      assert m[x] == t[i + x];
    }
    assert NAME[0] == '"' && NAME[11] == '"';
    forall x | 0 <= x < 10
      ensures t[i + 1 + x] == SHARES[x]
    {
      assert NAME[1 + x] == SHARES[x];
    }
  }

  lemma NoNameInRow(key: string, b: bool, more: string, i: nat)
    requires IsKey(key) && key != SHARES && i < |Row(key, b)|
    ensures !MatchAt(Row(key, b) + more, NAME, i)
  {
    hide MatchAt, Label;
    var t, l := Row(key, b) + more, Label(INDENT, key);
    LabelQuotes(INDENT, key);
    FlagKeys();
    if MatchAt(t, NAME, i) {
      NameParts(t, i);
      assert t[i + 1 + 0] == SHARES[0];
      assert forall x :: 0 <= x < |l| ==> t[x] == l[x];
      RowQuote(key, b, more, i);
      KeyIsName(t, i, key);
    }
  }

  lemma KeyIsName(t: string, i: nat, key: string)
    requires IsKey(key) && i + 12 <= |t| && i + 1 + |key| < |t|
    requires t[i + 11] == '"' && forall x :: 0 <= x < 10 ==> t[i + 1 + x] == SHARES[x]
    requires t[i + 1 + |key|] == '"' && forall x :: 0 <= x < |key| ==> t[i + 1 + x] == key[x]
    ensures key == SHARES
  {
    FlagKeys();
    assert KeyChar(SHARES[if |key| < 10 then |key| else 9]);
    assert KeyChar(key[if |key| < 10 then |key| - 1 else if |key| > 10 then 10 else 9]);
  }

  lemma RowQuote(key: string, b: bool, more: string, i: nat)
    requires IsKey(key) && i < |Row(key, b)| && (Row(key, b) + more)[i] == '"'
    ensures i < |Label(INDENT, key)|
  {
    hide Label;
  }

  lemma NameSkip(key: string, b: bool, more: string)
    requires IsKey(key) && key != SHARES
    ensures Find(Row(key, b) + more, NAME) == |Row(key, b)| + Find(more, NAME)
  {
    hide MatchAt, Row, Find;
    forall i | 0 <= i < |Row(key, b)|
      ensures !MatchAt(Row(key, b) + more, NAME, i)
    {
      NoNameInRow(key, b, more, i);
    }
    FindSkip(Row(key, b), more, NAME);
  }

  lemma ShortSkip(two: string, more: string)
    requires |two| == 2 && '"' !in two
    ensures Find(two + more, NAME) == 2 + Find(more, NAME)
  {
    hide MatchAt, Find;
    forall i | 0 <= i < 2
      ensures !MatchAt(two + more, NAME, i)
    {
      if MatchAt(two + more, NAME, i) {
        NameParts(two + more, i);
      }
    }
    FindSkip(two, more, NAME);
  }

  lemma NameFound(f: Flags, list: string)
    ensures Find("{\n" + Rows(f) + ("  " + (NAME + list)), NAME) == |"{\n" + Rows(f)| + 2
  {
    hide Row, Find, IsKey;
    FlagKeys();
    var r4 := "  " + (NAME + list);
    var r3 := Row(DEBUG, f.debug) + r4;
    var r2 := Row(ALL, f.allSources) + r3;
    var r1 := Row(FADE, f.fade) + r2;
    var r0 := Row(MOVE, f.moveToEnd) + r1;
    assert "{\n" + Rows(f) + r4 == "{\n" + r0;
    ShortSkip("{\n", r0);
    NameSkip(MOVE, f.moveToEnd, r1);
    NameSkip(FADE, f.fade, r2);
    NameSkip(ALL, f.allSources, r3);
    NameSkip(DEBUG, f.debug, r4);
    ShortSkip("  ", NAME + list);
    MatchHere("", NAME, list);
    assert "" + (NAME + list) == NAME + list;
    FindIs(NAME + list, NAME, 0);
  }

  /** The whole list is found and parsed back. */
  lemma SharesBack(s: Saved)
    requires forall i :: 0 <= i < |s.shares| ==> Fits(s.shares[i])
    ensures ParseShares(SavedText(s)) == AddAll([], s.shares)
  {
    hide Rows, Find, IndexOf, Items, ParseItems, Fits, AddAll;
    var items := "\n" + Items(s.shares) + TAIL;
    var list := ": [" + items;
    NameFound(s.flags, list);
    ItemsBack("\n", s.shares, []);
    var head := "{\n" + Rows(s.flags) + "  ";
    var t := SavedText(s);
    assert t == head + (NAME + list);
    assert t[|head|..] == NAME + list;
    var before := NAME + ": ";
    BeforeBracket();
    IndexAfter(before, "[" + items, '[');
    IndexHere("[" + items);
    assert NAME + list == before + ("[" + items);
    assert t[|head| + |before| + 1..] == items;
  }

  lemma BeforeBracket()
    ensures '[' !in NAME + ": "
  {
  }

  // --- the file fits the reader's buffer ---

  function Cap(i: nat): nat {
    if i in {0, 1, 6, 7, 8} then 150 else if i in {2, 4} then 275 else if i == 5 then 530 else 40
  }

  function CapFrom(i: nat): nat
    decreases 12 - i
  {
    if i >= 12 then 0 else Cap(i) + CapFrom(i + 1)
  }

  lemma LineCap(s: Share, i: nat)
    requires i < 12 && Fits(s)
    ensures |Line(DEEPER, ShareFields(s)[i], ",\n")| <= Cap(i)
  {
    hide ShareFields, Written, Key, PrintInt;
    FieldKeys(s, i);
    KeyShape(i);
    TextCap(s, i);
    WrittenCap(ShareFields(s)[i]);
  }

  lemma WrittenCap(f: Field)
    ensures |Written(f)| <= 2 * |f.text| + 2
    ensures f.Plain? ==> |Written(f)| == |f.text|
  {
  }

  lemma TextCap(s: Share, i: nat)
    requires i < 12 && Fits(s)
    ensures var f := ShareFields(s)[i];
      f.Plain? == (i == 3 || i >= 9) && |f.text| < if f.Plain? then 12 else TextSize(i)
  {
    hide Print, Pow10;
    PowersOfTen();
    PrintShort(if s.port >= 0 then s.port else -s.port, 10);
  }

  lemma {:induction false} LinesCap(s: Share, i: nat)
    requires i <= 12 && Fits(s)
    ensures |Lines(DEEPER, ShareFields(s)[i..])| <= CapFrom(i)
    decreases 12 - i
  {
    hide ShareFields, Cap, Fits, Line;
    if i < 12 {
      var fs := ShareFields(s);
      LinesCap(s, i + 1);
      assert fs[i..][0] == fs[i] && fs[i..][1..] == fs[i + 1..];
      LineCap(s, i);
      EndShorter(fs[i], |fs[i..]| == 1);
    }
  }

  lemma EndShorter(f: Field, last: bool)
    ensures |Line(DEEPER, f, LineEnd(last))| <= |Line(DEEPER, f, ",\n")|
  {
  }

  lemma ObjectCap(s: Share)
    requires Fits(s)
    ensures |Object(s)| <= 1997
  {
    LinesCap(s, 0);
    assert ShareFields(s)[0..] == ShareFields(s);
    assert CapFrom(6) == 570;
    assert CapFrom(0) == 1990;
  }

  lemma {:induction false} ItemsCap(shares: seq<Share>)
    requires forall i :: 0 <= i < |shares| ==> Fits(shares[i])
    ensures |Items(shares)| <= 2003 * |shares|
  {
    hide Object, Fits;
    if shares != [] {
      ObjectCap(shares[0]);
      ItemsCap(shares[1..]);
    }
  }

  lemma RowCap(key: string, b: bool)
    ensures |Row(key, b)| <= |key| + 13
  {
  }

  lemma SavedCap(s: Saved)
    requires |s.shares| <= MAX_SHARES && forall i :: 0 <= i < |s.shares| ==> Fits(s.shares[i])
    ensures 0 < |SavedText(s)| < BUFFER
  {
    hide Items, Row, Fits, IsKey;
    FlagKeys();
    RowCap(MOVE, s.flags.moveToEnd);
    RowCap(FADE, s.flags.fade);
    RowCap(ALL, s.flags.allSources);
    RowCap(DEBUG, s.flags.debug);
    ItemsCap(s.shares);
  }

  // --- exactly when a list comes back ---

  lemma ShownShareSame(s: Share)
    ensures ShownShare(s) == s && s.id != "" && Usable(s) <==> Clean(s)
  {
    hide Shown, Printable;
    ShownSame(s.id);
    ShownSame(s.title);
    ShownSame(s.server);
    ShownSame(s.share);
    ShownSame(s.path);
    ShownSame(s.user);
    ShownSame(s.password);
    ShownSame(s.workgroup);
  }

  /** An id that was made up is none that comes back as nothing. */
  lemma MadeUpShown(n: nat)
    ensures Shown("smb" + Print(n)) != ""
  {
  }

  lemma AddedSame(shares: seq<Share>, s: Share)
    requires |shares| < MAX_SHARES
    ensures shares <= AddShown(shares, s) && |AddShown(shares, s)| <= |shares| + 1
    ensures AddShown(shares, s) == shares + [s] <==> Clean(s)
  {
    hide Shown, Print, Clean;
    ShownShareSame(s);
    MadeUpShown(|shares|);
    var t := ShownShare(s);
    if Usable(t) && t.id == "" {
      assert Shown(s.id) == "" && s.id != "smb" + Print(|shares|);
      assert AddShown(shares, s)[|shares|].id == "smb" + Print(|shares|);
    } else if Usable(t) {
      assert AddShown(shares, s)[|shares|] == t;
    }
  }

  lemma {:induction false} AllAdded(done: seq<Share>, todo: seq<Share>)
    requires |done| + |todo| <= MAX_SHARES
    ensures done <= AddAll(done, todo) && |AddAll(done, todo)| <= |done| + |todo|
    ensures AddAll(done, todo) == done + todo <==> forall i :: 0 <= i < |todo| ==> Clean(todo[i])
    decreases |todo|
  {
    hide Clean, AddShown;
    if todo != [] {
      var more := AddShown(done, todo[0]);
      AddedSame(done, todo[0]);
      AllAdded(more, todo[1..]);
      assert done + [todo[0]] + todo[1..] == done + todo;
      if AddAll(done, todo) == done + todo {
        assert |more| == |done| + 1 && more[|done|] == (done + todo)[|done|] == todo[0];
        assert more == done + [todo[0]];
      }
    }
  }

  /** Settings that are saved and loaded again are what they were, whatever was set before loading, exactly if each
    * share has an id, a server, a port and no control characters. */
  lemma RoundTrip(s: Saved, was: Saved)
    requires |s.shares| <= MAX_SHARES && forall i :: 0 <= i < |s.shares| ==> Fits(s.shares[i])
    ensures Loaded(was, SavedText(s)) == Saved(s.flags, AddAll([], s.shares))
    ensures Loaded(was, SavedText(s)) == s <==> forall i :: 0 <= i < |s.shares| ==> Clean(s.shares[i])
  {
    hide Rows, ParseShares, LoadFlag, Fits, SavedText, Clean, AddAll;
    SavedCap(s);
    SharesBack(s);
    SavedSplit(s);
    FlagsBack(s.flags, AfterFlags(s), was.flags);
    AllAdded([], s.shares);
  }

  function AfterFlags(s: Saved): string {
    "  " + (NAME + (": [" + ("\n" + Items(s.shares) + TAIL)))
  }

  lemma SavedSplit(s: Saved)
    ensures SavedText(s) == "{\n" + Rows(s.flags) + AfterFlags(s)
  {
  }
}

/** The hand-written text records: escaping, and fields found again by searching for their keys. */
module JsonText {

  predicate MatchAt(s: string, p: string, i: nat) {
    i + |p| <= |s| && s[i..i + |p|] == p
  }

  /** strstr: where p first occurs in s; |s| if nowhere. */
  function Find(s: string, p: string): (i: nat)
    requires p != ""
    ensures i <= |s| && (i < |s| ==> MatchAt(s, p, i))
    ensures forall k :: 0 <= k < i ==> !MatchAt(s, p, k)
  {
    FindFrom(s, p, 0)
  }

  function FindFrom(s: string, p: string, i: nat): (r: nat)
    requires p != "" && i <= |s|
    ensures i <= r <= |s| && (r < |s| ==> MatchAt(s, p, r))
    ensures forall k :: i <= k < r ==> !MatchAt(s, p, k)
    decreases |s| - i
  {
    if i == |s| || MatchAt(s, p, i) then i else FindFrom(s, p, i + 1)
  }

  lemma FindIs(s: string, p: string, i: nat)
    requires p != "" && MatchAt(s, p, i) && forall k :: 0 <= k < i ==> !MatchAt(s, p, k)
    ensures Find(s, p) == i
  {
  }

  lemma MatchShift(a: string, b: string, p: string, i: nat)
    ensures MatchAt(a + b, p, |a| + i) <==> MatchAt(b, p, i)
  {
    if i + |p| <= |b| {
      assert (a + b)[|a| + i..|a| + i + |p|] == b[i..i + |p|];
    }
  }

  /** A beginning without any occurrence may be passed over. */
  lemma FindSkip(a: string, b: string, p: string)
    requires p != "" && forall k :: 0 <= k < |a| ==> !MatchAt(a + b, p, k)
    ensures Find(a + b, p) == |a| + Find(b, p)
  {
    hide MatchAt;
    var i := Find(b, p);
    forall k | 0 <= k < |a| + i
      ensures !MatchAt(a + b, p, k)
    {
      if k >= |a| {
        MatchShift(a, b, p, k - |a|);
      }
    }
    var j := Find(a + b, p);
    if i < |b| {
      MatchShift(a, b, p, i);
    }
    if j < |a + b| && j >= |a| {
      MatchShift(a, b, p, j - |a|);
    }
  }

  // --- escaping ---

  /** What one character becomes; other control characters are dropped. */
  function EscapeChar(c: char): (r: string)
    ensures |r| <= 2
  {
    if c == '"' || c == '\\' then ['\\', c]
    else if c == '\n' then "\\n"
    else if c == '\r' then "\\r"
    else if c == '\t' then "\\t"
    else if c >= ' ' then [c]
    else ""
  }

  function Escape(s: string): (r: string)
    ensures |r| <= 2 * |s|
  {
    if s == "" then "" else Escape(s[..|s| - 1]) + EscapeChar(s[|s| - 1])
  }

  lemma {:induction false} EscapeMore(s: string, n: nat)
    requires n <= |s|
    ensures Escape(s[..n]) <= Escape(s)
  {
    if n == |s| {
      assert s[..n] == s;
    } else {
      EscapeMore(s[..|s| - 1], n);
      assert s[..|s| - 1][..n] == s[..n];
    }
  }

  lemma EscapeStep(s: string, n: nat)
    requires n < |s|
    ensures Escape(s[..n + 1]) == Escape(s[..n]) + EscapeChar(s[n])
  {
    assert s[..n + 1][..n] == s[..n];
  }

  /** Before each of the first n characters, such a buffer has room for two more and the end. */
  ghost predicate Roomy(s: string, n: nat, max: nat)
    requires n <= |s|
  {
    forall m :: 0 <= m < n ==> |Escape(s[..m])| + 2 < max
  }

  /** escape_json_str: all of the text if the buffer can hold two characters for each of its own. */
  method EscapeJson(src: string, max: nat) returns (dst: string)
    requires max > 0
    ensures |dst| < max && dst <= Escape(src)
    ensures 2 * |src| < max ==> dst == Escape(src)
    ensures exists n :: 0 <= n <= |src| && dst == Escape(src[..n])
              && (n == |src| || |dst| + 2 >= max) && Roomy(src, n, max)
  {
    hide Escape;
    assert src[..0] == "" && Escape("") == "";
    dst := "";
    var s := 0;
    while s < |src| && |dst| + 2 < max
      invariant s <= |src| && |dst| < max && |dst| <= 2 * s
      invariant dst == Escape(src[..s]) && Roomy(src, s, max)
    {
      EscapeStep(src, s);
      var c := src[s];
      if c == '"' || c == '\\' {
        dst := dst + ['\\', c];
      } else if c == '\n' {
        dst := dst + "\\n";
      } else if c == '\r' {
        dst := dst + "\\r";
      } else if c == '\t' {
        dst := dst + "\\t";
      } else if c >= ' ' {
        dst := dst + [c];
      }
      s := s + 1;
    }
    EscapeMore(src, s);
    assert src[..|src|] == src;
  }

  predicate Printable(s: string) {
    forall c :: c in s ==> c >= ' '
  }

  // --- extraction ---

  function Flag(b: bool): string {
    if b then "true" else "false"
  }

  predicate IsTrue(s: string) {
    s == "true" || s == "1"
  }

  function Pattern(key: string): (p: string)
    ensures |p| == |key| + 3
  {
    "\"" + key + "\":"
  }

  function SkipSpaces(s: string): (r: string)
    ensures |r| <= |s|
  {
    if s != "" && (s[0] == ' ' || s[0] == '\t') then SkipSpaces(s[1..]) else s
  }

  /** The rest of a quoted value, backslashes taken out, cut to the buffer. */
  function Unquote(s: string, max: nat): string {
    if s == "" || s[0] == '"' || max <= 1 then ""
    else if s[0] == '\\' && |s| > 1 then [s[1]] + Unquote(s[2..], max - 1)
    else [s[0]] + Unquote(s[1..], max - 1)
  }

  predicate Stops(c: char) {
    c == ',' || c == '}' || c == '\n' || c == '\r' || c == ' '
  }

  function Unspaced(s: string, max: nat): string {
    if s == "" || Stops(s[0]) || max <= 1 then "" else [s[0]] + Unspaced(s[1..], max - 1)
  }

  function ValueAt(s: string, max: nat): string {
    var t := SkipSpaces(s);
    if t != "" && t[0] == '"' then Unquote(t[1..], max) else Unspaced(t, max)
  }

  /** extract_json_field, as a function. */
  function Extract(json: string, key: string, max: nat): string {
    var i := Find(json, Pattern(key));
    if i == |json| then "" else ValueAt(json[i + |key| + 3..], max)
  }

  method ReadQuoted(json: string, start: nat, max: nat) returns (val: string)
    requires start <= |json| && max > 0
    ensures val == Unquote(json[start..], max) && |val| < max
  {
    val := "";
    hide Unquote;
    var p := start;
    while p < |json| && json[p] != '"' && |val| + 1 < max
      invariant p <= |json| && |val| < max
      invariant val + Unquote(json[p..], max - |val|) == Unquote(json[start..], max)
    {
      UnquoteStep(json, p, max - |val|);
      if json[p] == '\\' && p + 1 < |json| {
        p := p + 1;
      }
      Append(val, json[p], Unquote(json[p + 1..], max - |val| - 1));
      val, p := val + [json[p]], p + 1;
    }
    UnquoteEnd(json[p..], max - |val|);
  }

  lemma Append(a: string, c: char, b: string)
    ensures a + ([c] + b) == a + [c] + b
  {
  }

  lemma UnquoteEnd(s: string, max: nat)
    ensures s == "" || s[0] == '"' || max <= 1 ==> Unquote(s, max) == ""
  {
  }

  lemma UnquoteStep(json: string, p: nat, max: nat)
    requires p < |json| && json[p] != '"' && max > 1
    ensures Unquote(json[p..], max)
         == if json[p] == '\\' && p + 1 < |json| then [json[p + 1]] + Unquote(json[p + 2..], max - 1)
            else [json[p]] + Unquote(json[p + 1..], max - 1)
  {
    var rest := json[p..];
    assert rest[1..] == json[p + 1..];
    if p + 1 < |json| {
      assert rest[2..] == json[p + 2..];
    }
  }

  method ReadUnspaced(json: string, start: nat, max: nat) returns (val: string)
    requires start <= |json| && max > 0
    ensures val == Unspaced(json[start..], max) && |val| < max
  {
    val := "";
    var p := start;
    while p < |json| && !Stops(json[p]) && |val| + 1 < max
      invariant p <= |json| && |val| < max
      invariant val + Unspaced(json[p..], max - |val|) == Unspaced(json[start..], max)
    {
      assert json[p..][1..] == json[p + 1..];
      val, p := val + [json[p]], p + 1;
    }
  }

  /** extract_json_field. */
  method ExtractField(json: string, key: string, max: nat) returns (val: string)
    requires max > 0
    ensures val == Extract(json, key, max) && |val| < max
  {
    hide Unquote, Unspaced;
    var i := Find(json, Pattern(key));
    if i == |json| {
      return "";
    }
    var p := i + |key| + 3;
    ghost var t := json[p..];
    while p < |json| && (json[p] == ' ' || json[p] == '\t')
      invariant p <= |json|
      invariant SkipSpaces(json[p..]) == SkipSpaces(t)
    {
      assert json[p..][1..] == json[p + 1..];
      p := p + 1;
    }
    if p < |json| && json[p] == '"' {
      assert json[p..][1..] == json[p + 1..];
      val := ReadQuoted(json, p + 1, max);
    } else {
      val := ReadUnspaced(json, p, max);
    }
  }

  // --- what is written is found ---

  /** What a reader gets for one character: line breaks and tabs lose their meaning, other controls are lost. */
  function ShownChar(c: char): string {
    if c == '\n' then "n" else if c == '\r' then "r" else if c == '\t' then "t" else if c >= ' ' then [c] else ""
  }

  function Shown(s: string): (r: string)
    ensures |r| <= |s| && Printable(r)
  {
    if s == "" then "" else ShownChar(s[0]) + Shown(s[1..])
  }

  lemma UnquoteChar(c: char, rest: string, max: nat)
    requires max > 1
    ensures Unquote(EscapeChar(c) + rest, max) == ShownChar(c) + Unquote(rest, max - |ShownChar(c)|)
  {
    var t := EscapeChar(c) + rest;
    assert t[|EscapeChar(c)|..] == rest;
  }

  /** An escaped text is read back up to its closing quote, if it fits. */
  lemma {:induction false} UnquoteShown(s: string, rest: string, max: nat)
    requires |s| < max
    ensures Unquote(Escape(s) + "\"" + rest, max) == Shown(s)
  {
    hide Escape, EscapeChar, ShownChar;
    EscapeFirst(s);
    if s == "" {
      assert Escape(s) + "\"" + rest == "\"" + rest;
    } else {
      ShownShort(s[0]);
      UnquoteShown(s[1..], rest, max - |ShownChar(s[0])|);
      assert Escape(s) + "\"" + rest == EscapeChar(s[0]) + (Escape(s[1..]) + "\"" + rest);
      UnquoteChar(s[0], Escape(s[1..]) + "\"" + rest, max);
    }
  }

  lemma ShownShort(c: char)
    ensures |ShownChar(c)| <= 1
  {
  }

  lemma PrintableRest(s: string)
    requires Printable(s) && s != ""
    ensures Printable(s[1..]) && ShownChar(s[0]) == [s[0]] && [s[0]] + s[1..] == s
  {
    assert s[0] in s;
    assert forall c :: c in s[1..] ==> c in s;
  }

  lemma {:induction false} ShownSame(s: string)
    ensures Shown(s) == s <==> Printable(s)
  {
    hide Printable, ShownChar;
    if s != "" && Printable(s) {
      PrintableRest(s);
      ShownSame(s[1..]);
    } else if s == "" {
      assert Printable(Shown(s));
    }
  }

  /** A text that fits is read back as it was, whatever follows it, exactly if it has no control characters. */
  lemma EscapeSurvives(s: string, rest: string, max: nat)
    requires |s| < max
    ensures Unquote(Escape(s) + "\"" + rest, max) == s <==> Printable(s)
  {
    UnquoteShown(s, rest, max);
    ShownSame(s);
  }

  /** A line break comes back as a letter. */
  lemma NewlineLost(rest: string)
    ensures Unquote(Escape("\n") + "\"" + rest, 2) == "n"
  {
    UnquoteShown("\n", rest, 2);
    assert Shown("") == "" && Shown("\n") == ShownChar('\n') + "";
  }

  lemma {:induction false} EscapeFirst(s: string)
    ensures Escape(s) == if s == "" then "" else EscapeChar(s[0]) + Escape(s[1..])
  {
    if |s| > 1 {
      var r := s[..|s| - 1];
      EscapeFirst(r);
      assert r[1..] == s[1..][..|s| - 2];
      assert s[1..][|s| - 2] == s[|s| - 1];
      assert Escape(s) == EscapeChar(s[0]) + Escape(s[1..][..|s| - 2]) + EscapeChar(s[|s| - 1]);
    } else if |s| == 1 {
      assert s[..0] == "" && s[1..] == "";
    }
  }

  // A value inside which a quote, unless it is the first or last character, has a backslash before it.
  predicate Safe(v: string) {
    forall j :: 0 < j < |v| - 1 && v[j] == '"' ==> v[j - 1] == '\\'
  }

  function Quoted(s: string): string {
    "\"" + Escape(s) + "\""
  }

  lemma {:induction false} EscapeSafe(s: string)
    ensures forall j :: 0 <= j < |Escape(s)| && Escape(s)[j] == '"' ==> j > 0 && Escape(s)[j - 1] == '\\'
  {
    if s != "" {
      EscapeSafe(s[..|s| - 1]);
    }
  }

  lemma QuotedSafe(s: string)
    ensures Safe(Quoted(s))
  {
    hide Escape;
    EscapeSafe(s);
    var e, q := Escape(s), Quoted(s);
    forall j | 0 < j < |q| - 1 && q[j] == '"'
      ensures q[j - 1] == '\\'
    {
      assert q[j] == e[j - 1];
      assert q[j - 1] == e[j - 2];
    }
  }

  // --- lines of fields ---

  predicate KeyChar(c: char) {
    'a' <= c <= 'z' || c == '_'
  }

  predicate IsKey(k: string) {
    k != "" && forall i :: 0 <= i < |k| ==> KeyChar(k[i])
  }

  predicate Spaces(s: string) {
    s != "" && forall i :: 0 <= i < |s| ==> s[i] == ' '
  }

  // A key with a text that is written escaped and in quotes, as it is in quotes, or as it is.
  datatype Field = Text(key: string, text: string) | Raw(key: string, text: string) | Plain(key: string, text: string)

  function Written(f: Field): string {
    match f
    case Text(_, text) => Quoted(text)
    case Raw(_, text) => "\"" + text + "\""
    case Plain(_, text) => text
  }

  // A text that escaping does not change.
  predicate Bare(s: string) {
    Printable(s) && '"' !in s && '\\' !in s
  }

  lemma BareLast(s: string)
    requires Bare(s) && s != ""
    ensures Bare(s[..|s| - 1]) && EscapeChar(s[|s| - 1]) == [s[|s| - 1]]
  {
    var r, last := s[..|s| - 1], s[|s| - 1];
    assert last in s && last != '"' && last != '\\' && last >= ' ';
    assert forall c :: c in r ==> c in s;
    assert Printable(r);
  }

  lemma {:induction false} EscapeBare(s: string)
    requires Bare(s)
    ensures Escape(s) == s
  {
    hide Bare, EscapeChar;
    if s != "" {
      BareLast(s);
      EscapeBare(s[..|s| - 1]);
    }
  }

  lemma {:induction false} SameLines(indent: string, fs: seq<Field>, gs: seq<Field>)
    requires |fs| == |gs|
    requires forall i :: 0 <= i < |fs| ==> fs[i].key == gs[i].key && Written(fs[i]) == Written(gs[i])
    ensures Lines(indent, fs) == Lines(indent, gs)
  {
    hide Written;
    if fs != [] {
      SameLines(indent, fs[1..], gs[1..]);
    }
  }

  function Label(indent: string, key: string): string {
    indent + "\"" + key + "\": "
  }

  function Line(indent: string, f: Field, end: string): string {
    Label(indent, f.key) + Written(f) + end
  }

  function LineEnd(last: bool): string {
    if last then "\n" else ",\n"
  }

  function Lines(indent: string, fs: seq<Field>): string {
    if fs == [] then "" else Line(indent, fs[0], LineEnd(|fs| == 1)) + Lines(indent, fs[1..])
  }

  lemma MatchParts(s: string, key: string, i: nat)
    requires MatchAt(s, Pattern(key), i)
    ensures var j := i + 1 + |key|;
      && j + 1 < |s| && s[i] == '"' && s[j] == '"' && s[j + 1] == ':'
      && forall x :: 0 <= x < |key| ==> s[i + 1 + x] == key[x]
  {
    var p, m := Pattern(key), s[i..i + |key| + 3];
    assert m[0] == s[i] && m[1 + |key|] == s[i + 1 + |key|] && m[2 + |key|] == s[i + 2 + |key|];
    forall x | 0 <= x < |key|
      ensures s[i + 1 + x] == key[x]
    {
      assert m[1 + x] == s[i + 1 + x] && p[1 + x] == key[x];
    }
  }

  /** Where the quotes of a label are. */
  lemma LabelQuotes(indent: string, key: string)
    requires Spaces(indent) && IsKey(key)
    ensures var l, a, b := Label(indent, key), |indent|, |indent| + 1 + |key|;
      && |l| == b + 3 && l[a] == '"' && l[b] == '"' && l[b + 1] == ':' && l[b + 2] == ' '
      && (forall j :: 0 <= j < |l| && l[j] == '"' ==> j == a || j == b)
      && (forall x :: 0 <= x < |key| ==> l[a + 1 + x] == key[x])
      && !KeyChar(l[a - 1]) && !KeyChar(l[b + 2])
  {
  }

  /** The pattern of a key does not occur in a line with another key, whatever the value. */
  lemma NoKeyInLine(indent: string, f: Field, end: string, rest: string, key: string, i: nat)
    requires Spaces(indent) && IsKey(f.key) && IsKey(key) && key != f.key
    requires Safe(Written(f)) && (end == "\n" || end == ",\n")
    requires i < |Line(indent, f, end)|
    ensures !MatchAt(Line(indent, f, end) + rest, Pattern(key), i)
  {
    hide Label, MatchAt, Written;
    var l, v := Label(indent, f.key), Written(f);
    var line := Line(indent, f, end);
    var t := line + rest;
    LabelQuotes(indent, f.key);
    assert forall x :: 0 <= x < |l| ==> t[x] == l[x];
    assert forall x :: 0 <= x < |v| ==> t[|l| + x] == v[x];
    assert forall x :: 0 <= x < |end| ==> t[|l| + |v| + x] == end[x];
    if MatchAt(t, Pattern(key), i) {
      MatchParts(t, key, i);
      var j := i + 1 + |key|;
      assert KeyChar(t[j - 1]) by { assert t[i + 1 + (|key| - 1)] == key[|key| - 1]; }
      assert j + 1 < |line| by { NotAcross(t, key, i, |line| - 1); }
      if j < |l| {
        OnlyKey(indent, f.key, key, i, t);
      }
    }
  }

  lemma MatchedChar(t: string, key: string, i: nat, x: nat)
    requires IsKey(key) && MatchAt(t, Pattern(key), i) && x < |key|
    ensures KeyChar(t[i + 1 + x])
  {
    MatchParts(t, key, i);
    assert t[i + 1 + x] == key[x];
  }

  /** An occurrence does not reach over a line's end. */
  lemma NotAcross(t: string, key: string, i: nat, n: nat)
    requires IsKey(key) && MatchAt(t, Pattern(key), i) && i <= n < |t| && t[n] == '\n'
    ensures i + 2 + |key| < n
  {
    MatchParts(t, key, i);
    if i < n <= i + |key| {
      MatchedChar(t, key, i, n - i - 1);
    }
  }

  lemma OnlyKey(indent: string, k: string, key: string, i: nat, t: string)
    requires Spaces(indent) && IsKey(k) && IsKey(key) && Label(indent, k) <= t
    requires MatchAt(t, Pattern(key), i) && i + 1 + |key| < |Label(indent, k)|
    ensures key == k
  {
    hide MatchAt, Label;
    var l := Label(indent, k);
    LabelQuotes(indent, k);
    MatchParts(t, key, i);
    assert forall x :: 0 <= x < |l| ==> t[x] == l[x];
    assert t[i + 1 + (|key| - 1)] == key[|key| - 1];
    assert i == |indent| && |key| == |k|;
    assert forall x :: 0 <= x < |k| ==> key[x] == k[x];
  }

  predicate PlainText(s: string) {
    s != "" && forall c :: c in s ==> !Stops(c) && c != '\t' && c != '"'
  }

  predicate Lawful(f: Field) {
    && IsKey(f.key)
    && match f
       case Text(_, _) => true
       case Raw(_, text) => Bare(text)
       case Plain(_, text) => PlainText(text)
  }

  lemma FlagLawful(key: string, b: bool)
    requires IsKey(key)
    ensures Lawful(Plain(key, Flag(b)))
  {
  }

  /** What is read back of a field. */
  function ReadBack(f: Field): (r: string)
    ensures |r| <= |f.text|
  {
    if f.Text? then Shown(f.text) else f.text
  }

  lemma LawfulSafe(f: Field)
    requires Lawful(f)
    ensures Safe(Written(f))
  {
    if !f.Plain? {
      QuotedSafe(f.text);
      if f.Raw? {
        EscapeBare(f.text);
      }
    } else {
      assert forall j :: 0 <= j < |f.text| ==> f.text[j] in f.text;
    }
  }

  lemma ExtractSkip(a: string, b: string, key: string, max: nat)
    requires forall k :: 0 <= k < |a| ==> !MatchAt(a + b, Pattern(key), k)
    ensures Extract(a + b, key, max) == Extract(b, key, max)
  {
    hide MatchAt, Find, ValueAt;
    FindSkip(a, b, Pattern(key));
    var i := Find(b, Pattern(key));
    if i < |b| {
      assert MatchAt(b, Pattern(key), i) && i + |key| + 3 <= |b| by { FoundRoom(b, Pattern(key)); }
      assert (a + b)[|a| + i + |key| + 3..] == b[i + |key| + 3..];
    }
  }

  lemma FoundRoom(s: string, p: string)
    requires p != ""
    ensures Find(s, p) < |s| ==> MatchAt(s, p, Find(s, p)) && Find(s, p) + |p| <= |s|
  {
  }

  lemma Regroup(a: string, b: string, c: string, d: string)
    ensures a + b + c + d == a + b + (c + d) && a + b + c + d == a + (b + (c + d))
  {
  }

  /** A value is read back from right after its key. */
  lemma ValueBack(f: Field, end: string, more: string, max: nat)
    requires Lawful(f) && |f.text| < max && (end == "\n" || end == ",\n")
    ensures ValueAt(" " + Written(f) + end + more, max) == ReadBack(f)
  {
    hide Quoted, Unspaced, Stops, Printable, ValueAt, Escape, Written, Shown;
    Regroup(" ", Written(f), end, more);
    WrittenIs(f);
    if f.Plain? {
      PlainValueBack(f.text, end, more, max);
    } else {
      QuotedBack(f.text, end + more, max);
      if f.Raw? {
        ShownSame(f.text);
      }
    }
  }

  /** How a field's value is written, in terms of escaping. */
  lemma WrittenIs(f: Field)
    requires Lawful(f)
    ensures if f.Plain? then Written(f) == f.text && PlainText(f.text)
            else Written(f) == Quoted(f.text) && (f.Raw? ==> Printable(f.text))
  {
    if f.Raw? {
      EscapeBare(f.text);
    }
  }

  lemma PlainValueBack(s: string, end: string, more: string, max: nat)
    requires PlainText(s) && |s| < max && (end == "\n" || end == ",\n")
    ensures ValueAt(" " + (s + (end + more)), max) == s
  {
    hide ValueAt, Unspaced;
    StopFirst(end);
    assert (end + more)[0] == end[0];
    PlainBack(s, end + more, max);
    assert s[0] in s;
    BlankPlain(s + (end + more), max);
  }

  lemma QuotedBack(s: string, rest: string, max: nat)
    requires |s| < max
    ensures ValueAt(" " + Quoted(s) + rest, max) == Shown(s)
  {
    hide Unquote, Escape, ValueAt;
    UnquoteShown(s, rest, max);
    BlankQuote(Escape(s) + "\"" + rest, max);
    QuotedApart(Escape(s), rest);
  }

  lemma QuotedApart(e: string, rest: string)
    ensures " " + ("\"" + e + "\"") + rest == " \"" + (e + "\"" + rest)
  {
  }

  lemma StopFirst(end: string)
    requires end == "\n" || end == ",\n"
    ensures Stops(end[0])
  {
  }

  lemma BlankQuote(t: string, max: nat)
    ensures ValueAt(" \"" + t, max) == Unquote(t, max)
  {
    hide Unquote;
    var u := "\"" + t;
    assert (" \"" + t)[1..] == u;
    assert SkipSpaces(" \"" + t) == SkipSpaces(u) == u;
    assert u[1..] == t;
  }

  lemma BlankPlain(t: string, max: nat)
    requires t != "" && !Stops(t[0]) && t[0] != '\t' && t[0] != '"'
    ensures ValueAt(" " + t, max) == Unspaced(t, max)
  {
    hide Unspaced;
    assert (" " + t)[1..] == t;
    assert SkipSpaces(" " + t) == SkipSpaces(t) == t;
  }

  lemma {:induction false} PlainBack(s: string, rest: string, max: nat)
    requires |s| < max && rest != "" && Stops(rest[0])
    requires forall c :: c in s ==> !Stops(c)
    ensures Unspaced(s + rest, max) == s
  {
    if s == "" {
      assert s + rest == rest;
    } else {
      assert (s + rest)[1..] == s[1..] + rest;
      assert s[0] in s;
      PlainBack(s[1..], rest, max - 1);
    }
  }

  /** A field's own line is where its pattern is found first. */
  lemma FirstAt(indent: string, f: Field, end: string, more: string)
    requires Spaces(indent)
    ensures var t := Line(indent, f, end) + more;
      && Find(t, Pattern(f.key)) == |indent| && |indent| + |f.key| + 3 <= |t|
      && t[|indent| + |f.key| + 3..] == " " + Written(f) + end + more
  {
    hide MatchAt, Find, Written;
    var p := Pattern(f.key);
    var rest := " " + Written(f) + end + more;
    var t := Line(indent, f, end) + more;
    assert t == indent + (p + rest);
    forall k | 0 <= k < |indent|
      ensures !MatchAt(t, p, k)
    {
      if MatchAt(t, p, k) {
        MatchParts(t, f.key, k);
      }
    }
    MatchHere(indent, p, rest);
    FindIs(t, p, |indent|);
  }

  lemma FirstField(indent: string, f: Field, end: string, more: string, max: nat)
    requires Spaces(indent) && Lawful(f) && |f.text| < max && (end == "\n" || end == ",\n")
    ensures Extract(Line(indent, f, end) + more, f.key, max) == ReadBack(f)
  {
    hide Find, ValueAt, Written, Lawful, Line, ReadBack;
    FirstAt(indent, f, end, more);
    ValueBack(f, end, more, max);
  }

  lemma MatchHere(a: string, p: string, rest: string)
    ensures MatchAt(a + (p + rest), p, |a|)
  {
    assert (a + (p + rest))[|a|..|a| + |p|] == p;
  }

  /** Each field of a record is found under its key, whatever the values contain; quoted texts come back as shown. */
  lemma {:induction false} FieldFound(indent: string, fs: seq<Field>, n: nat, tail: string, max: nat)
    requires Spaces(indent) && n < |fs| && (forall i :: 0 <= i <= n ==> Lawful(fs[i]))
    requires |fs[n].text| < max && forall i :: 0 <= i < n ==> fs[i].key != fs[n].key
    ensures Extract(Lines(indent, fs) + tail, fs[n].key, max) == ReadBack(fs[n])
  {
    hide Extract, MatchAt, Written, Line, ReadBack;
    var key, end := fs[n].key, LineEnd(|fs| == 1);
    var line, rest := Line(indent, fs[0], end), Lines(indent, fs[1..]) + tail;
    assert Lines(indent, fs) + tail == line + rest;
    if n == 0 {
      FirstField(indent, fs[0], end, rest, max);
    } else {
      assert IsKey(fs[n].key) && IsKey(fs[0].key);
      LawfulSafe(fs[0]);
      forall k | 0 <= k < |line|
        ensures !MatchAt(line + rest, Pattern(key), k)
      {
        NoKeyInLine(indent, fs[0], end, rest, key, k);
      }
      ExtractSkip(line, rest, key, max);
      FieldFound(indent, fs[1..], n - 1, tail, max);
    }
  }
}

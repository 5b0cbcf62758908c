/** The rewriter of slash-alpha colours to the comma syntax older browsers read. */
module LegacyCss {
  import opened Strings
  import opened Wrappers

  // Word characters, decimal digits and white space, as the regular expression library has them.
  datatype CharClass = CharClass(word: char -> bool, digit: char -> bool, space: char -> bool)

  ghost predicate Sane(cc: CharClass) {
    && !cc.word('(') && !cc.word(')')
    && (forall c :: cc.digit(c) ==> c !in "()/%degradturn.-" && !cc.space(c))
    && (forall c :: cc.space(c) ==> c !in "()/%degradturn.-")
  }

  // --- regular expressions on stripped pieces ---

  /** The length of the longest prefix of characters in a class. */
  function Run(s: string, f: char -> bool): (n: nat)
    ensures n <= |s| && (n < |s| ==> !f(s[n]))
    ensures forall i :: 0 <= i < n ==> f(s[i])
  {
    if s == "" || !f(s[0]) then 0 else 1 + Run(s[1..], f)
  }

  function Strip(cc: CharClass, s: string): string {
    StripEnd(cc, s[Run(s, cc.space)..])
  }

  function StripEnd(cc: CharClass, s: string): (r: string)
    ensures r <= s
  {
    if s != "" && cc.space(s[|s| - 1]) then StripEnd(cc, s[..|s| - 1]) else s
  }

  // A recognised prefix and what follows it.
  datatype Token = Token(text: string, rest: string) | NoToken

  /** Between lo and hi characters of the class, not followed by another one. */
  function TakeRun(s: string, f: char -> bool, lo: nat, hi: nat): (t: Token)
    ensures t.Token? ==> s == t.text + t.rest && lo <= |t.text| <= hi
    ensures t.Token? ==> forall c :: c in t.text ==> f(c)
  {
    var n := Run(s, f);
    if lo <= n <= hi then Token(s[..n], s[n..]) else NoToken
  }

  function Number(cc: CharClass): char -> bool {
    c => cc.digit(c) || c == '.'
  }

  function Angle(cc: CharClass): char -> bool {
    c => cc.digit(c) || c == '.' || c == '-'
  }

  /** One or more characters of the class, then one of the endings (tried in order). */
  function TakeWith(s: string, f: char -> bool, endings: seq<string>): (t: Token) {
    var n := Run(s, f);
    if n == 0 then NoToken
    else if endings == [] then NoToken
    else if endings[0] <= s[n..] then Token(s[..n + |endings[0]|], s[n + |endings[0]|..])
    else TakeWith(s, f, endings[1..])
  }

  const UNITS: seq<string> := ["deg", "grad", "rad", "turn", ""]

  datatype Channels = Channels(a: string, b: string, c: string)

  /** Three tokens, the first two followed by white space, the last one by nothing. */
  function ThreeOf(cc: CharClass, s: string, first: Token, second: string -> Token, third: string -> Token)
    : Option<Channels>
  {
    if first.NoToken? || Run(first.rest, cc.space) == 0 then None
    else
      var t := second(first.rest[Run(first.rest, cc.space)..]);
      if t.NoToken? || Run(t.rest, cc.space) == 0 then None
      else
        var u := third(t.rest[Run(t.rest, cc.space)..]);
        if u.NoToken? || u.rest != "" then None else Some(Channels(first.text, t.text, u.text))
  }

  function RgbChannels(cc: CharClass, s: string): Option<Channels> {
    var digits := r => TakeRun(r, cc.digit, 1, 3);
    ThreeOf(cc, s, digits(s), digits, digits)
  }

  function HslChannels(cc: CharClass, s: string): Option<Channels> {
    ThreeOf(cc, s, TakeWith(s, Angle(cc), UNITS),
            r => TakeWith(r, Number(cc), ["%"]), r => TakeWith(r, Number(cc), ["%", ""]))
  }

  predicate NumericAlpha(cc: CharClass, s: string) {
    var n := Run(s, Number(cc));
    n > 0 && (s[n..] == "" || s[n..] == "%")
  }

  // A colour call: name and arguments, without the parentheses.
  datatype Call = Call(name: string, args: string)

  function Text(c: Call): string {
    c.name + "(" + c.args + ")"
  }

  /** What a call with these arguments is rewritten to, if it uses the slash syntax. */
  function Rewritten(cc: CharClass, name: string, args: string): Option<Call> {
    var inner := Strip(cc, args);
    var slash := IndexOf(inner, '/');
    if slash == |inner| then None
    else
      var channels := Strip(cc, inner[..slash]);
      var alpha := Strip(cc, inner[slash + 1..]);
      match if name == "rgb" then RgbChannels(cc, channels) else HslChannels(cc, channels)
      case None => None
      case Some(ch) =>
        var list := ch.a + "," + ch.b + "," + ch.c;
        Some(if NumericAlpha(cc, alpha) then Call(name + "a", list + "," + alpha) else Call(name, list))
  }

  // --- where calls are ---

  predicate CallAt(cc: CharClass, t: string, i: nat, afterWord: bool) {
    && i + 4 <= |t|
    && (t[i..i + 4] == "rgb(" || t[i..i + 4] == "hsl(")
    && !(if i == 0 then afterWord else cc.word(t[i - 1]))
  }

  /** The first call at or after i; |t| if there is none. */
  function FindCall(cc: CharClass, t: string, i: nat, afterWord: bool): (m: nat)
    requires i <= |t|
    ensures i <= m <= |t| && (m < |t| ==> CallAt(cc, t, m, afterWord))
    ensures forall k :: i <= k < m ==> !CallAt(cc, t, k, afterWord)
    decreases |t| - i
  {
    if i == |t| || CallAt(cc, t, i, afterWord) then i else FindCall(cc, t, i + 1, afterWord)
  }

  /** Where depth parentheses open before s are all closed again; |s| if they never are. */
  function CloseIndex(s: string, depth: nat): (e: nat)
    requires depth >= 1
    ensures e <= |s| && (e < |s| ==> s[e] == ')')
  {
    if s == "" then 0
    else if s[0] == '(' then 1 + CloseIndex(s[1..], depth + 1)
    else if s[0] == ')' then if depth == 1 then 0 else 1 + CloseIndex(s[1..], depth - 1)
    else 1 + CloseIndex(s[1..], depth)
  }

  // --- the rewriting, piece by piece ---

  datatype Piece = Kept(text: string) | Replaced(old_: string, call: Call)

  function Before(p: Piece): string {
    if p.Kept? then p.text else p.old_
  }

  function After(p: Piece): string {
    if p.Kept? then p.text else Text(p.call)
  }

  function Source(ps: seq<Piece>): string {
    if ps == [] then "" else Before(ps[0]) + Source(ps[1..])
  }

  function Output(ps: seq<Piece>): string {
    if ps == [] then "" else After(ps[0]) + Output(ps[1..])
  }

  function Replacements(ps: seq<Piece>): nat {
    if ps == [] then 0 else Replacements(ps[1..]) + if ps[0].Kept? then 0 else 1
  }

  // The pieces up to some point of a text, and how many characters they are made from.
  datatype Head = Head(pieces: seq<Piece>, used: nat)

  /** Up to the end of the first call (or just past its name and parenthesis, if that is never closed). */
  function FirstPieces(cc: CharClass, t: string, afterWord: bool): (h: Head)
    requires t != ""
    ensures 0 < h.used <= |t|
  {
    var m := FindCall(cc, t, 0, afterWord);
    if m == |t| then Head([Kept(t)], |t|)
    else
      var close := CloseIndex(t[m + 4..], 1);
      if m + 4 + close == |t| then Head([Kept(t[..m + 4])], m + 4)
      else
        var end := m + 4 + close + 1;
        match Rewritten(cc, t[m..m + 3], t[m + 4..end - 1])
        case None => Head([Kept(t[..end])], end)
        case Some(call) => Head([Kept(t[..m]), Replaced(t[m..end], call)], end)
  }

  /** The pieces of t; afterWord says whether a word character stands before it. */
  function Pieces(cc: CharClass, t: string, afterWord: bool): seq<Piece>
    decreases |t|
  {
    if t == "" then []
    else
      var h := FirstPieces(cc, t, afterWord);
      h.pieces + Pieces(cc, t[h.used..], false)
  }

  function Fixed(cc: CharClass, t: string, afterWord: bool): string {
    Output(Pieces(cc, t, afterWord))
  }

  function Hits(cc: CharClass, t: string, afterWord: bool): nat {
    Replacements(Pieces(cc, t, afterWord))
  }

  lemma {:induction false} Appended(ps: seq<Piece>, qs: seq<Piece>)
    ensures Source(ps + qs) == Source(ps) + Source(qs)
    ensures Output(ps + qs) == Output(ps) + Output(qs)
    ensures Replacements(ps + qs) == Replacements(ps) + Replacements(qs)
  {
    hide Before, After;
    if ps == [] {
      assert ps + qs == qs;
    } else {
      Appended(ps[1..], qs);
      var p := ps[0];
      assert (ps + qs)[0] == p && (ps + qs)[1..] == ps[1..] + qs;
      Assoc(Before(p), Source(ps[1..]), Source(qs));
      Assoc(After(p), Output(ps[1..]), Output(qs));
    }
  }

  lemma Assoc(a: string, b: string, c: string)
    ensures a + (b + c) == (a + b) + c
  {
  }

  lemma OnePiece(p: Piece)
    ensures Source([p]) == Before(p) && Output([p]) == After(p)
    ensures Replacements([p]) == if p.Kept? then 0 else 1
  {
    assert [p][1..] == [];
  }

  lemma TwoPieces(p: Piece, q: Piece)
    ensures Source([p, q]) == Before(p) + Before(q) && Output([p, q]) == After(p) + After(q)
    ensures Replacements([p, q]) == Replacements([p]) + Replacements([q])
  {
    hide Before, After;
    OnePiece(q);
    OnePiece(p);
    Appended([p], [q]);
    assert [p] + [q] == [p, q];
  }

  /** What the first pieces put out, in text. */
  function FirstOut(cc: CharClass, t: string, afterWord: bool): (r: (string, nat))
    requires t != ""
  {
    var h := FirstPieces(cc, t, afterWord);
    if |h.pieces| == 1 then (t[..h.used], 0)
    else (h.pieces[0].text + Text(h.pieces[1].call), 1)
  }

  lemma FirstOutIs(cc: CharClass, t: string, afterWord: bool)
    requires t != ""
    ensures var m, used := FindCall(cc, t, 0, afterWord), FirstPieces(cc, t, afterWord).used;
      if m == |t| then used == |t| && FirstOut(cc, t, afterWord) == (t, 0)
      else
        m + 4 <= |t| && var end := m + 4 + CloseIndex(t[m + 4..], 1);
        if end == |t| then used == m + 4 && FirstOut(cc, t, afterWord) == (t[..used], 0)
        else
          used == end + 1 && var r := Rewritten(cc, t[m..m + 3], t[m + 4..end]);
          FirstOut(cc, t, afterWord) == if r.Some? then (t[..m] + Text(r.value), 1) else (t[..used], 0)
  {
    hide CloseIndex, Rewritten, Text, FindCall, CallAt;
    var m := FindCall(cc, t, 0, afterWord);
    FindFirst(cc, t, afterWord);
    CallShape(cc, t, m, afterWord);
    if m == |t| {
      assert t[..|t|] == t;
    } else {
      var end := m + 4 + CloseIndex(t[m + 4..], 1);
      var h := FirstPieces(cc, t, afterWord);
      if end < |t| {
        var r := Rewritten(cc, t[m..m + 3], t[m + 4..end]);
        assert |h.pieces| == if r.Some? then 2 else 1;
      }
    }
  }

  lemma FirstPiecesText(cc: CharClass, t: string, afterWord: bool)
    requires t != ""
    ensures var h, f := FirstPieces(cc, t, afterWord), FirstOut(cc, t, afterWord);
      && Source(h.pieces) == t[..h.used]
      && Output(h.pieces) == f.0 && Replacements(h.pieces) == f.1
  {
    hide FindCall, CloseIndex, Rewritten, Text, Source, Output, Replacements;
    var h := FirstPieces(cc, t, afterWord);
    assert t[..|t|] == t;
    OnePiece(h.pieces[0]);
    if |h.pieces| == 2 {
      OnePiece(h.pieces[1]);
      TwoPieces(h.pieces[0], h.pieces[1]);
    }
  }

  lemma FixedStep(cc: CharClass, t: string, afterWord: bool)
    requires t != ""
    ensures var h, f := FirstPieces(cc, t, afterWord), FirstOut(cc, t, afterWord);
      && Fixed(cc, t, afterWord) == f.0 + Fixed(cc, t[h.used..], false)
      && Hits(cc, t, afterWord) == f.1 + Hits(cc, t[h.used..], false)
  {
    hide FirstPieces, FirstOut, Source, Output, Replacements;
    FirstPiecesText(cc, t, afterWord);
    var h := FirstPieces(cc, t, afterWord);
    Appended(h.pieces, Pieces(cc, t[h.used..], false));
  }

  /** The pieces are made from all of t, in order; kept ones come through unchanged. */
  lemma {:induction false} NothingElseChanges(cc: CharClass, t: string, afterWord: bool)
    ensures Source(Pieces(cc, t, afterWord)) == t
    decreases |t|
  {
    hide FirstPieces, FirstOut, Output, Replacements, Before;
    if t != "" {
      var h := FirstPieces(cc, t, afterWord);
      FirstPiecesText(cc, t, afterWord);
      NothingElseChanges(cc, t[h.used..], false);
      Appended(h.pieces, Pieces(cc, t[h.used..], false));
    }
  }

  // --- the program ---

  lemma CallInSuffix(cc: CharClass, t: string, flag: bool, pos: nat, i: nat)
    requires pos <= i <= |t|
    ensures CallAt(cc, t, i, flag)
        <==> CallAt(cc, t[pos..], i - pos, if pos == 0 then flag else cc.word(t[pos - 1]))
  {
    if i + 4 <= |t| {
      Part(t, pos, i - pos, i - pos + 4);
    }
  }

  /** The same calls are found whether or not the text before position pos is still there. */
  lemma {:induction false} FindInSuffix(cc: CharClass, t: string, flag: bool, pos: nat, i: nat)
    requires pos <= i <= |t|
    ensures FindCall(cc, t, i, flag)
         == pos + FindCall(cc, t[pos..], i - pos, if pos == 0 then flag else cc.word(t[pos - 1]))
    decreases |t| - i
  {
    hide CallAt;
    CallInSuffix(cc, t, flag, pos, i);
    if i < |t| {
      FindInSuffix(cc, t, flag, pos, i + 1);
    }
  }

  /** The depth-counting loop: the matching parenthesis of the one at start, or -1. */
  method MatchParen(css: string, start: nat) returns (end: int)
    requires start < |css| && css[start] == '('
    ensures var close := CloseIndex(css[start + 1..], 1);
      end == if start + 1 + close == |css| then -1 else start + 1 + close
  {
    hide CloseIndex;
    var depth, i := 0, start;
    ghost var close := CloseIndex(css[start + 1..], 1);
    while i < |css|
      invariant start <= i <= |css|
      invariant i == start ==> depth == 0
      invariant i > start ==> depth >= 1 && start + 1 + close == i + CloseIndex(css[i..], depth)
    {
      if i > start {
        CloseNext(css, i, depth);
      }
      if css[i] == '(' {
        depth := depth + 1;
      } else if css[i] == ')' {
        depth := depth - 1;
        if depth == 0 {
          return i;
        }
      }
      i := i + 1;
    }
    CloseNone(css[|css|..], depth);
    end := -1;
  }

  lemma CloseNext(css: string, i: nat, depth: nat)
    requires depth >= 1 && i < |css|
    ensures CloseIndex(css[i..], depth) ==
      if css[i] == '(' then 1 + CloseIndex(css[i + 1..], depth + 1)
      else if css[i] == ')' then if depth == 1 then 0 else 1 + CloseIndex(css[i + 1..], depth - 1)
      else 1 + CloseIndex(css[i + 1..], depth)
  {
    assert css[i..][0] == css[i] && css[i..][1..] == css[i + 1..];
  }

  lemma CloseNone(s: string, depth: nat)
    requires s == ""
    ensures depth >= 1 ==> CloseIndex(s, depth) == 0
  {
  }

  lemma FirstUsed(cc: CharClass, t: string, afterWord: bool)
    requires Sane(cc) && t != ""
    ensures var u := FirstPieces(cc, t, afterWord).used; u < |t| ==> !cc.word(t[u - 1])
  {
    hide CallAt, Rewritten;
    CallShape(cc, t, FindCall(cc, t, 0, afterWord), afterWord);
  }

  lemma CallShape(cc: CharClass, t: string, i: nat, afterWord: bool)
    ensures i < |t| && CallAt(cc, t, i, afterWord) ==>
      i + 4 <= |t| && t[i + 3] == '(' && (t[i..i + 3] == "rgb" || t[i..i + 3] == "hsl")
      && t[i..i + 4] == t[i..i + 3] + "("
  {
    if i + 4 <= |t| {
      assert t[i..i + 4][..3] == t[i..i + 3] && t[i..i + 4][3] == t[i + 3];
    }
  }

  /** A call's parts are the same in the text from position pos on. */
  lemma CallParts(css: string, pos: nat, start: nat, end: nat)
    requires pos <= start && start + 4 <= end <= |css|
    ensures var t, m := css[pos..], start - pos;
      && t[m + 4..] == css[start + 4..] && t[..m + 4] == css[pos..start + 4]
      && t[m..m + 3] == css[start..start + 3] && t[m + 4..end - pos] == css[start + 4..end]
      && t[..m] == css[pos..start] && (end < |css| ==> t[..end - pos + 1] == css[pos..end + 1])
  {
    var m := start - pos;
    Tail(css, pos, m + 4);
    Front(css, pos, m + 4);
    Part(css, pos, m, m + 3);
    Part(css, pos, m + 4, end - pos);
    Front(css, pos, m);
    if end < |css| {
      Front(css, pos, end - pos + 1);
    }
  }

  /** One turn of the main loop, from position pos. */
  method FixFirst(cc: CharClass, css: string, pos: nat) returns (text: string, hit: nat, next: nat)
    requires pos < |css|
    ensures var t, flag := css[pos..], pos > 0 && cc.word(css[pos - 1]);
      && text == FirstOut(cc, t, flag).0 && hit == FirstOut(cc, t, flag).1
      && next == pos + FirstPieces(cc, t, flag).used
  {
    hide CallAt, CloseIndex, Rewritten, Text, FindCall, FirstPieces, FirstOut;
    FirstOutIs(cc, css[pos..], pos > 0 && cc.word(css[pos - 1]));
    FindInSuffix(cc, css, false, pos, pos);
    var start := FindCall(cc, css, pos, false);
    if start == |css| {
      return css[pos..], 0, |css|;
    }
    CallShape(cc, css, start, false);
    var end := MatchParen(css, start + 3);
    CallParts(css, pos, start, if end == -1 then start + 4 else end);
    if end == -1 {
      return css[pos..start + 4], 0, start + 4;
    }
    var r := Rewritten(cc, css[start..start + 3], css[start + 4..end]);
    if r.Some? {
      return css[pos..start] + Text(r.value), 1, end + 1;
    }
    return css[pos..end + 1], 0, end + 1;
  }

  lemma Part(s: string, pos: nat, a: nat, b: nat)
    requires a <= b && pos + b <= |s|
    ensures s[pos..][a..b] == s[pos + a..pos + b]
  {
    assert |s[pos..][a..b]| == b - a;
    forall i | 0 <= i < b - a
      ensures s[pos..][a..b][i] == s[pos + a..pos + b][i]
    {
    }
  }

  lemma Front(s: string, pos: nat, b: nat)
    requires pos + b <= |s|
    ensures s[pos..][..b] == s[pos..pos + b]
  {
  }

  lemma Tail(s: string, pos: nat, a: nat)
    requires pos + a <= |s|
    ensures s[pos..][a..] == s[pos + a..]
  {
  }

  /** fix_css. */
  method FixCss(cc: CharClass, css: string) returns (out: string, count: nat)
    requires Sane(cc)
    ensures out == Fixed(cc, css, false) && count == Hits(cc, css, false)
  {
    hide FirstPieces, FirstOut, Fixed, Hits;
    count, out := 0, "";
    var pos := 0;
    assert css[0..] == css;
    NothingLeft(cc, false);
    while pos < |css|
      invariant pos <= |css|
      invariant pos < |css| ==>
        var flag := pos > 0 && cc.word(css[pos - 1]);
        && out + Fixed(cc, css[pos..], flag) == Fixed(cc, css, false)
        && count + Hits(cc, css[pos..], flag) == Hits(cc, css, false)
      invariant pos == |css| ==> out == Fixed(cc, css, false) && count == Hits(cc, css, false)
    {
      ghost var t, flag := css[pos..], pos > 0 && cc.word(css[pos - 1]);
      FixedStep(cc, t, flag);
      FirstUsed(cc, t, flag);
      var text, hit, next := FixFirst(cc, css, pos);
      assert css[next..] == t[next - pos..];
      assert next == |css| ==> css[next..] == "";
      out, count, pos := out + text, count + hit, next;
    }
  }

  lemma NothingLeft(cc: CharClass, flag: bool)
    ensures Fixed(cc, "", flag) == "" && Hits(cc, "", flag) == 0
  {
  }

  // --- parentheses: rewriting never changes how they match ---

  /** How many parentheses are open after s, or 0 from the moment the last of them is closed. */
  function DepthAfter(s: string, depth: nat): (r: nat)
    ensures depth >= 1 ==> (r == 0 <==> CloseIndex(s, depth) < |s|)
  {
    if s == "" || depth == 0 then depth
    else if s[0] == '(' then DepthAfter(s[1..], depth + 1)
    else if s[0] == ')' then DepthAfter(s[1..], depth - 1)
    else DepthAfter(s[1..], depth)
  }

  function Next(c: char, depth: nat): nat
    requires depth >= 1
  {
    if c == '(' then depth + 1 else if c == ')' then depth - 1 else depth
  }

  /** Scanning a + b is scanning a, and then b with what a leaves open. */
  lemma {:induction false} DepthSplit(a: string, b: string, depth: nat)
    ensures DepthAfter(a + b, depth) == DepthAfter(b, DepthAfter(a, depth))
  {
    if a == "" {
      assert a + b == b;
    } else if depth > 0 {
      assert (a + b)[0] == a[0] && (a + b)[1..] == a[1..] + b;
      DepthSplit(a[1..], b, Next(a[0], depth));
    }
  }

  lemma {:induction false} CloseFirst(a: string, b: string, depth: nat)
    requires depth >= 1 && CloseIndex(a, depth) < |a|
    ensures CloseIndex(a + b, depth) == CloseIndex(a, depth)
  {
    assert (a + b)[0] == a[0] && (a + b)[1..] == a[1..] + b;
    if a[0] != ')' || depth > 1 {
      CloseFirst(a[1..], b, Next(a[0], depth));
    }
  }

  /** Up to its matching parenthesis a text leaves everything around it as deep as it was. */
  lemma {:induction false} Nested(s: string, inner: nat, depth: nat)
    requires inner >= 1 && depth >= 1 && CloseIndex(s, inner) < |s|
    ensures DepthAfter(s[..CloseIndex(s, inner) + 1], inner + depth) == depth
  {
    var k := CloseIndex(s, inner);
    var b := s[..k + 1];
    assert b[0] == s[0];
    if s[0] == ')' && inner == 1 {
      assert b[1..] == "";
    } else {
      Nested(s[1..], Next(s[0], inner), depth);
      assert b[1..] == s[1..][..k];
    }
  }

  predicate Plain(s: string) {
    forall c :: c in s ==> c !in "()/"
  }

  lemma {:induction false} PlainDepth(s: string, depth: nat)
    requires Plain(s)
    ensures DepthAfter(s, depth) == depth
  {
    if s != "" {
      assert s[0] in s;
      PlainDepth(s[1..], depth);
    }
  }

  /** Two texts that leave the same parentheses open, whatever was open before. */
  ghost predicate Alike(a: string, b: string) {
    forall d: nat :: DepthAfter(a, d) == DepthAfter(b, d)
  }

  lemma AlikeJoined(a: string, b: string, c: string, e: string)
    requires Alike(a, b) && Alike(c, e)
    ensures Alike(a + c, b + e)
  {
    forall d: nat
      ensures DepthAfter(a + c, d) == DepthAfter(b + e, d)
    {
      DepthSplit(a, c, d);
      DepthSplit(b, e, d);
    }
  }

  lemma OpenDepth(tail: string, depth: nat)
    requires depth >= 1
    ensures DepthAfter("(" + tail, depth) == DepthAfter(tail, depth + 1)
  {
    assert ("(" + tail)[1..] == tail;
  }

  lemma CallDepth(name: string, tail: string, depth: nat)
    requires Plain(name) && tail != "" && CloseIndex(tail, 1) == |tail| - 1 && depth >= 1
    ensures DepthAfter(name + ("(" + tail), depth) == depth
  {
    hide DepthAfter, CloseIndex, Plain;
    Nested(tail, 1, depth);
    assert tail[..|tail|] == tail;
    PlainDepth(name, depth);
    DepthSplit(name, "(" + tail, depth);
    OpenDepth(tail, depth);
  }

  /** A call, from its name to its matching parenthesis, leaves everything as deep as it was. */
  lemma LevelCall(name: string, tail: string)
    requires Plain(name) && tail != "" && CloseIndex(tail, 1) == |tail| - 1
    ensures Alike(name + "(" + tail, "")
  {
    hide CloseIndex, Plain;
    assert name + "(" + tail == name + ("(" + tail);
    forall d: nat
      ensures DepthAfter(name + "(" + tail, d) == DepthAfter("", d)
    {
      if d > 0 {
        CallDepth(name, tail, d);
      }
    }
  }

  lemma {:induction false} PlainClose(args: string)
    requires Plain(args)
    ensures CloseIndex(args + ")", 1) == |args|
  {
    if args != "" {
      assert args[0] in args;
      assert (args + ")")[0] == args[0] && (args + ")")[1..] == args[1..] + ")";
      PlainClose(args[1..]);
    }
  }

  // --- the channel patterns, independently of how they are matched ---

  predicate Blank(cc: CharClass, s: string) {
    s != "" && forall c :: c in s ==> cc.space(c)
  }

  // A tokenizer takes exactly the texts of a language off the front, when white space or nothing follows.
  ghost predicate Recognises(cc: CharClass, f: string -> Token, p: string -> bool) {
    && (forall s :: f(s).Token? ==> s == f(s).text + f(s).rest && p(f(s).text))
    && (forall a, x :: p(a) && (x == "" || cc.space(x[0])) ==> f(a + x) == Token(a, x))
    && (forall a :: p(a) ==> a != "" && !cc.space(a[0]))
  }

  predicate Digits(cc: CharClass, a: string) {
    1 <= |a| <= 3 && forall c :: c in a ==> cc.digit(c)
  }

  predicate Amount(f: char -> bool, endings: seq<string>, a: string) {
    exists k :: 0 < k <= |a| && (forall i :: 0 <= i < k ==> f(a[i])) && a[k..] in endings
  }

  lemma {:induction false} RunOf(a: string, x: string, f: char -> bool)
    requires (forall c :: c in a ==> f(c)) && (x == "" || !f(x[0]))
    ensures Run(a + x, f) == |a|
  {
    if a == "" {
      assert a + x == x;
    } else {
      assert (a + x)[1..] == a[1..] + x;
      RunOf(a[1..], x, f);
    }
  }

  lemma DigitsRecognised(cc: CharClass)
    requires Sane(cc)
    ensures Recognises(cc, r => TakeRun(r, cc.digit, 1, 3), a => Digits(cc, a))
  {
    hide Run;
    forall a: string, x: string | Digits(cc, a) && (x == "" || cc.space(x[0]))
      ensures TakeRun(a + x, cc.digit, 1, 3) == Token(a, x)
    {
      RunOf(a, x, cc.digit);
    }
  }

  /** The order of the endings does not matter if none of them begins like another. */
  lemma {:induction false} EndingTaken(s: string, f: char -> bool, endings: seq<string>, e: string, x: string)
    requires Run(s, f) > 0 && s[Run(s, f)..] == e + x && e in endings
    requires forall i :: 0 <= i < |endings| && endings[i] <= e + x ==> endings[i] == e || e in endings[..i]
    ensures TakeWith(s, f, endings) == Token(s[..Run(s, f)] + e, x)
  {
    var n := Run(s, f);
    if endings[0] <= s[n..] {
      assert endings[0] == e;
      assert s == s[..n] + (e + x);
      assert s[..n + |e|] == s[..n] + e && s[n + |e|..] == x;
    } else {
      assert endings[0] != e by {
        assert (e + x)[..|e|] == e;
      }
      EndingTaken(s, f, endings[1..], e, x);
    }
  }

  lemma {:induction false} EndingIs(s: string, f: char -> bool, endings: seq<string>)
    ensures var t := TakeWith(s, f, endings);
      t.Token? ==> s == t.text + t.rest && Run(s, f) > 0 && exists e :: e in endings && t.text == s[..Run(s, f)] + e
  {
    var n := Run(s, f);
    if n > 0 && endings != [] {
      if endings[0] <= s[n..] {
        assert s[n..][..|endings[0]|] == endings[0];
        assert s[..n + |endings[0]|] == s[..n] + endings[0];
        assert endings[0] in endings;
      } else {
        EndingIs(s, f, endings[1..]);
      }
    }
  }

  lemma AmountTaken(cc: CharClass, f: char -> bool, endings: seq<string>, s: string)
    ensures var t := TakeWith(s, f, endings); t.Token? ==> s == t.text + t.rest && Amount(f, endings, t.text)
  {
    EndingIs(s, f, endings);
    var t := TakeWith(s, f, endings);
    if t.Token? {
      var e :| e in endings && t.text == s[..Run(s, f)] + e;
      assert t.text[Run(s, f)..] == e;
    }
  }

  // Endings that a scan for f cannot run into, and of which the first that fits is the right one.
  ghost predicate Endings(cc: CharClass, f: char -> bool, endings: seq<string>) {
    && (forall e :: e in endings && e != "" ==> !f(e[0]))
    && (forall e, x, i :: e in endings && (x == "" || cc.space(x[0])) && 0 <= i < |endings| && endings[i] <= e + x
          ==> endings[i] == e || e in endings[..i])
    && (forall c :: f(c) ==> !cc.space(c))
  }

  lemma EndingStart(e: string, x: string, d: string)
    requires d <= e + x
    ensures d != "" && e != "" ==> d[0] == e[0]
    ensures d != "" && e == "" ==> x != "" && d[0] == x[0]
  {
    if e == "" {
      assert e + x == x;
    }
  }

  lemma Splice(a: string, k: nat, x: string)
    requires k <= |a|
    ensures a + x == a[..k] + (a[k..] + x) && a == a[..k] + a[k..]
    ensures (a + x)[k..] == a[k..] + x && (a + x)[..k] == a[..k]
  {
  }

  lemma AmountGiven(cc: CharClass, f: char -> bool, endings: seq<string>, a: string, x: string)
    requires Endings(cc, f, endings) && Amount(f, endings, a) && (x == "" || cc.space(x[0]))
    ensures TakeWith(a + x, f, endings) == Token(a, x)
  {
    hide Run, TakeWith;
    var k :| 0 < k <= |a| && (forall i :: 0 <= i < k ==> f(a[i])) && a[k..] in endings;
    var d, e := a[..k], a[k..];
    EndingStart(e, x, e + x);
    RunOf(d, e + x, f);
    Splice(a, k, x);
    EndingTaken(a + x, f, endings, e, x);
  }

  lemma AmountRecognised(cc: CharClass, f: char -> bool, endings: seq<string>)
    requires Endings(cc, f, endings)
    ensures Recognises(cc, r => TakeWith(r, f, endings), a => Amount(f, endings, a))
  {
    hide TakeWith, Endings, Run;
    forall s: string
      ensures var t := TakeWith(s, f, endings); t.Token? ==> s == t.text + t.rest && Amount(f, endings, t.text)
    {
      AmountTaken(cc, f, endings, s);
    }
    forall a: string, x: string | Amount(f, endings, a) && (x == "" || cc.space(x[0]))
      ensures TakeWith(a + x, f, endings) == Token(a, x)
    {
      AmountGiven(cc, f, endings, a, x);
    }
    forall a: string | Amount(f, endings, a)
      ensures a != "" && !cc.space(a[0])
    {
      NotSpace(cc, f, endings, a);
    }
  }

  lemma NotSpace(cc: CharClass, f: char -> bool, endings: seq<string>, a: string)
    requires Endings(cc, f, endings) && Amount(f, endings, a)
    ensures a != "" && !cc.space(a[0])
  {
  }

  lemma UnitEndings(cc: CharClass, endings: seq<string>)
    requires Sane(cc) && endings in {UNITS, ["%"], ["%", ""]}
    ensures Endings(cc, if endings == UNITS then Angle(cc) else Number(cc), endings)
  {
    hide Endings;
    if endings == UNITS {
      FirstLetters(cc, Angle(cc), UNITS);
    } else {
      FirstLetters(cc, Number(cc), endings);
    }
  }

  // Endings that begin differently, the empty one being last.
  ghost predicate Distinct(endings: seq<string>) {
    && (forall i, j :: 0 <= i < j < |endings| && endings[i] != "" && endings[j] != "" ==>
          endings[i][0] != endings[j][0])
    && (forall i :: 0 <= i < |endings| && endings[i] == "" ==> i == |endings| - 1)
  }

  lemma FirstLetters(cc: CharClass, f: char -> bool, endings: seq<string>)
    requires Distinct(endings) && (forall c :: f(c) ==> !cc.space(c))
    requires forall e :: e in endings && e != "" ==> !f(e[0]) && !cc.space(e[0])
    ensures Endings(cc, f, endings)
  {
    forall e: string, x: string, i |
      e in endings && (x == "" || cc.space(x[0])) && 0 <= i < |endings| && endings[i] <= e + x
      ensures endings[i] == e || e in endings[..i]
    {
      EndingStart(e, x, endings[i]);
      if endings[i] == "" {
        assert endings == endings[..i] + [""];
      }
    }
  }

  // Three texts with white space between them.
  ghost predicate Spaced(cc: CharClass, s: string, ch: Channels) {
    exists w, v :: Blank(cc, w) && Blank(cc, v) && s == ch.a + (w + (ch.b + (v + ch.c)))
  }

  lemma BlankRun(cc: CharClass, w: string, x: string)
    requires Blank(cc, w) && (x == "" || !cc.space(x[0]))
    ensures Run(w + x, cc.space) == |w| > 0 && (w + x)[|w|..] == x && cc.space((w + x)[0])
  {
    RunOf(w, x, cc.space);
  }

  lemma RunBlank(cc: CharClass, s: string)
    ensures var n := Run(s, cc.space); n > 0 ==> Blank(cc, s[..n]) && s == s[..n] + s[n..]
  {
  }

  lemma ThreeMatches(cc: CharClass, s: string, ch: Channels, f: string -> Token, g: string -> Token, h: string -> Token,
                     p: string -> bool, q: string -> bool, r: string -> bool)
    requires Recognises(cc, f, p) && Recognises(cc, g, q) && Recognises(cc, h, r)
    ensures ThreeOf(cc, s, f(s), g, h) == Some(ch) <==> p(ch.a) && q(ch.b) && r(ch.c) && Spaced(cc, s, ch)
  {
    hide ThreeOf, Recognises, Spaced;
    if ThreeOf(cc, s, f(s), g, h) == Some(ch) {
      ThreeTaken(cc, s, ch, f, g, h, p, q, r);
    }
    if p(ch.a) && q(ch.b) && r(ch.c) && Spaced(cc, s, ch) {
      ThreeGiven(cc, s, ch, f, g, h, p, q, r);
    }
  }

  lemma ThreeTaken(cc: CharClass, s: string, ch: Channels, f: string -> Token, g: string -> Token, h: string -> Token,
                   p: string -> bool, q: string -> bool, r: string -> bool)
    requires Recognises(cc, f, p) && Recognises(cc, g, q) && Recognises(cc, h, r)
    requires ThreeOf(cc, s, f(s), g, h) == Some(ch)
    ensures p(ch.a) && q(ch.b) && r(ch.c) && Spaced(cc, s, ch)
  {
    hide Blank, Run;
    var rest := f(s).rest;
    RunBlank(cc, rest);
    var n := Run(rest, cc.space);
    var t := g(rest[n..]);
    RunBlank(cc, t.rest);
    var m := Run(t.rest, cc.space);
    assert h(t.rest[m..]).text == t.rest[m..];
    assert s == ch.a + (rest[..n] + (ch.b + (t.rest[..m] + ch.c)));
  }

  lemma ThreeGiven(cc: CharClass, s: string, ch: Channels, f: string -> Token, g: string -> Token, h: string -> Token,
                   p: string -> bool, q: string -> bool, r: string -> bool)
    requires Recognises(cc, f, p) && Recognises(cc, g, q) && Recognises(cc, h, r)
    requires p(ch.a) && q(ch.b) && r(ch.c) && Spaced(cc, s, ch)
    ensures ThreeOf(cc, s, f(s), g, h) == Some(ch)
  {
    hide Blank, Run;
    var w, v :| Blank(cc, w) && Blank(cc, v) && s == ch.a + (w + (ch.b + (v + ch.c)));
    BlankRun(cc, v, ch.c);
    assert (ch.b + (v + ch.c))[0] == ch.b[0];
    BlankRun(cc, w, ch.b + (v + ch.c));
    assert ch.c == ch.c + "";
  }

  /** Three groups of one to three digits with white space between them: the rgb pattern, both ways. */
  lemma RgbMatches(cc: CharClass, s: string, ch: Channels)
    requires Sane(cc)
    ensures RgbChannels(cc, s) == Some(ch)
       <==> Digits(cc, ch.a) && Digits(cc, ch.b) && Digits(cc, ch.c) && Spaced(cc, s, ch)
  {
    hide Digits, Spaced, ThreeOf, Recognises, TakeRun, Sane;
    var f, p := r => TakeRun(r, cc.digit, 1, 3), a => Digits(cc, a);
    DigitsRecognised(cc);
    assert Recognises(cc, f, p);
    ThreeMatches(cc, s, ch, f, f, f, p, p, p);
    assert RgbChannels(cc, s) == ThreeOf(cc, s, f(s), f, f);
  }

  /** An angle with an optional unit, a percentage and a number or percentage: the hsl pattern, both ways. */
  lemma HslMatches(cc: CharClass, s: string, ch: Channels)
    requires Sane(cc)
    ensures HslChannels(cc, s) == Some(ch)
       <==> (Amount(Angle(cc), UNITS, ch.a) && Amount(Number(cc), ["%"], ch.b)
             && Amount(Number(cc), ["%", ""], ch.c) && Spaced(cc, s, ch))
  {
    hide Amount, Spaced, ThreeOf, Recognises, TakeWith, Angle, Number, Sane, Endings;
    UnitEndings(cc, UNITS);
    UnitEndings(cc, ["%"]);
    UnitEndings(cc, ["%", ""]);
    AmountRecognised(cc, Angle(cc), UNITS);
    AmountRecognised(cc, Number(cc), ["%"]);
    AmountRecognised(cc, Number(cc), ["%", ""]);
    ThreeMatches(cc, s, ch, r => TakeWith(r, Angle(cc), UNITS), r => TakeWith(r, Number(cc), ["%"]),
                 r => TakeWith(r, Number(cc), ["%", ""]),
                 a => Amount(Angle(cc), UNITS, a), a => Amount(Number(cc), ["%"], a),
                 a => Amount(Number(cc), ["%", ""], a));
  }

  // --- what calls are rewritten to ---

  lemma DigitsPlain(cc: CharClass, a: string)
    requires Sane(cc) && Digits(cc, a)
    ensures Plain(a)
  {
  }

  lemma AmountPlain(cc: CharClass, f: char -> bool, endings: seq<string>, a: string)
    requires Amount(f, endings, a) && (forall c :: f(c) ==> c !in "()/")
    requires forall e :: e in endings ==> Plain(e)
    ensures Plain(a)
  {
    var k :| 0 < k <= |a| && (forall i :: 0 <= i < k ==> f(a[i])) && a[k..] in endings;
    assert a == a[..k] + a[k..];
  }

  lemma ChannelsPlain(cc: CharClass, s: string)
    requires Sane(cc)
    ensures var r := RgbChannels(cc, s); r.Some? ==> Plain(r.value.a) && Plain(r.value.b) && Plain(r.value.c)
    ensures var r := HslChannels(cc, s); r.Some? ==> Plain(r.value.a) && Plain(r.value.b) && Plain(r.value.c)
  {
    hide RgbChannels, HslChannels, Digits, Amount, Plain;
    var r, h := RgbChannels(cc, s), HslChannels(cc, s);
    if r.Some? {
      RgbMatches(cc, s, r.value);
      DigitsPlain(cc, r.value.a);
      DigitsPlain(cc, r.value.b);
      DigitsPlain(cc, r.value.c);
    }
    if h.Some? {
      HslMatches(cc, s, h.value);
      PlainEndings();
      AmountPlain(cc, Angle(cc), UNITS, h.value.a);
      AmountPlain(cc, Number(cc), ["%"], h.value.b);
      AmountPlain(cc, Number(cc), ["%", ""], h.value.c);
    }
  }

  lemma PlainEndings()
    ensures forall e :: e in UNITS || e in ["%"] || e in ["%", ""] ==> Plain(e)
  {
  }

  /** A rewritten call has the old name, or that and an "a", and no slash or parenthesis inside. */
  lemma RewrittenIs(cc: CharClass, name: string, args: string)
    requires Sane(cc)
    ensures var r := Rewritten(cc, name, args);
      r.Some? ==> (r.value.name == name || r.value.name == name + "a") && Plain(r.value.args)
  {
    hide RgbChannels, HslChannels, Strip;
    var inner := Strip(cc, args);
    var slash := IndexOf(inner, '/');
    if slash < |inner| {
      ChannelsPlain(cc, Strip(cc, inner[..slash]));
      var alpha := Strip(cc, inner[slash + 1..]);
      if NumericAlpha(cc, alpha) {
        AlphaPlain(cc, alpha);
      }
    }
  }

  lemma AlphaPlain(cc: CharClass, s: string)
    requires Sane(cc) && NumericAlpha(cc, s)
    ensures Plain(s)
  {
    var n := Run(s, Number(cc));
    assert s == s[..n] + s[n..];
  }

  lemma StripPlain(cc: CharClass, s: string)
    requires Plain(s)
    ensures IndexOf(Strip(cc, s), '/') == |Strip(cc, s)|
  {
    var r, k := Strip(cc, s), Run(s, cc.space);
    assert r <= s[k..];
    assert forall i :: 0 <= i < |r| ==> r[i] == s[k..][i] && r[i] in s;
  }

  /** Such a call is never rewritten again. */
  lemma PlainNotRewritten(cc: CharClass, name: string, args: string)
    requires Plain(args)
    ensures Rewritten(cc, name, args) == None
  {
    StripPlain(cc, args);
  }

  // --- a second run changes nothing ---

  lemma {:induction false} CutClose(s: string, depth: nat)
    requires depth >= 1 && CloseIndex(s, depth) < |s|
    ensures var k := CloseIndex(s, depth); CloseIndex(s[..k + 1], depth) == k
  {
    var k := CloseIndex(s, depth);
    var b := s[..k + 1];
    assert b[0] == s[0];
    if k > 0 {
      CutClose(s[1..], Next(s[0], depth));
      assert b[1..] == s[1..][..k];
    }
  }

  lemma CloseGiven(s: string, b: string, k: nat)
    requires CloseIndex(s, 1) == k < |s| && |b| == k + 1 && b <= s
    ensures CloseIndex(b, 1) == k && b == b[..k] + ")"
  {
    hide *;
    CutClose(s, 1);
    assert s[..k + 1] == b;
    CloseChar(s);
    assert b[k] == s[k];
  }

  lemma CloseChar(s: string)
    ensures var k := CloseIndex(s, 1); k < |s| ==> s[k] == ')'
  {
  }

  lemma NamePlain(t: string, m: nat)
    requires m + 3 <= |t| && (t[m..m + 3] == "rgb" || t[m..m + 3] == "hsl")
    ensures Plain(t[m..m + 3])
  {
  }

  lemma Cut4(t: string, m: nat, n: nat)
    requires m + 4 <= n <= |t| && t[m + 3] == '('
    ensures t[..n] == t[..m] + (t[m..m + 3] + "(" + t[m + 4..n])
  {
  }

  /** The text of the call at m, from its name to its closing parenthesis. */
  lemma CallText(cc: CharClass, t: string, m: nat, flag: bool)
    requires m + 4 <= |t| && CallAt(cc, t, m, flag) && CloseIndex(t[m + 4..], 1) < |t| - m - 4
    ensures var end := m + 4 + CloseIndex(t[m + 4..], 1);
      && t[..end + 1] == t[..m] + (t[m..m + 3] + "(" + t[m + 4..end + 1])
      && t[m + 4..end + 1] == t[m + 4..end] + ")"
      && CloseIndex(t[m + 4..end + 1], 1) == end - m - 4
      && Plain(t[m..m + 3])
  {
    hide *;
    CallShape(cc, t, m, flag);
    var end := m + 4 + CloseIndex(t[m + 4..], 1);
    Part(t, m + 4, 0, end - m - 3);
    CloseGiven(t[m + 4..], t[m + 4..end + 1], end - m - 4);
    assert t[m + 4..end + 1][..end - m - 4] == t[m + 4..end];
    NamePlain(t, m);
    Cut4(t, m, end + 1);
  }

  /** Scanned for parentheses, the first pieces' output reads like what they were made from. */
  lemma FirstAlike(cc: CharClass, t: string, flag: bool)
    requires Sane(cc) && t != ""
    ensures var used := FirstPieces(cc, t, flag).used;
      Alike(t[..used], FirstOut(cc, t, flag).0)
  {
    hide CallAt, CloseIndex, Rewritten, FindCall, FirstPieces, FirstOut, Plain, Alike, DepthAfter, Sane;
    FirstOutIs(cc, t, flag);
    var m, used := FindCall(cc, t, 0, flag), FirstPieces(cc, t, flag).used;
    assert t[..|t|] == t;
    SameAlike(t[..used]);
    if m < |t| {
      var end := m + 4 + CloseIndex(t[m + 4..], 1);
      if end < |t| {
        var r := Rewritten(cc, t[m..m + 3], t[m + 4..end]);
        if r.Some? {
          CallText(cc, t, m, flag);
          LevelCall(t[m..m + 3], t[m + 4..end + 1]);
          RewrittenIs(cc, t[m..m + 3], t[m + 4..end]);
          LevelText(r.value, t[m..m + 3]);
          SwapAlike(t[..m], t[m..m + 3] + "(" + t[m + 4..end + 1], Text(r.value));
        }
      }
    }
  }

  lemma SameAlike(a: string)
    ensures Alike(a, a)
  {
  }

  lemma SwapAlike(g: string, a: string, b: string)
    requires Alike(a, "") && Alike(b, "")
    ensures Alike(g + a, g + b)
  {
    SameAlike(g);
    AlikeJoined(g, g, a, b);
  }

  lemma LevelText(c: Call, name: string)
    requires Plain(c.args) && Plain(name) && (c.name == name || c.name == name + "a")
    ensures Alike(Text(c), "")
  {
    PlainClose(c.args);
    LevelCall(c.name, c.args + ")");
    assert c.name + "(" + c.args + ")" == c.name + "(" + (c.args + ")");
  }

  /** Scanned for parentheses, the whole output reads like the whole input. */
  lemma {:induction false} FixedAlike(cc: CharClass, t: string, flag: bool)
    requires Sane(cc)
    ensures Alike(t, Fixed(cc, t, flag))
    decreases |t|
  {
    hide FirstPieces, FirstOut, Alike, DepthAfter, Sane, Fixed, Hits;
    if t == "" {
      NothingLeft(cc, flag);
      SameAlike(t);
    } else {
      var used := FirstPieces(cc, t, flag).used;
      FirstAlike(cc, t, flag);
      FixedAlike(cc, t[used..], false);
      FixedStep(cc, t, flag);
      AlikeJoined(t[..used], FirstOut(cc, t, flag).0, t[used..], Fixed(cc, t[used..], false));
      assert t[..used] + t[used..] == t;
    }
  }

  /** A parenthesis is never closed in the output if and only if it never is in the input. */
  lemma FixedCloses(cc: CharClass, t: string, flag: bool)
    requires Sane(cc)
    ensures CloseIndex(t, 1) == |t| <==> CloseIndex(Fixed(cc, t, flag), 1) == |Fixed(cc, t, flag)|
  {
    FixedAlike(cc, t, flag);
    assert DepthAfter(t, 1) == DepthAfter(Fixed(cc, t, flag), 1);
  }

  // --- calls in the output ---

  /** Whether a call starts at i depends on four characters and the one before. */
  lemma SameCall(cc: CharClass, t: string, u: string, i: nat, n: nat, flag: bool)
    requires i + 4 <= n <= |t| && n <= |u| && t[..n] == u[..n]
    ensures CallAt(cc, t, i, flag) <==> CallAt(cc, u, i, flag)
  {
    assert t[i..i + 4] == t[..n][i..i + 4];
    assert u[i..i + 4] == u[..n][i..i + 4];
    if i > 0 {
      assert t[i - 1] == t[..n][i - 1] == u[..n][i - 1] == u[i - 1];
    }
  }

  lemma FindIs(cc: CharClass, t: string, m: nat, flag: bool)
    requires m <= |t| && (m < |t| ==> CallAt(cc, t, m, flag))
    requires forall k :: 0 <= k < m ==> !CallAt(cc, t, k, flag)
    ensures FindCall(cc, t, 0, flag) == m
  {
  }

  /** The first call is still the first when nothing up to its parenthesis changes. */
  lemma SameFind(cc: CharClass, t: string, u: string, m: nat, flag: bool)
    requires m == FindCall(cc, t, 0, flag) && m + 4 <= |t| && m + 4 <= |u| && t[..m + 4] == u[..m + 4]
    ensures FindCall(cc, u, 0, flag) == m
  {
    hide *;
    FindFirst(cc, t, flag);
    forall k | 0 <= k <= m
      ensures CallAt(cc, t, k, flag) <==> CallAt(cc, u, k, flag)
    {
      SameCall(cc, t, u, k, m + 4, flag);
    }
    FindIs(cc, u, m, flag);
  }

  lemma FindFirst(cc: CharClass, t: string, flag: bool)
    ensures var m := FindCall(cc, t, 0, flag);
      && (m < |t| ==> CallAt(cc, t, m, flag))
      && (forall k :: 0 <= k < m ==> !CallAt(cc, t, k, flag))
  {
  }

  /** A text in which no call starts is passed over. */
  lemma Skip(cc: CharClass, a: string, x: string, flag: bool)
    requires forall k :: 0 <= k < |a| ==> !CallAt(cc, a + x, k, flag)
    ensures var f := if a == "" then flag else cc.word(a[|a| - 1]);
      && Fixed(cc, a + x, flag) == a + Fixed(cc, x, f)
      && Hits(cc, a + x, flag) == Hits(cc, x, f)
  {
    hide *;
    var y, f := a + x, if a == "" then flag else cc.word(a[|a| - 1]);
    assert y[|a|..] == x;
    FindFrom(cc, y, |a|, flag);
    FindInSuffix(cc, y, flag, |a|, |a|);
    if x == "" {
      NothingLeft(cc, flag);
      NothingLeft(cc, f);
      Untouched(cc, y, flag);
    } else {
      SkipFirst(cc, a, x, flag, f);
      FixedStep(cc, y, flag);
      FixedStep(cc, x, f);
      var used := FirstPieces(cc, x, f).used;
      UsedSome(cc, x, f);
      assert y[|a| + used..] == x[used..];
      Assoc(a, FirstOut(cc, x, f).0, Fixed(cc, x[used..], false));
    }
  }

  lemma UsedSome(cc: CharClass, x: string, flag: bool)
    requires x != ""
    ensures 0 < FirstPieces(cc, x, flag).used <= |x|
  {
  }

  lemma {:induction false} FindFrom(cc: CharClass, y: string, n: nat, flag: bool)
    requires n <= |y| && forall k :: 0 <= k < n ==> !CallAt(cc, y, k, flag)
    ensures FindCall(cc, y, 0, flag) == FindCall(cc, y, n, flag)
  {
    hide CallAt;
    if n > 0 {
      FindFrom(cc, y, n - 1, flag);
    }
  }

  lemma Untouched(cc: CharClass, y: string, flag: bool)
    requires FindCall(cc, y, 0, flag) == |y|
    ensures Fixed(cc, y, flag) == y && Hits(cc, y, flag) == 0
  {
    hide *;
    if y == "" {
      NothingLeft(cc, flag);
    } else {
      FirstOutIs(cc, y, flag);
      FixedStep(cc, y, flag);
      NothingLeft(cc, false);
      assert y[|y|..] == "";
    }
  }

  lemma SkipFirst(cc: CharClass, a: string, x: string, flag: bool, f: bool)
    requires x != "" && FindCall(cc, a + x, 0, flag) == |a| + FindCall(cc, x, 0, f)
    ensures FirstPieces(cc, a + x, flag).used == |a| + FirstPieces(cc, x, f).used
    ensures FirstOut(cc, a + x, flag) == (a + FirstOut(cc, x, f).0, FirstOut(cc, x, f).1)
  {
    hide *;
    var y := a + x;
    FirstOutIs(cc, y, flag);
    FirstOutIs(cc, x, f);
    var m := FindCall(cc, x, 0, f);
    if m < |x| {
      assert y[|a| + m + 4..] == x[m + 4..];
      var end := m + 4 + CloseIndex(x[m + 4..], 1);
      if end == |x| {
        assert y[..|a| + m + 4] == a + x[..m + 4];
      } else {
        CloseChar(x[m + 4..]);
        ShiftedParts(a, x, m, end);
        var r := Rewritten(cc, x[m..m + 3], x[m + 4..end]);
        if r.Some? {
          Assoc(a, x[..m], Text(r.value));
        }
      }
    }
  }

  /** Where the parts of a call are after a beginning that is passed over. */
  lemma ShiftedParts(a: string, x: string, m: nat, end: nat)
    requires m + 4 <= end < |x|
    ensures var y := a + x;
      && y[..|a| + end + 1] == a + x[..end + 1] && y[|a| + m..|a| + m + 3] == x[m..m + 3]
      && y[|a| + m + 4..|a| + end] == x[m + 4..end] && y[..|a| + m] == a + x[..m]
  {
  }

  // --- the theorem ---

  /** A second run leaves this text alone. */
  ghost predicate Stable(cc: CharClass, u: string, flag: bool) {
    Fixed(cc, u, flag) == u && Hits(cc, u, flag) == 0
  }

  /** If the first pieces of u keep all their text, only what follows them matters. */
  lemma KeptFirst(cc: CharClass, u: string, a: string, x: string, flag: bool)
    requires u == a + x && a != "" && Stable(cc, x, false)
    requires FirstPieces(cc, u, flag).used == |a| && FirstOut(cc, u, flag) == (a, 0)
    ensures Stable(cc, u, flag)
  {
    hide FirstPieces, FirstOut, Fixed, Hits;
    FixedStep(cc, u, flag);
    assert u[|a|..] == x;
  }

  /** After a call that is never closed. */
  lemma OpenAgain(cc: CharClass, t: string, flag: bool, m: nat)
    requires Sane(cc) && m == FindCall(cc, t, 0, flag) && m + 4 <= |t|
    requires CloseIndex(t[m + 4..], 1) == |t| - m - 4
    requires var x := Fixed(cc, t[m + 4..], false); Stable(cc, x, false)
    ensures Stable(cc, t[..m + 4] + Fixed(cc, t[m + 4..], false), flag)
  {
    hide *;
    var x := Fixed(cc, t[m + 4..], false);
    var u := t[..m + 4] + x;
    FixedCloses(cc, t[m + 4..], false);
    assert u[m + 4..] == x && u[..m + 4] == t[..m + 4];
    SameFind(cc, t, u, m, flag);
    FirstOutIs(cc, u, flag);
    KeptFirst(cc, u, t[..m + 4], x, flag);
  }

  lemma ClosedParts(t: string, m: nat, args: string, x: string)
    requires m + 4 <= |t|
    ensures var u, end := t[..m + 4] + (args + ")") + x, m + 4 + |args|;
      && u[..m + 4] == t[..m + 4] && u[m..m + 3] == t[m..m + 3]
      && u[m + 4..] == args + ")" + x && u[m + 4..end] == args
      && u[..end + 1] == t[..m + 4] + (args + ")")
  {
    var u := t[..m + 4] + (args + ")") + x;
    assert u == t[..m + 4] + (args + ")" + x);
    assert u[m + 4..][..|args|] == args;
    Part(u, m + 4, 0, |args|);
  }

  lemma ClosedFirst(cc: CharClass, t: string, u: string, flag: bool, m: nat, args: string)
    requires m == FindCall(cc, t, 0, flag) && m + 4 <= |t| && m + 4 + |args| < |u|
    requires u[..m + 4] == t[..m + 4] && u[m..m + 3] == t[m..m + 3] && u[m + 4..m + 4 + |args|] == args
    requires CloseIndex(u[m + 4..], 1) == |args| && Rewritten(cc, t[m..m + 3], args) == None
    ensures FirstPieces(cc, u, flag).used == m + 5 + |args|
    ensures FirstOut(cc, u, flag) == (u[..m + 5 + |args|], 0)
  {
    hide *;
    SameFind(cc, t, u, m, flag);
    FirstOutIs(cc, u, flag);
  }

  /** After a call, with this name at m and these arguments, that is not rewritten. */
  lemma ClosedAgain(cc: CharClass, t: string, flag: bool, m: nat, args: string, x: string)
    requires m == FindCall(cc, t, 0, flag) && m + 4 <= |t| && Stable(cc, x, false)
    requires CloseIndex(args + ")", 1) == |args| && Rewritten(cc, t[m..m + 3], args) == None
    ensures Stable(cc, t[..m + 4] + (args + ")") + x, flag)
  {
    hide *;
    var a := t[..m + 4] + (args + ")");
    var u := a + x;
    ClosedParts(t, m, args, x);
    CloseFirst(args + ")", x, 1);
    ClosedFirst(cc, t, u, flag, m, args);
    KeptFirst(cc, u, a, x, flag);
  }

  lemma NotWord(cc: CharClass)
    requires Sane(cc)
    ensures !cc.word('(') && !cc.word(')')
  {
  }

  lemma CallLetters(cc: CharClass, t: string, i: nat, flag: bool)
    ensures CallAt(cc, t, i, flag) ==>
      && i + 4 <= |t|
      && t[i] in "rh" && t[i + 1] in "gs" && t[i + 2] in "bl" && t[i + 3] == '('
  {
    if i + 4 <= |t| {
      var w := t[i..i + 4];
      assert w[0] == t[i] && w[1] == t[i + 1] && w[2] == t[i + 2] && w[3] == t[i + 3];
    }
  }

  /** No call starts inside a call with alpha. */
  lemma AlphaIsNoCall(cc: CharClass, g: string, name: string, args: string, x: string, k: nat, flag: bool)
    requires Plain(args) && (name == "rgb" || name == "hsl")
    requires |g| <= k < |g| + |args| + 6
    ensures !CallAt(cc, g + (name + "a" + "(" + args + ")") + x, k, flag)
  {
    hide CallAt;
    var call := name + "a" + "(" + args + ")";
    var u := g + call + x;
    CallLetters(cc, u, k, flag);
    assert forall j :: 0 <= j < |call| ==> u[|g| + j] == call[j];
    assert forall j :: 0 <= j < |args| ==> u[|g| + 5 + j] == args[j];
    assert u[|g| + 3] == 'a' && u[|g| + 5 + |args|] == ')';
    assert u[|g| + 1] == name[1];
    var j := k + 3 - |g|;
    if 5 <= j < 5 + |args| {
      assert u[k + 3] == args[j - 5] && args[j - 5] in args;
    }
  }

  /** After a call that was rewritten to one with alpha. */
  lemma AlphaAgain(cc: CharClass, t: string, flag: bool, m: nat, args: string, x: string)
    requires Sane(cc) && m == FindCall(cc, t, 0, flag) && m + 4 <= |t| && Stable(cc, x, false) && Plain(args)
    ensures Stable(cc, t[..m] + (t[m..m + 3] + "a" + "(" + args + ")") + x, flag)
  {
    hide FindCall, CallAt, Sane, Plain, Fixed, Hits;
    var call := t[m..m + 3] + "a" + "(" + args + ")";
    var a := t[..m] + call;
    FindFirst(cc, t, flag);
    CallShape(cc, t, m, flag);
    forall k | 0 <= k < |a|
      ensures !CallAt(cc, a + x, k, flag)
    {
      if k < m {
        assert (a + x)[..m + 3] == t[..m + 3];
        SameCall(cc, t, a + x, k, m + 3, flag);
      } else {
        AlphaIsNoCall(cc, t[..m], t[m..m + 3], args, x, k, flag);
      }
    }
    Skip(cc, a, x, flag);
    NotWord(cc);
    assert a[|a| - 1] == ')';
  }

  lemma SameName(t: string, m: nat, args: string)
    requires m + 4 <= |t| && t[m + 3] == '('
    ensures t[..m] + (t[m..m + 3] + "(" + args + ")") == t[..m + 4] + (args + ")")
  {
  }

  lemma TakeMore(s: string, a: nat, b: nat)
    requires a <= b <= |s|
    ensures s[..b] == s[..a] + s[a..b]
  {
  }

  lemma ClosedTwice(cc: CharClass, t: string, flag: bool, x: string)
    requires Sane(cc) && t != "" && Stable(cc, x, false)
    requires var m := FindCall(cc, t, 0, flag); m + 4 <= |t| && CloseIndex(t[m + 4..], 1) < |t| - m - 4
    ensures Stable(cc, FirstOut(cc, t, flag).0 + x, flag)
  {
    hide Sane, Stable, FirstOut, FirstPieces, CloseIndex, FindCall, CallAt, Rewritten, Plain;
    FirstOutIs(cc, t, flag);
    FindFirst(cc, t, flag);
    var m := FindCall(cc, t, 0, flag);
    var end := m + 4 + CloseIndex(t[m + 4..], 1);
    CallShape(cc, t, m, flag);
    CallText(cc, t, m, flag);
    var name, args := t[m..m + 3], t[m + 4..end];
    var r := Rewritten(cc, name, args);
    if r.None? {
      ClosedAgain(cc, t, flag, m, args, x);
      TakeMore(t, m + 4, end + 1);
    } else {
      RewrittenIs(cc, name, args);
      if r.value.name == name {
        PlainClose(r.value.args);
        PlainNotRewritten(cc, name, r.value.args);
        ClosedAgain(cc, t, flag, m, r.value.args, x);
        SameName(t, m, r.value.args);
      } else {
        AlphaAgain(cc, t, flag, m, r.value.args, x);
      }
    }
  }

  /** Running the rewriter a second time changes nothing and counts nothing. */
  lemma {:induction false} Idempotent(cc: CharClass, t: string, flag: bool)
    requires Sane(cc)
    ensures var u := Fixed(cc, t, flag);
      Fixed(cc, u, flag) == u && Hits(cc, u, flag) == 0
    decreases |t|
  {
    hide FindCall, FirstPieces, FirstOut, Fixed, Hits, CloseIndex, Rewritten, Sane, Text;
    if t == "" {
      NothingLeft(cc, flag);
      return;
    }
    FirstOutIs(cc, t, flag);
    FixedStep(cc, t, flag);
    var m := FindCall(cc, t, 0, flag);
    var used := FirstPieces(cc, t, flag).used;
    if m == |t| {
      Untouched(cc, t, flag);
      return;
    }
    Idempotent(cc, t[used..], false);
    var x := Fixed(cc, t[used..], false);
    var end := m + 4 + CloseIndex(t[m + 4..], 1);
    if end == |t| {
      OpenAgain(cc, t, flag, m);
    } else {
      ClosedTwice(cc, t, flag, x);
    }
  }
}

/** What the colour rewriter makes of each call, character for character. */
module ColourCalls {
  import opened Strings
  import opened Wrappers
  import opened LegacyCss

  // --- calls and their arguments, as one would read them ---

  /** A call starts here: its name, not as the end of a longer word, and a parenthesis. */
  predicate Starts(cc: CharClass, t: string, i: nat) {
    && i + 4 <= |t| && t[i + 3] == '('
    && ((t[i] == 'r' && t[i + 1] == 'g' && t[i + 2] == 'b') || (t[i] == 'h' && t[i + 1] == 's' && t[i + 2] == 'l'))
    && (i == 0 || !cc.word(t[i - 1]))
  }

  /** How many more parentheses are opened than closed. */
  function Level(s: string): int {
    if s == "" then 0
    else Level(s[..|s| - 1]) + if s[|s| - 1] == '(' then 1 else if s[|s| - 1] == ')' then -1 else 0
  }

  ghost predicate Balanced(s: string) {
    Level(s) == 0 && forall k :: 0 <= k <= |s| ==> Level(s[..k]) >= 0
  }

  /** A text with white space around it. */
  ghost predicate Surrounded(cc: CharClass, s: string, core: string) {
    && (core != "" ==> !cc.space(core[0]) && !cc.space(core[|core| - 1]))
    && exists w, v :: AllSpace(cc, w) && AllSpace(cc, v) && s == w + core + v
  }

  ghost predicate AllSpace(cc: CharClass, s: string) {
    forall i :: 0 <= i < |s| ==> cc.space(s[i])
  }

  predicate Decimal(cc: CharClass, s: string) {
    s != "" && forall i :: 0 <= i < |s| ==> cc.digit(s[i]) || s[i] == '.'
  }

  predicate Percentage(cc: CharClass, s: string) {
    |s| > 1 && s[|s| - 1] == '%' && Decimal(cc, s[..|s| - 1])
  }

  predicate Turned(cc: CharClass, s: string) {
    s != "" && forall i :: 0 <= i < |s| ==> cc.digit(s[i]) || s[i] == '.' || s[i] == '-'
  }

  ghost predicate IsAngle(cc: CharClass, s: string) {
    || Turned(cc, s)
    || exists n, unit :: Turned(cc, n) && s == n + unit
         && (unit == "deg" || unit == "grad" || unit == "rad" || unit == "turn")
  }

  /** Three channels with white space between them, as the two kinds of call have them. */
  ghost predicate Channelled(cc: CharClass, name: string, s: string, ch: Channels) {
    && Spaced(cc, s, ch)
    && if name == "rgb" then Digits(cc, ch.a) && Digits(cc, ch.b) && Digits(cc, ch.c)
       else IsAngle(cc, ch.a) && Percentage(cc, ch.b) && (Decimal(cc, ch.c) || Percentage(cc, ch.c))
  }

  /** Channels, a slash and an alpha, with white space anywhere around. */
  ghost predicate Slashed(cc: CharClass, name: string, args: string, ch: Channels, alpha: string) {
    exists i, body :: 0 <= i < |args| && FirstSlash(args, i) && Surrounded(cc, args[..i], body)
      && Channelled(cc, name, body, ch) && Surrounded(cc, args[i + 1..], alpha)
  }

  predicate FirstSlash(args: string, i: nat) {
    i < |args| && args[i] == '/' && forall k :: 0 <= k < i ==> args[k] != '/'
  }

  predicate Numeric(cc: CharClass, s: string) {
    Decimal(cc, s) || Percentage(cc, s)
  }

  // --- the same as the program has them ---

  lemma StartsCall(cc: CharClass, t: string, i: nat)
    ensures Starts(cc, t, i) <==> CallAt(cc, t, i, false)
  {
    if i + 4 <= |t| {
      var f := t[i..i + 4];
      assert f[0] == t[i] && f[1] == t[i + 1] && f[2] == t[i + 2] && f[3] == t[i + 3];
      assert f == [t[i], t[i + 1], t[i + 2], t[i + 3]];
    }
  }

  lemma DecimalAmount(cc: CharClass, s: string)
    requires Sane(cc)
    ensures Percentage(cc, s) <==> Amount(Number(cc), ["%"], s)
    ensures Decimal(cc, s) || Percentage(cc, s) <==> Amount(Number(cc), ["%", ""], s)
    ensures Numeric(cc, s) <==> NumericAlpha(cc, s)
  {
    var f := Number(cc);
    if Percentage(cc, s) {
      var k := |s| - 1;
      assert s[k..] == "%" && s[k..] in ["%"] && s[k..] in ["%", ""];
      assert forall i :: 0 <= i < k ==> f(s[..k][i]) && s[..k][i] == s[i];
    }
    if Decimal(cc, s) {
      assert s[|s|..] == "" && s[|s|..] in ["%", ""];
    }
    forall k | 0 < k <= |s| && (forall i :: 0 <= i < k ==> f(s[i])) && s[k..] == "%"
      ensures Percentage(cc, s)
    {
      assert s[k] == s[k..][0] && k == |s| - 1;
    }
    NumericIs(cc, s);
  }

  lemma NumericIs(cc: CharClass, s: string)
    requires Sane(cc)
    ensures Numeric(cc, s) <==> NumericAlpha(cc, s)
  {
    var f := Number(cc);
    var n := Run(s, f);
    if Decimal(cc, s) {
      assert n == |s| && s[n..] == "";
    } else if Percentage(cc, s) {
      var k := |s| - 1;
      assert forall i :: 0 <= i < k ==> s[..k][i] == s[i];
      assert !f('%');
      assert n == k && s[n..] == "%";
    }
    if NumericAlpha(cc, s) {
      if s[n..] == "" {
        assert n == |s|;
      } else {
        assert s[n] == s[n..][0] && n == |s| - 1;
      }
    }
  }

  lemma AngleAmount(cc: CharClass, s: string)
    ensures IsAngle(cc, s) <==> Amount(Angle(cc), UNITS, s)
  {
    hide Amount;
    if IsAngle(cc, s) {
      AngleGiven(cc, s);
    }
    if Amount(Angle(cc), UNITS, s) {
      AngleTaken(cc, s);
    }
  }

  lemma AngleGiven(cc: CharClass, s: string)
    requires IsAngle(cc, s)
    ensures Amount(Angle(cc), UNITS, s)
  {
    if Turned(cc, s) {
      assert s[|s|..] == "" && s[|s|..] in UNITS;
    } else {
      var n, unit :| Turned(cc, n) && s == n + unit
        && (unit == "deg" || unit == "grad" || unit == "rad" || unit == "turn");
      assert s[|n|..] == unit && unit in UNITS;
      assert forall i :: 0 <= i < |n| ==> s[i] == n[i];
    }
  }

  lemma AngleTaken(cc: CharClass, s: string)
    requires Amount(Angle(cc), UNITS, s)
    ensures IsAngle(cc, s)
  {
    var f := Angle(cc);
    var k :| 0 < k <= |s| && (forall i :: 0 <= i < k ==> f(s[i])) && s[k..] in UNITS;
    assert Turned(cc, s[..k]) && s == s[..k] + s[k..];
    if s[k..] == "" {
      assert k == |s| && s[..k] == s;
    }
  }

  lemma ChannelsAre(cc: CharClass, name: string, s: string, ch: Channels)
    requires Sane(cc)
    ensures (if name == "rgb" then RgbChannels(cc, s) else HslChannels(cc, s)) == Some(ch)
       <==> Channelled(cc, name, s, ch)
  {
    hide RgbChannels, HslChannels, Spaced, Digits, Amount, IsAngle, Percentage, Decimal, Angle, Number;
    RgbMatches(cc, s, ch);
    HslMatches(cc, s, ch);
    AngleAmount(cc, ch.a);
    DecimalAmount(cc, ch.b);
    DecimalAmount(cc, ch.c);
  }

  // --- white space around a text ---

  lemma {:induction false} EndStripped(cc: CharClass, s: string)
    ensures var r := StripEnd(cc, s);
      r <= s && AllSpace(cc, s[|r|..]) && (r != "" ==> !cc.space(r[|r| - 1]))
  {
    if s != "" && cc.space(s[|s| - 1]) {
      var n := |s| - 1;
      EndStripped(cc, s[..n]);
      var r := StripEnd(cc, s);
      assert forall i :: |r| <= i < n ==> s[i] == s[..n][|r|..][i - |r|];
    }
  }

  lemma Stripped(cc: CharClass, s: string)
    ensures Surrounded(cc, s, Strip(cc, s))
  {
    hide StripEnd;
    var k := Run(s, cc.space);
    var mid := s[k..];
    EndStripped(cc, mid);
    var r := Strip(cc, s);
    SplitThree(s, k, r);
    if r != "" {
      assert r[0] == mid[0] == s[k];
    }
    assert AllSpace(cc, s[..k]) && AllSpace(cc, mid[|r|..]);
  }

  lemma SplitThree(s: string, k: nat, r: string)
    requires k <= |s| && r <= s[k..]
    ensures s == s[..k] + r + s[k..][|r|..]
  {
  }

  lemma OneCore(cc: CharClass, s: string, a: string, b: string)
    requires Surrounded(cc, s, a) && Surrounded(cc, s, b)
    ensures a == b
  {
    var w, v :| AllSpace(cc, w) && AllSpace(cc, v) && s == w + a + v;
    var x, y :| AllSpace(cc, x) && AllSpace(cc, y) && s == x + b + y;
    CoreEnds(cc, s, w, a, v);
    CoreEnds(cc, s, x, b, y);
    if a != "" && b != "" {
      assert |w| == |x| && |a| == |b|;
      assert a == s[|w|..|w| + |a|] && b == s[|x|..|x| + |b|];
    }
  }

  /** The first and last characters that are no white space are those of the core. */
  lemma CoreEnds(cc: CharClass, s: string, w: string, a: string, v: string)
    requires AllSpace(cc, w) && AllSpace(cc, v) && s == w + a + v
    requires a != "" ==> !cc.space(a[0]) && !cc.space(a[|a| - 1])
    ensures forall i :: 0 <= i < |w| ==> cc.space(s[i])
    ensures forall i :: |w| + |a| <= i < |s| ==> cc.space(s[i])
    ensures a != "" ==> !cc.space(s[|w|]) && !cc.space(s[|w| + |a| - 1])
  {
    assert forall i :: 0 <= i < |w| ==> s[i] == w[i];
    assert forall i :: |w| + |a| <= i < |s| ==> s[i] == v[i - |w| - |a|];
    if a != "" {
      assert s[|w|] == a[0] && s[|w| + |a| - 1] == a[|a| - 1];
    }
  }

  lemma StripIs(cc: CharClass, s: string, core: string)
    ensures Strip(cc, s) == core <==> Surrounded(cc, s, core)
  {
    hide Strip;
    Stripped(cc, s);
    if Surrounded(cc, s, core) {
      OneCore(cc, s, Strip(cc, s), core);
    }
  }

  lemma MoreSpace(cc: CharClass, w: string, x: string, v: string)
    requires AllSpace(cc, w) && AllSpace(cc, v)
    ensures Strip(cc, w + x + v) == Strip(cc, x)
  {
    hide Strip;
    Stripped(cc, x);
    var core := Strip(cc, x);
    var p, q :| AllSpace(cc, p) && AllSpace(cc, q) && x == p + core + q;
    assert w + x + v == (w + p) + core + (q + v);
    assert AllSpace(cc, w + p) && AllSpace(cc, q + v);
    assert Surrounded(cc, w + x + v, core);
    StripIs(cc, w + x + v, core);
  }

  // The program's two sides of the slash are those of the arguments as they stand.
  lemma SlashSides(cc: CharClass, args: string) returns (i: nat)
    requires Sane(cc)
    ensures var inner := Strip(cc, args);
      var slash := IndexOf(inner, '/');
      if slash == |inner| then forall k :: 0 <= k < |args| ==> args[k] != '/'
      else
        && FirstSlash(args, i) && Strip(cc, inner[..slash]) == Strip(cc, args[..i])
        && Strip(cc, inner[slash + 1..]) == Strip(cc, args[i + 1..])
  {
    hide Strip;
    Stripped(cc, args);
    var inner := Strip(cc, args);
    var w, v :| AllSpace(cc, w) && AllSpace(cc, v) && args == w + inner + v;
    i := SidesOf(cc, args, w, inner, v);
  }

  lemma SidesOf(cc: CharClass, args: string, w: string, inner: string, v: string) returns (i: nat)
    requires Sane(cc) && AllSpace(cc, w) && AllSpace(cc, v) && args == w + inner + v
    ensures var slash := IndexOf(inner, '/');
      if slash == |inner| then forall k :: 0 <= k < |args| ==> args[k] != '/'
      else
        && FirstSlash(args, i) && Strip(cc, inner[..slash]) == Strip(cc, args[..i])
        && Strip(cc, inner[slash + 1..]) == Strip(cc, args[i + 1..])
  {
    hide Strip, IndexOf;
    NoSlash(cc, w);
    NoSlash(cc, v);
    var slash := IndexOf(inner, '/');
    i := |w| + slash;
    if slash < |inner| {
      assert args[..i] == w + inner[..slash] + "" && args[i + 1..] == "" + inner[slash + 1..] + v;
      MoreSpace(cc, w, inner[..slash], "");
      MoreSpace(cc, "", inner[slash + 1..], v);
    }
  }

  lemma NoSlash(cc: CharClass, w: string)
    requires Sane(cc) && AllSpace(cc, w)
    ensures forall k :: 0 <= k < |w| ==> w[k] != '/'
  {
  }

  lemma OneSlash(args: string, i: nat, j: nat)
    requires FirstSlash(args, i) && FirstSlash(args, j)
    ensures i == j
  {
  }

  /** The program takes exactly calls of that shape, and reads the channels and the alpha off them. */
  lemma TakenExactly(cc: CharClass, name: string, args: string)
    requires Sane(cc)
    ensures Rewritten(cc, name, args).None? ==> forall ch, alpha :: !Slashed(cc, name, args, ch, alpha)
    ensures Rewritten(cc, name, args).Some? ==> exists ch, alpha :: Slashed(cc, name, args, ch, alpha)
    ensures forall ch, alpha :: Slashed(cc, name, args, ch, alpha) ==>
      Rewritten(cc, name, args)
        == Some(if Numeric(cc, alpha) then Call(name + "a", ch.a + "," + ch.b + "," + ch.c + "," + alpha)
                else Call(name, ch.a + "," + ch.b + "," + ch.c))
  {
    hide Strip, RgbChannels, HslChannels, Channelled, Surrounded, Numeric, NumericAlpha;
    var i := SlashSides(cc, args);
    var inner := Strip(cc, args);
    var slash := IndexOf(inner, '/');
    if slash < |inner| {
      var body, alpha := Strip(cc, args[..i]), Strip(cc, args[i + 1..]);
      StripIs(cc, args[..i], body);
      StripIs(cc, args[i + 1..], alpha);
      NumericIs(cc, alpha);
      var r := if name == "rgb" then RgbChannels(cc, body) else HslChannels(cc, body);
      if r.Some? {
        ChannelsAre(cc, name, body, r.value);
        assert Slashed(cc, name, args, r.value, alpha);
      }
      forall ch, al | Slashed(cc, name, args, ch, al)
        ensures r == Some(ch) && al == alpha
      {
        var j, b :| 0 <= j < |args| && FirstSlash(args, j) && Surrounded(cc, args[..j], b)
          && Channelled(cc, name, b, ch) && Surrounded(cc, args[j + 1..], al);
        OneSlash(args, i, j);
        OneCore(cc, args[..i], body, b);
        OneCore(cc, args[i + 1..], alpha, al);
        ChannelsAre(cc, name, body, ch);
      }
    }
  }

  // --- the whole output ---

  lemma {:induction false} LevelFront(s: string)
    requires s != ""
    ensures Level(s) == (if s[0] == '(' then 1 else if s[0] == ')' then -1 else 0) + Level(s[1..])
  {
    if |s| == 1 {
      assert s[..0] == "" && s[1..] == "";
    } else {
      LevelFront(s[..|s| - 1]);
      assert s[..|s| - 1][1..] == s[1..][..|s| - 2];
    }
  }

  /** The closing parenthesis is the first that closes more than was opened. */
  lemma {:induction false} ClosesAt(s: string, depth: nat, n: nat)
    requires depth >= 1 && n < |s| && s[n] == ')' && Level(s[..n]) == 1 - depth
    requires forall k :: 0 <= k <= n ==> depth + Level(s[..k]) >= 1
    ensures CloseIndex(s, depth) == n
  {
    if n > 0 {
      assert forall k :: 1 <= k <= n ==> s[..k][1..] == s[1..][..k - 1] && s[..k][0] == s[0];
      forall k | 1 <= k <= n
        ensures Level(s[..k]) == (if s[0] == '(' then 1 else if s[0] == ')' then -1 else 0) + Level(s[1..][..k - 1])
      {
        LevelFront(s[..k]);
      }
      var d := if s[0] == '(' then depth + 1 else if s[0] == ')' then depth - 1 else depth;
      assert depth + Level(s[..1]) >= 1 && s[1..][..0] == "";
      forall k | 0 <= k <= n - 1
        ensures d + Level(s[1..][..k]) >= 1
      {
        assert depth + Level(s[..k + 1]) >= 1;
      }
      ClosesAt(s[1..], d, n - 1);
    } else {
      assert s[..0] == "";
    }
  }

  lemma BalancedCloses(args: string, y: string)
    requires Balanced(args)
    ensures CloseIndex(args + ")" + y, 1) == |args|
  {
    var s := args + ")" + y;
    assert forall k :: 0 <= k <= |args| ==> s[..k] == args[..k];
    assert args[..|args|] == args;
    ClosesAt(s, 1, |args|);
  }

  lemma FoundAt(cc: CharClass, t: string, m: nat)
    requires m <= |t| && (m < |t| ==> Starts(cc, t, m)) && forall k :: 0 <= k < m ==> !Starts(cc, t, k)
    ensures FindCall(cc, t, 0, false) == m
  {
    forall k | 0 <= k <= m
      ensures CallAt(cc, t, k, false) <==> Starts(cc, t, k)
    {
      StartsCall(cc, t, k);
    }
    var f := FindCall(cc, t, 0, false);
    if f < m {
      StartsCall(cc, t, f);
    }
  }

  /** A text in which no call starts is left as it is. */
  lemma NoCalls(cc: CharClass, t: string)
    requires forall k :: 0 <= k < |t| ==> !Starts(cc, t, k)
    ensures Fixed(cc, t, false) == t && Hits(cc, t, false) == 0
  {
    FoundAt(cc, t, |t|);
    Untouched(cc, t, false);
  }

  // A call with these arguments stands between x and y, and no other one starts before it.
  ghost predicate FirstCall(cc: CharClass, x: string, name: string, args: string, y: string) {
    var t := x + name + "(" + args + ")" + y;
    && (name == "rgb" || name == "hsl") && Balanced(args)
    && Starts(cc, t, |x|) && forall k :: 0 <= k < |x| ==> !Starts(cc, t, k)
  }

  lemma CutAt(x: string, name: string, args: string, y: string)
    requires |name| == 3
    ensures var t, m, end := x + name + "(" + args + ")" + y, |x|, |x| + 4 + |args|;
      && t[m + 4..] == args + ")" + y && t[m..m + 3] == name && t[m + 4..end] == args && t[..m] == x
      && t[end + 1..] == y && t[..end + 1] == x + name + "(" + args + ")"
  {
    var t := x + name + "(" + args + ")" + y;
    assert t == x + (name + ("(" + (args + (")" + y))));
    assert t[|x|..] == name + ("(" + (args + (")" + y)));
    assert t[|x| + 3..] == "(" + (args + (")" + y));
    assert t[|x| + 4..] == args + (")" + y) == args + ")" + y;
  }

  /** The first call of a text, and what it becomes. */
  lemma FirstStep(cc: CharClass, x: string, name: string, args: string, y: string)
    requires FirstCall(cc, x, name, args, y)
    ensures var t, r := x + name + "(" + args + ")" + y, Rewritten(cc, name, args);
      && Fixed(cc, t, false)
         == (if r.Some? then x + Text(r.value) else x + name + "(" + args + ")") + Fixed(cc, y, false)
      && Hits(cc, t, false) == (if r.Some? then 1 else 0) + Hits(cc, y, false)
  {
    hide FindCall, CloseIndex, Rewritten, Text, FirstPieces, FirstOut, Fixed, Hits, Balanced, Starts;
    var t := x + name + "(" + args + ")" + y;
    CutAt(x, name, args, y);
    BalancedCloses(args, y);
    FoundAt(cc, t, |x|);
    FirstOutIs(cc, t, false);
    FixedStep(cc, t, false);
  }

  /** A call of three channels, a slash and an alpha comes out with commas: the channels in order, and the alpha last
    * if it is a number or percentage, the name then having an a; or without the alpha. */
  lemma SlashBecomesComma(cc: CharClass, x: string, name: string, args: string, y: string, ch: Channels,
                          alpha: string)
    requires Sane(cc) && FirstCall(cc, x, name, args, y) && Slashed(cc, name, args, ch, alpha)
    ensures var t, rest := x + name + "(" + args + ")" + y, Fixed(cc, y, false);
      && Hits(cc, t, false) == 1 + Hits(cc, y, false)
      && Fixed(cc, t, false) ==
         if Numeric(cc, alpha) then x + name + "a(" + ch.a + "," + ch.b + "," + ch.c + "," + alpha + ")" + rest
         else x + name + "(" + ch.a + "," + ch.b + "," + ch.c + ")" + rest
  {
    hide Fixed, Hits, FirstCall, Slashed, Numeric, Rewritten;
    TakenExactly(cc, name, args);
    FirstStep(cc, x, name, args, y);
    var list := ch.a + "," + ch.b + "," + ch.c;
    if Numeric(cc, alpha) {
      assert x + Text(Call(name + "a", list + "," + alpha))
        == x + name + "a(" + ch.a + "," + ch.b + "," + ch.c + "," + alpha + ")";
    } else {
      assert x + Text(Call(name, list)) == x + name + "(" + ch.a + "," + ch.b + "," + ch.c + ")";
    }
  }

  /** Any other closed call stays as it is. */
  lemma OthersStay(cc: CharClass, x: string, name: string, args: string, y: string)
    requires Sane(cc) && FirstCall(cc, x, name, args, y)
    requires forall ch, alpha :: !Slashed(cc, name, args, ch, alpha)
    ensures var t := x + name + "(" + args + ")" + y;
      && Hits(cc, t, false) == Hits(cc, y, false)
      && Fixed(cc, t, false) == x + name + "(" + args + ")" + Fixed(cc, y, false)
  {
    hide Fixed, Hits, FirstCall, Slashed, Rewritten;
    TakenExactly(cc, name, args);
    FirstStep(cc, x, name, args, y);
  }

  lemma {:induction false} NeverCloses(s: string, depth: nat)
    requires depth >= 1 && forall k :: 0 <= k <= |s| ==> depth + Level(s[..k]) >= 1
    ensures CloseIndex(s, depth) == |s|
  {
    if s != "" {
      var d := depth + Level(s[..1]);
      LevelFront(s[..1]);
      assert s[..1][1..] == "" && s[..1][0] == s[0];
      forall k | 0 <= k <= |s| - 1
        ensures d + Level(s[1..][..k]) >= 1
      {
        LevelFront(s[..k + 1]);
        assert s[..k + 1][1..] == s[1..][..k] && depth + Level(s[..k + 1]) >= 1;
      }
      NeverCloses(s[1..], d);
    }
  }

  /** A call that is never closed is passed over, and what follows its parenthesis is looked at by itself. */
  lemma OpenCallStays(cc: CharClass, x: string, name: string, y: string)
    requires name == "rgb" || name == "hsl"
    requires forall k :: 0 <= k <= |y| ==> Level(y[..k]) >= 0
    requires var t := x + name + "(" + y; Starts(cc, t, |x|) && forall k :: 0 <= k < |x| ==> !Starts(cc, t, k)
    ensures var t := x + name + "(" + y;
      Fixed(cc, t, false) == x + name + "(" + Fixed(cc, y, false) && Hits(cc, t, false) == Hits(cc, y, false)
  {
    hide FindCall, CloseIndex, Rewritten, FirstPieces, FirstOut, Fixed, Hits, Starts;
    var t, m := x + name + "(" + y, |x|;
    assert t[m + 4..] == y && t[..m + 4] == x + name + "(";
    NeverCloses(y, 1);
    FoundAt(cc, t, m);
    FirstOutIs(cc, t, false);
    FixedStep(cc, t, false);
  }

  // --- examples ---

  // Digits and blanks, at least, as one expects them.
  ghost predicate Usual(cc: CharClass) {
    && Sane(cc) && cc.space(' ') && (forall c :: c in "0123456789" ==> cc.digit(c) && !cc.space(c))
  }

  lemma TwoBlanks(cc: CharClass, a: string, b: string, c: string)
    requires Usual(cc)
    ensures Spaced(cc, a + " " + b + " " + c, Channels(a, b, c))
  {
    assert a + " " + b + " " + c == a + (" " + (b + (" " + c)));
    assert Blank(cc, " ");
  }

  lemma NoParentheses(s: string)
    requires forall i :: 0 <= i < |s| ==> s[i] != '(' && s[i] != ')'
    ensures Balanced(s)
  {
    forall k | 0 <= k <= |s|
      ensures Level(s[..k]) == 0
    {
      LevelNone(s[..k]);
    }
    assert s[..|s|] == s;
  }

  lemma {:induction false} LevelNone(s: string)
    requires forall i :: 0 <= i < |s| ==> s[i] != '(' && s[i] != ')'
    ensures Level(s) == 0
  {
    if s != "" {
      LevelNone(s[..|s| - 1]);
    }
  }

  function Modern(a: string, b: string, c: string, alpha: string): string {
    a + " " + b + " " + c + " / " + alpha
  }

  lemma ModernSlashed(cc: CharClass, a: string, b: string, c: string, alpha: string)
    requires Usual(cc) && Digits(cc, a) && Digits(cc, b) && Digits(cc, c) && Numeric(cc, alpha)
    ensures Slashed(cc, "rgb", Modern(a, b, c, alpha), Channels(a, b, c), alpha)
    ensures forall k :: 0 <= k < |Modern(a, b, c, alpha)| ==> Modern(a, b, c, alpha)[k] !in "()"
  {
    hide Spaced;
    var args, body := Modern(a, b, c, alpha), a + " " + b + " " + c;
    TwoBlanks(cc, a, b, c);
    var i := |body| + 1;
    assert args == body + (" / " + alpha);
    assert args[i] == '/';
    assert args[..i] == "" + body + " " && args[i + 1..] == " " + alpha + "";
    ModernPlain(cc, a, b, c, alpha);
    assert FirstSlash(args, i);
    assert AllSpace(cc, "") && AllSpace(cc, " ");
    assert body[0] == a[0] && body[|body| - 1] == c[|c| - 1];
    assert a[0] in a && c[|c| - 1] in c;
    assert Surrounded(cc, args[..i], body) && Surrounded(cc, args[i + 1..], alpha);
    assert Channelled(cc, "rgb", body, Channels(a, b, c));
  }

  lemma ModernPlain(cc: CharClass, a: string, b: string, c: string, alpha: string)
    requires Usual(cc) && Digits(cc, a) && Digits(cc, b) && Digits(cc, c) && Numeric(cc, alpha)
    ensures var args, i := Modern(a, b, c, alpha), |a + " " + b + " " + c| + 1;
      && (forall k :: 0 <= k < |args| ==> args[k] !in "()") && (forall k :: 0 <= k < i ==> args[k] != '/')
      && !cc.space(alpha[0]) && !cc.space(alpha[|alpha| - 1])
  {
    var body := a + " " + b + " " + c;
    assert Modern(a, b, c, alpha) == body + (" / " + alpha);
    assert forall k :: 0 <= k < |body| ==>
      body[k] == ' ' || body[k] in a || body[k] in b || body[k] in c;
    assert forall k :: 0 <= k < |alpha| ==> cc.digit(alpha[k]) || alpha[k] == '.' || alpha[k] == '%';
  }

  /** Three groups of digits and a number, written with single blanks. */
  lemma ModernCall(cc: CharClass, a: string, b: string, c: string, alpha: string)
    requires Usual(cc) && Digits(cc, a) && Digits(cc, b) && Digits(cc, c) && Numeric(cc, alpha)
    ensures var t := "rgb(" + Modern(a, b, c, alpha) + ")";
      && Fixed(cc, t, false) == "rgba(" + a + "," + b + "," + c + "," + alpha + ")"
      && Hits(cc, t, false) == 1
  {
    hide Fixed, Hits, Slashed, Balanced, Spaced, Modern, Digits, Numeric;
    var args := Modern(a, b, c, alpha);
    ModernSlashed(cc, a, b, c, alpha);
    NoParentheses(args);
    WholeText(args);
    SlashBecomesComma(cc, "", "rgb", args, "", Channels(a, b, c), alpha);
    NothingLeft(cc, false);
    WholeOutput(a, b, c, alpha);
  }

  lemma WholeText(args: string)
    ensures "" + "rgb" + "(" + args + ")" + "" == "rgb(" + args + ")"
  {
    assert "" + "rgb" + "(" == "rgb(";
  }

  lemma WholeOutput(a: string, b: string, c: string, alpha: string)
    ensures "" + "rgb" + "a(" + a + "," + b + "," + c + "," + alpha + ")" + ""
         == "rgba(" + a + "," + b + "," + c + "," + alpha + ")"
  {
    assert "" + "rgb" + "a(" == "rgba(";
  }

  /** rgb(59 130 246 / .5) */
  lemma HalfBlue(cc: CharClass)
    requires Usual(cc)
    ensures Fixed(cc, "rgb(59 130 246 / .5)", false) == "rgba(59,130,246,.5)"
    ensures Hits(cc, "rgb(59 130 246 / .5)", false) == 1
  {
    hide Fixed, Hits;
    ModernCall(cc, "59", "130", "246", ".5");
    assert "rgb(" + Modern("59", "130", "246", ".5") + ")" == "rgb(59 130 246 / .5)";
    assert "rgba(" + "59" + "," + "130" + "," + "246" + "," + ".5" + ")" == "rgba(59,130,246,.5)";
  }
}

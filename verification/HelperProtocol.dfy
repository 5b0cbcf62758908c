/** A client and its single-use helper process: fixed-size requests and replies over a byte stream. */
module HelperProtocol {
  import opened Bytes
  import opened Wrappers

  const MAGIC: nat := 0x504B_4749
  const VERSION: nat := 2

  const READY: nat := 0
  const INSTALL: nat := 1
  const STATUS: nat := 2
  const SHORTCUT: nat := 3
  const CLOSE: nat := 4

  const UNAVAILABLE: int := -2001
  const DISCONNECTED: int := -2002
  const CANCELED: int := -2003
  const TIMEOUT: int := -2004

  // The sizes of the two C structs.
  const REQUEST: nat := 1964
  const RESPONSE: nat := 752
  const REPLY_REST: nat := 732

  // --- messages ---

  function Word(b: Octets, at: nat): nat
    requires at + 4 <= |b|
  {
    FromLe(b[at..at + 4])
  }

  /** A request the helper accepts: right magic and version, every text ended within its array. */
  predicate WellFormed(r: Octets)
    requires |r| == REQUEST
  {
    && Word(r, 0) == MAGIC && Word(r, 4) == VERSION
    && 0 in r[12..1036] && 0 in r[1036..1356] && 0 in r[1356..1868] && 0 in r[1868..1900] && 0 in r[1900..1964]
  }

  function Op(r: Octets): nat
    requires |r| == REQUEST
  {
    Word(r, 8)
  }

  /** A request as the client lays it out, its five texts in arrays of 1024, 320, 512, 32 and 64 octets. */
  function Request(op: nat, uri: Octets, name: Octets, icon: Octets, title: Octets, directory: Octets): Octets {
    Le(MAGIC, 4) + (Le(VERSION, 4) + (Le(op, 4) + (uri + (name + (icon + (title + directory))))))
  }

  /** The helper accepts it exactly if each text ends within its array. */
  lemma RequestAccepted(op: nat, uri: Octets, name: Octets, icon: Octets, title: Octets, directory: Octets)
    requires op < TWO_POW_32
    requires |uri| == 1024 && |name| == 320 && |icon| == 512 && |title| == 32 && |directory| == 64
    ensures var r := Request(op, uri, name, icon, title, directory);
      && |r| == REQUEST && Op(r) == op
      && (WellFormed(r) <==> 0 in uri && 0 in name && 0 in icon && 0 in title && 0 in directory)
  {
    hide Word, Le;
    var texts := uri + (name + (icon + (title + directory)));
    var e2 := Le(op, 4) + texts;
    var e1 := Le(VERSION, 4) + e2;
    var r := Request(op, uri, name, icon, title, directory);
    LeLength(MAGIC, op);
    WordFirst(MAGIC, e1);
    WordFirst(VERSION, e2);
    WordFirst(op, texts);
    WordLater(r, 0, 4);
    Drop(r, 4, 4);
    WordLater(r, 0, 8);
    Drop(r, 8, 4);
    TextsIn(r, uri, name, icon, title, directory);
  }

  lemma TextsIn(r: Octets, uri: Octets, name: Octets, icon: Octets, title: Octets, directory: Octets)
    requires |r| == REQUEST && r[12..] == uri + (name + (icon + (title + directory)))
    requires |uri| == 1024 && |name| == 320 && |icon| == 512 && |title| == 32 && |directory| == 64
    ensures r[12..1036] == uri && r[1036..1356] == name && r[1356..1868] == icon && r[1868..1900] == title
    ensures r[1900..1964] == directory
  {
    assert r[1036..] == r[12..][1024..] == name + (icon + (title + directory));
    assert r[1356..] == r[1036..][320..] == icon + (title + directory);
    assert r[1868..] == r[1356..][512..] == title + directory;
    assert r[12..1036] == r[12..][..1024] && r[1036..1356] == r[1036..][..320] && r[1356..1868] == r[1356..][..512];
  }

  lemma LeLength(v: nat, w: nat)
    ensures |Le(v, 4)| == |Le(w, 4)| == |Le(VERSION, 4)| == 4
  {
  }

  // A reply: which request it answers, the native result, the sender, and what else the call returned.
  datatype Reply = Reply(op: nat, result: int, pid: nat, rest: Octets)

  predicate Sendable(r: Reply) {
    r.op < TWO_POW_32 && -0x8000_0000 <= r.result < 0x8000_0000 && r.pid < TWO_POW_32 && |r.rest| == REPLY_REST
  }

  function Encode(r: Reply): (b: Octets)
    requires Sendable(r)
    ensures |b| == RESPONSE
  {
    Le(MAGIC, 4) + (Le(VERSION, 4) + (Le(r.op, 4) + (Le(r.result % TWO_POW_32, 4) + (Le(r.pid, 4) + r.rest))))
  }

  /** What the client makes of a reply: nothing if magic or version are wrong. */
  function Decode(b: Octets): Option<Reply>
    requires |b| == RESPONSE
  {
    if Word(b, 0) != MAGIC || Word(b, 4) != VERSION then None
    else
      var v := Word(b, 12);
      Some(Reply(Word(b, 8), if v >= 0x8000_0000 then v - TWO_POW_32 else v, Word(b, 16), b[20..]))
  }

  lemma WordFirst(v: nat, rest: Octets)
    requires v < TWO_POW_32
    ensures Word(Le(v, 4) + rest, 0) == v && (Le(v, 4) + rest)[4..] == rest
  {
    assert Pow256(2) == 0x1_0000 && Pow256(4) == TWO_POW_32;
    LeRoundTrip(v, 4);
    assert (Le(v, 4) + rest)[0..4] == Le(v, 4);
  }

  lemma WordLater(b: Octets, at: nat, skip: nat)
    requires skip + at + 4 <= |b|
    ensures Word(b, skip + at) == Word(b[skip..], at)
  {
    assert b[skip..][at..at + 4] == b[skip + at..skip + at + 4];
  }

  /** The client reads the reply the helper encoded. */
  lemma ReplyBack(r: Reply)
    requires Sendable(r)
    ensures Decode(Encode(r)) == Some(r)
  {
    hide Word, Le;
    var e5 := Le(r.pid, 4) + r.rest;
    var e4 := Le(r.result % TWO_POW_32, 4) + e5;
    var e3 := Le(r.op, 4) + e4;
    var e2 := Le(VERSION, 4) + e3;
    var b := Encode(r);
    WordFirst(MAGIC, e2);
    WordFirst(VERSION, e3);
    WordFirst(r.op, e4);
    WordFirst(r.result % TWO_POW_32, e5);
    WordFirst(r.pid, r.rest);
    WordLater(b, 0, 4);
    Drop(b, 4, 4);
    WordLater(b, 0, 8);
    Drop(b, 8, 4);
    WordLater(b, 0, 12);
    Drop(b, 12, 4);
    WordLater(b, 0, 16);
    Drop(b, 16, 4);
  }

  lemma Drop(b: Octets, i: nat, j: nat)
    requires i + j <= |b|
    ensures b[i..][j..] == b[i + j..]
  {
  }

  // --- the helper ---

  // The calls into the system, in order, with their results.
  datatype Call = Initialize(result: int) | InstallByPackage(result: int) | GetStatus(result: int)
                | RegisterShortcut(result: int) | Terminate(result: int)

  // How the system answers the next call, given the calls before it, and what it returns besides.
  datatype System = System(result: seq<Call> -> int, rest: seq<Call> -> Octets, pid: nat)

  ghost predicate Sound(sys: System) {
    && sys.pid < TWO_POW_32
    && forall calls :: -0x8000_0000 <= sys.result(calls) < 0x8000_0000 && |sys.rest(calls)| == REPLY_REST
  }

  // The helper's state between requests.
  datatype Helper = Helper(used: bool, installed: bool, terminated: bool, broken: bool, calls: seq<Call>)

  predicate Over(h: Helper) {
    h.terminated || h.broken
  }

  /** One request that was read completely: the helper's next state and the result it reports. */
  function Handle(h: Helper, r: Octets, sys: System): (Helper, int)
    requires |r| == REQUEST
  {
    var v := sys.result(h.calls);
    if Op(r) == INSTALL && !h.used then
      (h.(used := true, installed := v == 0, calls := h.calls + [InstallByPackage(v)]), v)
    else if Op(r) == STATUS && h.installed then (h.(calls := h.calls + [GetStatus(v)]), v)
    else if Op(r) == SHORTCUT && !h.used then (h.(used := true, calls := h.calls + [RegisterShortcut(v)]), v)
    else if Op(r) == CLOSE then (h.(terminated := true, calls := h.calls + [Terminate(v)]), v)
    else (h, UNAVAILABLE)
  }

  function First(sys: System): Helper {
    var v := sys.result([]);
    Helper(false, false, false, v != 0, [Initialize(v)])
  }

  function Ready(sys: System): Reply {
    Reply(READY, sys.result([]), sys.pid, sys.rest([]))
  }

  /** The helper after the first n requests. */
  function After(requests: seq<Octets>, n: nat, sys: System): Helper
    requires n <= |requests| && forall i :: 0 <= i < |requests| ==> |requests[i]| == REQUEST
  {
    if n == 0 then First(sys)
    else
      var h := After(requests, n - 1, sys);
      if Over(h) then h
      else if !WellFormed(requests[n - 1]) then h.(broken := true)
      else Handle(h, requests[n - 1], sys).0
  }

  /** Does the helper answer request n, and how? */
  function Answer(requests: seq<Octets>, n: nat, sys: System): Option<Reply>
    requires n < |requests| && forall i :: 0 <= i < |requests| ==> |requests[i]| == REQUEST
  {
    var h := After(requests, n, sys);
    if Over(h) || !WellFormed(requests[n]) then None
    else
      var next := Handle(h, requests[n], sys);
      Some(Reply(Op(requests[n]), next.1, sys.pid, sys.rest(next.0.calls)))
  }

  // Terminate ends the calls; it comes exactly once if the system was initialized.
  function Terminations(calls: seq<Call>): nat {
    if calls == [] then 0 else Terminations(calls[..|calls| - 1]) + if calls[|calls| - 1].Terminate? then 1 else 0
  }

  function Installs(calls: seq<Call>): nat {
    if calls == [] then 0
    else
      var c := calls[|calls| - 1];
      Installs(calls[..|calls| - 1]) + if c.InstallByPackage? || c.RegisterShortcut? then 1 else 0
  }

  // A status is only asked for after an installation that succeeded.
  predicate StatusAfterInstall(calls: seq<Call>) {
    forall i :: 0 <= i < |calls| && calls[i].GetStatus? ==>
      exists j :: 0 <= j < i && calls[j] == InstallByPackage(0)
  }

  // What holds between requests.
  predicate Orderly(h: Helper) {
    && h.calls != [] && h.calls[0].Initialize?
    && Terminations(h.calls) == (if h.terminated then 1 else 0)
    && Installs(h.calls) == (if h.used then 1 else 0)
    && StatusAfterInstall(h.calls)
    && (h.installed <==> InstallByPackage(0) in h.calls)
    && (!h.used ==> forall c :: c in h.calls ==> !c.InstallByPackage?)
    && (h.terminated ==> h.calls[0] == Initialize(0))
    && (!Over(h) ==> h.calls[0] == Initialize(0))
    && (h.calls[0] != Initialize(0) ==> |h.calls| == 1)
  }

  lemma OneMore(calls: seq<Call>, c: Call)
    requires calls != []
    ensures (calls + [c])[0] == calls[0]
    ensures Terminations(calls + [c]) == Terminations(calls) + if c.Terminate? then 1 else 0
    ensures Installs(calls + [c]) == Installs(calls) + if c.InstallByPackage? || c.RegisterShortcut? then 1 else 0
    ensures StatusAfterInstall(calls) && (c.GetStatus? ==> InstallByPackage(0) in calls) ==>
      StatusAfterInstall(calls + [c])
  {
    var more := calls + [c];
    assert more[..|calls|] == calls;
    if StatusAfterInstall(calls) && (c.GetStatus? ==> InstallByPackage(0) in calls) {
      forall i | 0 <= i < |more| && more[i].GetStatus?
        ensures exists j :: 0 <= j < i && more[j] == InstallByPackage(0)
      {
        if i < |calls| {
          var j :| 0 <= j < i && calls[j] == InstallByPackage(0);
          assert more[j] == InstallByPackage(0);
        } else {
          var j :| 0 <= j < |calls| && calls[j] == InstallByPackage(0);
          assert more[j] == InstallByPackage(0);
        }
      }
    }
  }

  lemma HandleOrderly(h: Helper, r: Octets, sys: System)
    requires |r| == REQUEST && Orderly(h) && !Over(h)
    ensures Orderly(Handle(h, r, sys).0)
  {
    hide Terminations, Installs, StatusAfterInstall;
    var v := sys.result(h.calls);
    OneMore(h.calls, InstallByPackage(v));
    OneMore(h.calls, GetStatus(v));
    OneMore(h.calls, RegisterShortcut(v));
    OneMore(h.calls, Terminate(v));
    assert (h.calls + [InstallByPackage(v)])[|h.calls|] == InstallByPackage(v);
  }

  lemma FirstOrderly(sys: System)
    ensures Orderly(First(sys))
  {
    var c := First(sys).calls;
    assert c[..|c| - 1] == [];
  }

  lemma {:induction false} AlwaysOrderly(requests: seq<Octets>, n: nat, sys: System)
    requires n <= |requests| && forall i :: 0 <= i < |requests| ==> |requests[i]| == REQUEST
    ensures Orderly(After(requests, n, sys))
  {
    hide Handle, WellFormed;
    if n == 0 {
      FirstOrderly(sys);
    } else {
      AlwaysOrderly(requests, n - 1, sys);
      var h := After(requests, n - 1, sys);
      if !Over(h) && WellFormed(requests[n - 1]) {
        HandleOrderly(h, requests[n - 1], sys);
      }
    }
  }

  // --- what each request leads to ---

  // The request that uses the helper up: the first one to install or to register a shortcut.
  predicate Uses(requests: seq<Octets>, i: nat)
    requires i < |requests| && forall k :: 0 <= k < |requests| ==> |requests[k]| == REQUEST
  {
    && (Op(requests[i]) == INSTALL || Op(requests[i]) == SHORTCUT)
    && forall j :: 0 <= j < i ==> Op(requests[j]) != INSTALL && Op(requests[j]) != SHORTCUT
  }

  predicate Installing(requests: seq<Octets>, i: nat)
    requires i < |requests| && forall k :: 0 <= k < |requests| ==> |requests[k]| == REQUEST
  {
    Op(requests[i]) == INSTALL && Uses(requests, i)
  }

  // A status request after an install that was reported to have succeeded.
  predicate Asks(requests: seq<Octets>, replies: seq<Reply>, i: nat)
    requires i < |requests| && i < |replies| && forall k :: 0 <= k < |requests| ==> |requests[k]| == REQUEST
  {
    Op(requests[i]) == STATUS && exists j :: 0 <= j < i && Installing(requests, j) && replies[j + 1].result == 0
  }

  predicate Leads(requests: seq<Octets>, replies: seq<Reply>, i: nat)
    requires i < |requests| && i < |replies| && forall k :: 0 <= k < |requests| ==> |requests[k]| == REQUEST
  {
    Uses(requests, i) || Asks(requests, replies, i) || Op(requests[i]) == CLOSE
  }

  /** How many of the first n requests lead to a call. */
  function Led(requests: seq<Octets>, replies: seq<Reply>, n: nat): nat
    requires n <= |requests| && n <= |replies| && forall k :: 0 <= k < |requests| ==> |requests[k]| == REQUEST
  {
    if n == 0 then 0 else Led(requests, replies, n - 1) + if Leads(requests, replies, n - 1) then 1 else 0
  }

  /** The call that request i leads to stands in its place among the calls, and its result is what is replied. */
  ghost predicate Follows(requests: seq<Octets>, replies: seq<Reply>, calls: seq<Call>, i: nat)
    requires i < |requests| && i + 1 < |replies| && forall k :: 0 <= k < |requests| ==> |requests[k]| == REQUEST
  {
    var c, v := 1 + Led(requests, replies, i), replies[i + 1].result;
    && (Leads(requests, replies, i) ==> c < |calls|)
    && (Op(requests[i]) == INSTALL && Uses(requests, i) ==> calls[c] == InstallByPackage(v))
    && (Op(requests[i]) == SHORTCUT && Uses(requests, i) ==> calls[c] == RegisterShortcut(v))
    && (Asks(requests, replies, i) ==> calls[c] == GetStatus(v))
    && (Op(requests[i]) == CLOSE ==> calls[c] == Terminate(v))
    && (!Leads(requests, replies, i) ==> v == UNAVAILABLE)
    && replies[i + 1].op == Op(requests[i])
  }

  // Every call has the result that the system gives after the calls before it.
  ghost predicate Native(calls: seq<Call>, sys: System) {
    forall m :: 0 <= m < |calls| ==> calls[m].result == sys.result(calls[..m])
  }

  lemma NativeMore(calls: seq<Call>, c: Call, sys: System)
    requires Native(calls, sys) && c.result == sys.result(calls)
    ensures Native(calls + [c], sys)
  {
    var more := calls + [c];
    forall m | 0 <= m < |more|
      ensures more[m].result == sys.result(more[..m])
    {
      assert more[..m] == if m < |calls| then calls[..m] else calls;
    }
  }

  // The helper's own variables, in terms of the requests it answered.
  ghost predicate Remembers(h: Helper, requests: seq<Octets>, replies: seq<Reply>, n: nat)
    requires n <= |requests| && n < |replies| && forall k :: 0 <= k < |requests| ==> |requests[k]| == REQUEST
  {
    && (h.used <==> exists j :: 0 <= j < n && Uses(requests, j))
    && (h.installed <==> exists j :: 0 <= j < n && Installing(requests, j) && replies[j + 1].result == 0)
    && (h.terminated <==> n > 0 && Op(requests[n - 1]) == CLOSE)
    && |h.calls| == 1 + Led(requests, replies, n)
  }

  lemma HandleLeads(h: Helper, requests: seq<Octets>, replies: seq<Reply>, n: nat, sys: System)
    requires n < |requests| && n + 1 < |replies| && forall k :: 0 <= k < |requests| ==> |requests[k]| == REQUEST
    requires Remembers(h, requests, replies, n) && Native(h.calls, sys) && !h.terminated
    requires replies[n + 1].result == Handle(h, requests[n], sys).1 && replies[n + 1].op == Op(requests[n])
    ensures var k := Handle(h, requests[n], sys).0;
      && h.calls <= k.calls && k.broken == h.broken && Remembers(k, requests, replies, n + 1) && Native(k.calls, sys)
      && Follows(requests, replies, k.calls, n)
  {
    hide Led, Op, Native;
    var k := Handle(h, requests[n], sys).0;
    UsedUp(requests, n);
    assert Uses(requests, n) <==> !h.used && (Op(requests[n]) == INSTALL || Op(requests[n]) == SHORTCUT);
    Widen(requests, replies, n);
    NextLed(requests, replies, n);
    if k.calls != h.calls {
      NativeMore(h.calls, k.calls[|h.calls|], sys);
    }
  }

  lemma Widen(requests: seq<Octets>, replies: seq<Reply>, n: nat)
    requires n < |requests| && n + 1 < |replies| && forall k :: 0 <= k < |requests| ==> |requests[k]| == REQUEST
    ensures (exists j :: 0 <= j < n + 1 && Uses(requests, j)) <==>
      (exists j :: 0 <= j < n && Uses(requests, j)) || Uses(requests, n)
    ensures (exists j :: 0 <= j < n + 1 && Installing(requests, j) && replies[j + 1].result == 0) <==>
      || (exists j :: 0 <= j < n && Installing(requests, j) && replies[j + 1].result == 0)
      || (Installing(requests, n) && replies[n + 1].result == 0)
  {
    hide Op, Uses, Installing;
  }

  lemma NextLed(requests: seq<Octets>, replies: seq<Reply>, n: nat)
    requires n < |requests| && n < |replies| && forall k :: 0 <= k < |requests| ==> |requests[k]| == REQUEST
    ensures Led(requests, replies, n + 1)
         == Led(requests, replies, n) + if Leads(requests, replies, n) then 1 else 0
  {
  }

  /** There is a request that uses the helper up exactly if one before installs or registers. */
  lemma {:induction false} UsedUp(requests: seq<Octets>, n: nat)
    requires n <= |requests| && forall k :: 0 <= k < |requests| ==> |requests[k]| == REQUEST
    ensures (exists j :: 0 <= j < n && Uses(requests, j))
       <==> exists j :: 0 <= j < n && (Op(requests[j]) == INSTALL || Op(requests[j]) == SHORTCUT)
  {
    hide Op;
    if n > 0 {
      UsedUp(requests, n - 1);
      assert Uses(requests, n - 1) ==> exists j :: 0 <= j < n && Uses(requests, j);
    }
  }

  /** Calls made later leave a request's call in its place. */
  lemma FollowsOn(requests: seq<Octets>, replies: seq<Reply>, calls: seq<Call>, more: seq<Call>, i: nat)
    requires i < |requests| && i + 1 < |replies| && forall k :: 0 <= k < |requests| ==> |requests[k]| == REQUEST
    requires calls <= more && Follows(requests, replies, calls, i)
    ensures Follows(requests, replies, more, i)
  {
    hide Led, Op;
  }

  lemma {:induction false} AnsweredLeads(requests: seq<Octets>, replies: seq<Reply>, n: nat, sys: System)
    requires n <= |requests| && n < |replies| && forall k :: 0 <= k < |requests| ==> |requests[k]| == REQUEST
    requires forall i :: 0 <= i < n ==> Answer(requests, i, sys) == Some(replies[i + 1])
    ensures var h := After(requests, n, sys);
      && Remembers(h, requests, replies, n) && Native(h.calls, sys) && (h.broken <==> sys.result([]) != 0)
      && forall i :: 0 <= i < n ==> Follows(requests, replies, h.calls, i)
  {
    hide Handle, WellFormed, Led, Follows, Leads, Uses, Installing;
    if n == 0 {
      NoneLed(requests, replies, sys);
    } else {
      AnsweredLeads(requests, replies, n - 1, sys);
      var h := After(requests, n - 1, sys);
      assert Answer(requests, n - 1, sys) == Some(replies[n - 1 + 1]);
      HandleLeads(h, requests, replies, n - 1, sys);
      forall i | 0 <= i < n - 1
        ensures Follows(requests, replies, After(requests, n, sys).calls, i)
      {
        FollowsOn(requests, replies, h.calls, After(requests, n, sys).calls, i);
      }
    }
  }

  lemma NoneLed(requests: seq<Octets>, replies: seq<Reply>, sys: System)
    requires |replies| > 0 && forall k :: 0 <= k < |requests| ==> |requests[k]| == REQUEST
    ensures Remembers(First(sys), requests, replies, 0) && Native(First(sys).calls, sys)
  {
    assert First(sys).calls[..0] == [];
  }

  /** Every place among those calls belongs to a request. */
  lemma {:induction false} LedBy(requests: seq<Octets>, replies: seq<Reply>, n: nat, m: nat) returns (i: nat)
    requires n <= |requests| && n <= |replies| && forall k :: 0 <= k < |requests| ==> |requests[k]| == REQUEST
    requires m < Led(requests, replies, n)
    ensures i < n && Leads(requests, replies, i) && Led(requests, replies, i) == m
  {
    hide Leads;
    if m == Led(requests, replies, n - 1) {
      i := n - 1;
    } else {
      i := LedBy(requests, replies, n - 1, m);
    }
  }

  /** So the system installs exactly if the first request to use the helper asks for it, and registers a shortcut
    * exactly if that one asks for that. */
  lemma OneUse(requests: seq<Octets>, replies: seq<Reply>, calls: seq<Call>, n: nat)
    requires n <= |requests| && n < |replies| && forall k :: 0 <= k < |requests| ==> |requests[k]| == REQUEST
    requires calls != [] && calls[0].Initialize? && |calls| >= 1 + Led(requests, replies, n)
    requires forall m :: 1 + Led(requests, replies, n) <= m < |calls| ==> calls[m].Terminate?
    requires forall i :: 0 <= i < n ==> Follows(requests, replies, calls, i)
    ensures (exists c :: c in calls && c.InstallByPackage?) <==>
      exists i :: 0 <= i < n && Op(requests[i]) == INSTALL && Uses(requests, i)
    ensures (exists c :: c in calls && c.RegisterShortcut?) <==>
      exists i :: 0 <= i < n && Op(requests[i]) == SHORTCUT && Uses(requests, i)
  {
    hide Op, Led, Uses;
    forall i | 0 <= i < n && Uses(requests, i)
      ensures exists c :: c in calls && if Op(requests[i]) == INSTALL then c.InstallByPackage? else c.RegisterShortcut?
    {
      UsesEither(requests, i);
      assert Follows(requests, replies, calls, i);
      assert calls[1 + Led(requests, replies, i)] in calls;
    }
    forall c | c in calls && (c.InstallByPackage? || c.RegisterShortcut?)
      ensures exists i ::
        0 <= i < n && Uses(requests, i) && Op(requests[i]) == if c.InstallByPackage? then INSTALL else SHORTCUT
    {
      var m :| 0 <= m < |calls| && calls[m] == c;
      var i := LedBy(requests, replies, n, m - 1);
      assert Follows(requests, replies, calls, i);
      if Uses(requests, i) {
        UsesEither(requests, i);
      }
    }
  }

  lemma UsesEither(requests: seq<Octets>, i: nat)
    requires i < |requests| && forall k :: 0 <= k < |requests| ==> |requests[k]| == REQUEST
    requires Uses(requests, i)
    ensures Op(requests[i]) == INSTALL || Op(requests[i]) == SHORTCUT
  {
  }

  lemma Outcomes(requests: seq<Octets>, replies: seq<Reply>, calls: seq<Call>, sys: System)
    requires 0 < |replies| <= |requests| + 1 && forall k :: 0 <= k < |requests| ==> |requests[k]| == REQUEST
    requires forall i :: 0 <= i < |replies| - 1 ==> Answer(requests, i, sys) == Some(replies[i + 1])
    requires After(requests, |replies| - 1, sys).calls <= calls
    ensures forall i :: 0 <= i < |replies| - 1 ==> Follows(requests, replies, calls, i)
  {
    hide After, Answer, Led, Follows, Uses, Installing, Op, Native, Remembers;
    var n := |replies| - 1;
    var h := After(requests, n, sys);
    AnsweredLeads(requests, replies, n, sys);
    forall i | 0 <= i < n
      ensures Follows(requests, replies, calls, i)
    {
      FollowsOn(requests, replies, h.calls, calls, i);
    }
  }

  lemma Lasting(requests: seq<Octets>, replies: seq<Reply>, sys: System)
    requires 0 < |replies| <= |requests| + 1 && forall k :: 0 <= k < |requests| ==> |requests[k]| == REQUEST
    requires forall i :: 0 <= i < |replies| - 1 ==> Answer(requests, i, sys) == Some(replies[i + 1])
    ensures var n := |replies| - 1;
      var h := After(requests, n, sys);
      && Native(h.calls, sys) && |h.calls| == 1 + Led(requests, replies, n)
      && (h.terminated <==> n > 0 && Op(requests[n - 1]) == CLOSE) && (h.broken <==> sys.result([]) != 0)
  {
    hide After, Answer, Led, Follows, Uses, Installing, Op, Native;
    AnsweredLeads(requests, replies, |replies| - 1, sys);
  }

  // --- serving ---

  /** After n requests no other is answered: none comes, a reply was not sent, or the helper or the request is over. */
  predicate Stops(requests: seq<Octets>, sends: nat -> bool, sys: System, n: nat)
    requires n <= |requests| && forall i :: 0 <= i < |requests| ==> |requests[i]| == REQUEST
  {
    n == |requests| || !sends(n) || Over(After(requests, n, sys)) || !WellFormed(requests[n])
  }

  /** The same, in terms of the requests alone. */
  predicate Ends(requests: seq<Octets>, sends: nat -> bool, failed: bool, n: nat)
    requires n <= |requests| && forall i :: 0 <= i < |requests| ==> |requests[i]| == REQUEST
  {
    || n == |requests| || !sends(n) || failed || (n > 0 && Op(requests[n - 1]) == CLOSE)
    || !WellFormed(requests[n])
  }

  lemma StopsEnds(requests: seq<Octets>, replies: seq<Reply>, sends: nat -> bool, n: nat, sys: System)
    requires n <= |requests| && n < |replies| && forall k :: 0 <= k < |requests| ==> |requests[k]| == REQUEST
    requires forall i :: 0 <= i < n ==> Answer(requests, i, sys) == Some(replies[i + 1])
    ensures Stops(requests, sends, sys, n) <==> Ends(requests, sends, sys.result([]) != 0, n)
  {
    hide After, Answer, WellFormed, Op, Led, Uses;
    AnsweredLeads(requests, replies, n, sys);
  }

  /** The loop over the requests that arrive before the connection ends; replies may fail to be sent. */
  method AnswerAll(requests: seq<Octets>, sends: nat -> bool, sys: System)
    returns (h: Helper, replies: seq<Reply>, failed: bool)
    requires forall i :: 0 <= i < |requests| ==> |requests[i]| == REQUEST
    ensures Orderly(h) && h.calls[0] == Initialize(sys.result([])) && failed == (sys.result([]) != 0)
    ensures 0 < |replies| <= |requests| + 1 && replies[0] == Ready(sys)
    ensures forall i :: 0 < i < |replies| ==> Answer(requests, i - 1, sys) == Some(replies[i])
    ensures Stops(requests, sends, sys, |replies| - 1)
    ensures forall n :: 0 <= n < |replies| - 1 ==> !Stops(requests, sends, sys, n)
    ensures var done := After(requests, |replies| - 1, sys);
      h.calls == done.calls && h.terminated == done.terminated
    ensures h.terminated ==> h.calls[|h.calls| - 1].Terminate?
  {
    hide After, Handle, WellFormed, Terminations, Installs, StatusAfterInstall;
    h := First(sys);
    FirstOrderly(sys);
    AfterNone(requests, sys);
    failed := sys.result([]) != 0;
    replies := [Ready(sys)];
    var n := 0;
    var going := sends(0) && !failed;
    while going && n < |requests|
      invariant n <= |requests| && h == After(requests, n, sys) && Orderly(h)
      invariant h.calls[0] == Initialize(sys.result([]))
      invariant going ==> !Over(h) && |replies| == n + 1 && sends(n)
      invariant 0 < |replies| <= |requests| + 1 && replies[0] == Ready(sys)
      invariant forall i :: 0 < i < |replies| ==> Answer(requests, i - 1, sys) == Some(replies[i])
      invariant !going ==> Stops(requests, sends, sys, |replies| - 1)
      invariant forall i :: 0 <= i < |replies| - 1 ==> !Stops(requests, sends, sys, i)
      invariant var done := After(requests, |replies| - 1, sys);
        h.calls == done.calls && h.terminated == done.terminated
      invariant h.terminated ==> h.calls[|h.calls| - 1].Terminate?
      decreases |requests| - n, going
    {
      AlwaysOrderly(requests, n + 1, sys);
      AfterNext(requests, n, sys);
      if !WellFormed(requests[n]) {
        h := h.(broken := true);
        going := false;
      } else {
        var next := Handle(h, requests[n], sys);
        CallsGrow(h, requests[n], sys);
        replies := replies + [Reply(Op(requests[n]), next.1, sys.pid, sys.rest(next.0.calls))];
        h := next.0;
        going := sends(n + 1) && !h.terminated;
      }
      n := n + 1;
    }
  }

  /** install_helper_serve. */
  method Serve(requests: seq<Octets>, sends: nat -> bool, sys: System)
    returns (calls: seq<Call>, replies: seq<Reply>, failed: bool)
    requires forall i :: 0 <= i < |requests| ==> |requests[i]| == REQUEST
    ensures calls != [] && calls[0] == Initialize(sys.result([])) && failed == (sys.result([]) != 0)
    ensures Terminations(calls) == if failed then 0 else 1
    ensures !failed ==> calls[|calls| - 1].Terminate?
    ensures Installs(calls) <= 1 && StatusAfterInstall(calls)
    ensures 0 < |replies| <= |requests| + 1 && replies[0] == Ready(sys)
    ensures forall i :: 0 < i < |replies| ==> Answer(requests, i - 1, sys) == Some(replies[i])
    ensures Ends(requests, sends, failed, |replies| - 1)
    ensures forall n :: 0 <= n < |replies| - 1 ==> !Ends(requests, sends, failed, n)
    ensures forall i :: 0 <= i < |replies| - 1 ==> Follows(requests, replies, calls, i)
    ensures Native(calls, sys)
    ensures var n := |replies| - 1;
      |calls| == 1 + Led(requests, replies, n) + if failed || (n > 0 && Op(requests[n - 1]) == CLOSE) then 0 else 1
    ensures (exists c :: c in calls && c.InstallByPackage?) <==>
      exists i :: 0 <= i < |replies| - 1 && Op(requests[i]) == INSTALL && Uses(requests, i)
    ensures (exists c :: c in calls && c.RegisterShortcut?) <==>
      exists i :: 0 <= i < |replies| - 1 && Op(requests[i]) == SHORTCUT && Uses(requests, i)
  {
    hide After, Answer, Stops, Ends, WellFormed, Terminations, Installs, StatusAfterInstall, Led, Follows, Uses, Native,
         Op;
    var h;
    h, replies, failed := AnswerAll(requests, sends, sys);
    calls := h.calls;
    forall i | 0 <= i < |replies| - 1
      ensures Answer(requests, i, sys) == Some(replies[i + 1])
    {
      assert 0 < i + 1 < |replies|;
    }
    Lasting(requests, replies, sys);
    if !failed && !h.terminated {
      var v := sys.result(calls);
      OneMore(calls, Terminate(v));
      NativeMore(calls, Terminate(v), sys);
      calls := calls + [Terminate(v)];
    }
    Outcomes(requests, replies, calls, sys);
    OneUse(requests, replies, calls, |replies| - 1);
    forall n: nat | n < |replies|
      ensures Stops(requests, sends, sys, n) <==> Ends(requests, sends, failed, n)
    {
      StopsEnds(requests, replies, sends, n, sys);
    }
  }

  lemma AfterNone(requests: seq<Octets>, sys: System)
    requires forall i :: 0 <= i < |requests| ==> |requests[i]| == REQUEST
    ensures After(requests, 0, sys) == First(sys)
  {
  }

  lemma AfterNext(requests: seq<Octets>, n: nat, sys: System)
    requires n < |requests| && forall i :: 0 <= i < |requests| ==> |requests[i]| == REQUEST
    requires !Over(After(requests, n, sys))
    ensures var h := After(requests, n, sys);
      After(requests, n + 1, sys)
        == if WellFormed(requests[n]) then Handle(h, requests[n], sys).0 else h.(broken := true)
  {
  }

  lemma CallsGrow(h: Helper, r: Octets, sys: System)
    requires |r| == REQUEST && h.calls != []
    ensures var k := Handle(h, r, sys).0;
      k.calls != [] && k.calls[0] == h.calls[0] && k.broken == h.broken
      && (k.terminated && !h.terminated ==> k.calls[|k.calls| - 1].Terminate?)
  {
  }

  // --- the bytes the helper sends ---

  /** The complete requests in a stream of bytes. */
  function Chunks(sent: Octets): (r: seq<Octets>)
    ensures |r| == |sent| / REQUEST && forall i :: 0 <= i < |r| ==> |r[i]| == REQUEST
    decreases |sent|
  {
    if |sent| < REQUEST then [] else [sent[..REQUEST]] + Chunks(sent[REQUEST..])
  }

  /** At most these bytes come from the helper after n requests: READY, then an answer to each. */
  function Stream(requests: seq<Octets>, n: nat, sys: System): Octets
    requires n <= |requests| && (forall i :: 0 <= i < |requests| ==> |requests[i]| == REQUEST) && Sound(sys)
  {
    if n == 0 then
      assert Sendable(Ready(sys));
      Encode(Ready(sys))
    else
      var a := Answer(requests, n - 1, sys);
      AnswerSendable(requests, n - 1, sys);
      Stream(requests, n - 1, sys) + if a.Some? then Encode(a.value) else []
  }

  lemma {:induction false} LeBound(b: Octets)
    ensures FromLe(b) < Pow256(|b|)
  {
    if b != [] {
      LeBound(b[1..]);
    }
  }

  lemma AnswerSendable(requests: seq<Octets>, n: nat, sys: System)
    requires n < |requests| && (forall i :: 0 <= i < |requests| ==> |requests[i]| == REQUEST) && Sound(sys)
    ensures Answer(requests, n, sys).Some? ==> Sendable(Answer(requests, n, sys).value)
  {
    LeBound(requests[n][8..12]);
    assert Pow256(2) == 0x1_0000 && Pow256(4) == TWO_POW_32;
  }

  /** As long as the stream is that long, every reply in it stands at the place of the request it answers. */
  lemma {:induction false} StreamFull(requests: seq<Octets>, n: nat, sys: System)
    requires n <= |requests| && (forall i :: 0 <= i < |requests| ==> |requests[i]| == REQUEST) && Sound(sys)
    ensures |Stream(requests, n, sys)| <= (n + 1) * RESPONSE
    ensures |Stream(requests, n, sys)| == (n + 1) * RESPONSE ==>
      forall i :: 0 <= i < n ==> Answer(requests, i, sys).Some?
  {
    hide Answer, Encode;
    if n > 0 {
      AnswerSendable(requests, n - 1, sys);
      StreamFull(requests, n - 1, sys);
      EncodedSize(requests, n - 1, sys);
    }
  }

  lemma EncodedSize(requests: seq<Octets>, n: nat, sys: System)
    requires n < |requests| && (forall i :: 0 <= i < |requests| ==> |requests[i]| == REQUEST) && Sound(sys)
    ensures var a := Answer(requests, n, sys); a.Some? ==> Sendable(a.value) && |Encode(a.value)| == RESPONSE
  {
    AnswerSendable(requests, n, sys);
  }

  lemma ReplyAt(requests: seq<Octets>, n: nat, sys: System)
    requires n < |requests| && (forall i :: 0 <= i < |requests| ==> |requests[i]| == REQUEST) && Sound(sys)
    requires |Stream(requests, n + 1, sys)| >= (n + 2) * RESPONSE
    ensures Answer(requests, n, sys).Some? && Sendable(Answer(requests, n, sys).value)
    ensures Stream(requests, n + 1, sys)[(n + 1) * RESPONSE..(n + 2) * RESPONSE]
         == Encode(Answer(requests, n, sys).value)
  {
    hide Answer, Encode;
    StreamFull(requests, n, sys);
    EncodedSize(requests, n, sys);
  }

  lemma AnswerTo(requests: seq<Octets>, n: nat, sys: System)
    requires n < |requests| && forall i :: 0 <= i < |requests| ==> |requests[i]| == REQUEST
    ensures var a := Answer(requests, n, sys);
      a.Some? ==> a.value.op == Op(requests[n]) && a.value.pid == sys.pid
  {
  }

  /** After a full stream, one more request brings a whole reply or nothing. */
  lemma StreamNext(requests: seq<Octets>, n: nat, sys: System)
    requires n < |requests| && (forall i :: 0 <= i < |requests| ==> |requests[i]| == REQUEST) && Sound(sys)
    ensures |Stream(requests, n, sys)| <= (n + 1) * RESPONSE
    ensures |Stream(requests, n + 1, sys)|
         == |Stream(requests, n, sys)| + if Answer(requests, n, sys).Some? then RESPONSE else 0
  {
    hide Answer, Encode;
    StreamFull(requests, n, sys);
    EncodedSize(requests, n, sys);
  }

  lemma {:induction false} ChunksMore(sent: Octets, r: Octets)
    requires |sent| % REQUEST == 0 && |r| == REQUEST
    ensures Chunks(sent + r) == Chunks(sent) + [r] && |Chunks(sent)| * REQUEST == |sent|
    decreases |sent|
  {
    if sent == [] {
      assert sent + r == r && r[..REQUEST] == r && r[REQUEST..] == [];
    } else {
      assert (sent + r)[..REQUEST] == sent[..REQUEST] && (sent + r)[REQUEST..] == sent[REQUEST..] + r;
      ChunksMore(sent[REQUEST..], r);
    }
  }

  lemma {:induction false} ChunksPrefix(a: Octets, b: Octets)
    requires a <= b
    ensures Chunks(a) <= Chunks(b)
    decreases |a|
  {
    if |a| >= REQUEST {
      assert a[..REQUEST] == b[..REQUEST];
      ChunksPrefix(a[REQUEST..], b[REQUEST..]);
    }
  }

  lemma {:induction false} AfterPrefix(p: seq<Octets>, q: seq<Octets>, n: nat, sys: System)
    requires n <= |p| && p <= q && forall i :: 0 <= i < |q| ==> |q[i]| == REQUEST
    requires forall i :: 0 <= i < |p| ==> |p[i]| == REQUEST
    ensures After(p, n, sys) == After(q, n, sys)
  {
    hide Handle, WellFormed;
    if n > 0 {
      AfterPrefix(p, q, n - 1, sys);
    }
  }

  lemma {:induction false} StreamPrefix(p: seq<Octets>, q: seq<Octets>, n: nat, m: nat, sys: System)
    requires n <= |p| && n <= m <= |q| && p <= q && (forall i :: 0 <= i < |q| ==> |q[i]| == REQUEST) && Sound(sys)
    requires forall i :: 0 <= i < |p| ==> |p[i]| == REQUEST
    ensures Stream(p, n, sys) <= Stream(q, m, sys)
    decreases m
  {
    hide Encode, Sound, Handle, WellFormed;
    if n < m {
      StreamPrefix(p, q, n, m - 1, sys);
    } else {
      StreamSame(p, q, n, sys);
    }
  }

  lemma {:induction false} StreamSame(p: seq<Octets>, q: seq<Octets>, n: nat, sys: System)
    requires n <= |p| && p <= q && (forall i :: 0 <= i < |q| ==> |q[i]| == REQUEST) && Sound(sys)
    requires forall i :: 0 <= i < |p| ==> |p[i]| == REQUEST
    ensures Stream(p, n, sys) == Stream(q, n, sys)
  {
    hide Encode, Sound, Handle, WellFormed;
    if n > 0 {
      AfterPrefix(p, q, n - 1, sys);
      StreamSame(p, q, n - 1, sys);
    }
  }

  /** The helper never takes bytes back when more requests arrive. */
  lemma IncomingGrows(before: Octets, now: Octets, sys: System)
    requires before <= now && Sound(sys)
    ensures Stream(Chunks(before), |Chunks(before)|, sys) <= Stream(Chunks(now), |Chunks(now)|, sys)
  {
    ChunksPrefix(before, now);
    StreamPrefix(Chunks(before), Chunks(now), |Chunks(before)|, |Chunks(now)|, sys);
  }

  // --- the client ---

  // What one turn of the transfer loop meets.
  datatype Event = CallerCanceled | PollFailed | NothingYet | HungUp | Moved(count: nat) | TransferFailed

  /** How many bytes the events could move before one of them ends the transfer. */
  function Deliverable(events: seq<Event>): nat {
    if events == [] then 0
    else
      match events[0]
      case NothingYet => Deliverable(events[1..])
      case Moved(count) => count + Deliverable(events[1..])
      case _ => 0
  }

  /** What a transfer that is not complete ends with; the deadline comes after the events. */
  function Interruption(events: seq<Event>): (code: int)
    ensures code in {CANCELED, TIMEOUT, DISCONNECTED}
  {
    if events == [] then TIMEOUT
    else
      match events[0]
      case CallerCanceled => CANCELED
      case NothingYet => Interruption(events[1..])
      case Moved(_) => Interruption(events[1..])
      case _ => DISCONNECTED
  }

  predicate GoesOn(e: Event) {
    e.NothingYet? || e.Moved?
  }

  /** The first event that is no progress ends the transfer: with CANCELED if the caller canceled, with DISCONNECTED
    * otherwise; without one the deadline comes. Only what moved before counts. */
  lemma {:induction false} EndedBy(events: seq<Event>, e: Event, later: seq<Event>)
    requires forall i :: 0 <= i < |events| ==> GoesOn(events[i])
    ensures Interruption(events) == TIMEOUT
    ensures !GoesOn(e) ==>
      && Interruption(events + [e] + later) == (if e.CallerCanceled? then CANCELED else DISCONNECTED)
      && Deliverable(events + [e] + later) == Deliverable(events)
    ensures GoesOn(e) ==>
      Deliverable(events + [e]) == Deliverable(events) + if e.Moved? then e.count else 0
  {
    if events == [] {
      assert ([e] + later)[0] == e && [] + [e] + later == [e] + later && [e][1..] == [] && [] + [e] == [e];
    } else {
      assert GoesOn(events[0]);
      assert (events + [e] + later)[1..] == events[1..] + [e] + later;
      assert (events + [e])[1..] == events[1..] + [e];
      EndedBy(events[1..], e, later);
    }
  }

  // A transfer that is complete has no error.
  function Outcome(size: nat, moved: nat, events: seq<Event>): int {
    if moved == size then 0 else Interruption(events)
  }

  /** install_ipc_transfer: the other end has this many bytes to send, or room for them. */
  method Transfer(size: nat, available: nat, events: seq<Event>) returns (code: int, moved: nat)
    ensures moved == Min(size, Min(available, Deliverable(events)))
    ensures code == Outcome(size, moved, events)
  {
    moved := 0;
    var i := 0;
    while moved < size
      invariant moved <= size && moved <= available && i <= |events|
      invariant Min(size, Min(available, Deliverable(events)))
             == moved + Min(size - moved, Min(available - moved, Deliverable(events[i..])))
      invariant Interruption(events) == Interruption(events[i..])
      decreases |events| - i
    {
      if i == |events| {
        return TIMEOUT, moved;
      }
      assert events[i..][0] == events[i] && events[i..][1..] == events[i + 1..];
      match events[i] {
        case CallerCanceled => return CANCELED, moved;
        case PollFailed => return DISCONNECTED, moved;
        case NothingYet =>
        case HungUp => return DISCONNECTED, moved;
        case Moved(count) =>
          // Never more than was asked for, nor than the other end has sent.
          moved := moved + Min(count, Min(size - moved, available - moved));
        case TransferFailed => return DISCONNECTED, moved;
      }
      i := i + 1;
    }
    code := 0;
  }

  /** Would the client accept these bytes as the answer to such a request from such a process? */
  function Accepted(b: Octets, op: nat, pid: int): Option<Reply>
    requires |b| == RESPONSE
  {
    var d := Decode(b);
    if d.Some? && d.value.op == op && d.value.pid == pid then d else None
  }

  // The first reply tells the process id; later ones must repeat it.
  function Learned(b: Octets, op: nat, pid: int): int
    requires |b| == RESPONSE
  {
    if pid <= 0 && op == READY then Word(b, 16) else pid
  }

  class Session {
    var isOpen: bool
    var pid: int
    var usable: bool
    // The helper at the other end, all bytes sent to it, and how many of its bytes were read.
    const sys: System
    var sent: Octets
    var taken: nat

    // Every request has been answered and every answer been read.
    ghost predicate InStep()
      reads this
    {
      |sent| % REQUEST == 0 && taken == (|sent| / REQUEST + 1) * RESPONSE
    }

    ghost predicate Valid()
      reads this
    {
      Sound(sys) && (usable ==> isOpen && InStep() && pid == sys.pid)
    }

    function Incoming(): Octets
      requires Sound(sys)
      reads this
    {
      Stream(Chunks(sent), |Chunks(sent)|, sys)
    }

    constructor (helper: System)
      requires Sound(helper)
      ensures Valid() && !isOpen && !usable && sent == [] && taken == 0 && sys == helper
    {
      isOpen, usable, pid := false, false, -1;
      sys, sent, taken := helper, [], 0;
    }

    /** receive_response; the bytes are those the helper sends, in order. */
    method ReceiveReply(op: nat, events: seq<Event>) returns (ret: int, reply: Option<Reply>)
      requires Sound(sys) && isOpen && taken <= |Incoming()|
      modifies this`usable, this`pid, this`taken
      ensures usable == (old(usable) && reply.Some?)
      ensures taken == old(taken) + Min(RESPONSE, Min(|Incoming()| - old(taken), Deliverable(events)))
      ensures taken < old(taken) + RESPONSE ==>
        reply.None? && ret == Interruption(events) && pid == old(pid)
      ensures taken == old(taken) + RESPONSE ==>
        var message := Incoming()[old(taken)..taken];
        && pid == Learned(message, op, old(pid)) && reply == Accepted(message, op, pid)
        && pid == (if old(pid) <= 0 && op == READY then Word(message, 16) else old(pid))
        && (reply.Some? <==>
              Word(message, 0) == MAGIC && Word(message, 4) == VERSION && Word(message, 8) == op
              && Word(message, 16) == pid)
        && ret == if reply.Some? then reply.value.result else DISCONNECTED
    {
      hide Deliverable;
      reply := None;
      var incoming, start := Incoming(), taken;
      var code, moved := Transfer(RESPONSE, |incoming| - start, events);
      taken := taken + moved;
      if code != 0 {
        usable := false;
        return code, None;
      }
      var message := incoming[start..taken];
      var decoded := Decode(message);
      if pid <= 0 && op == READY {
        pid := Word(message, 16);
      }
      if decoded.None? || decoded.value.op != op || decoded.value.pid != pid {
        usable := false;
        return DISCONNECTED, None;
      }
      reply := decoded;
      ret := decoded.value.result;
    }

    /** exchange: the first eight bytes of the request are magic and version. */
    method Exchange(op: nat, request: Octets, sending: seq<Event>, receiving: seq<Event>)
      returns (ret: int, reply: Option<Reply>)
      requires Valid() && isOpen && taken <= |Incoming()|
      requires |request| == REQUEST && Op(request) == op && op != READY
      modifies this`usable, this`taken, this`sent, this`pid
      ensures Valid() && usable == (old(usable) && reply.Some?) && pid == old(pid) && taken <= |Incoming()|
      ensures sent == old(sent) + request[..Min(REQUEST, Deliverable(sending))]
      ensures reply.Some? ==> sent == old(sent) + request && ret == reply.value.result
      ensures Deliverable(sending) < REQUEST ==> reply.None? && ret == Interruption(sending)
      ensures old(usable) && Deliverable(sending) >= REQUEST ==>
        && |Chunks(sent)| == |Chunks(old(sent))| + 1
        && var answer := Answer(Chunks(sent), |Chunks(old(sent))|, sys);
          && reply == (if Deliverable(receiving) >= RESPONSE then answer else None)
          && (reply.None? ==> ret == Interruption(receiving))
      ensures Deliverable(sending) < REQUEST ==> taken == old(taken)
      ensures Deliverable(sending) >= REQUEST ==>
        && taken == old(taken) + Min(RESPONSE, Min(|Incoming()| - old(taken), Deliverable(receiving)))
        && reply == (if taken < old(taken) + RESPONSE then None
                     else Accepted(Incoming()[old(taken)..old(taken) + RESPONSE], op, pid))
        && (reply.None? ==> ret == if taken < old(taken) + RESPONSE then Interruption(receiving) else DISCONNECTED)
    {
      hide Answer, Encode, Decode, Stream, Chunks, Sound, Deliverable;
      var code, moved := Transfer(REQUEST, REQUEST, sending);
      ghost var before := sent;
      sent := sent + request[..moved];
      IncomingGrows(before, sent, sys);
      if code != 0 {
        usable := false;
        return code, None;
      }
      assert request[..moved] == request;
      ghost var start := taken;
      ret, reply := ReceiveReply(op, receiving);
      if old(usable) {
        ChunksMore(before, request);
        var n := |Chunks(before)|;
        assert Chunks(sent)[n] == request;
        StreamSame(Chunks(before), Chunks(sent), n, sys);
        StreamNext(Chunks(sent), n, sys);
        if taken == start + RESPONSE {
          AnswerTo(Chunks(sent), n, sys);
          ReplyAt(Chunks(sent), n, sys);
          ReplyBack(Answer(Chunks(sent), n, sys).value);
        }
      }
    }

    /** open_service: canceled before or not, and whether the helper process could be started. */
    method Open(canceled: bool, started: bool, receiving: seq<Event>) returns (ret: int)
      requires Valid() && !isOpen && sent == [] && taken == 0
      modifies this
      ensures Valid() && sent == [] && taken <= |Incoming()|
      ensures isOpen == (!canceled && started) && (usable <==> ret == 0)
      ensures canceled ==> ret == CANCELED
      ensures !canceled && !started ==> ret == UNAVAILABLE
      ensures isOpen ==>
        ret == if Deliverable(receiving) < RESPONSE then Interruption(receiving) else sys.result([])
    {
      hide Answer, Encode, Decode, Sound, Deliverable;
      usable := false;
      pid := -1;
      isOpen := false;
      if canceled {
        return CANCELED;
      }
      if !started {
        return UNAVAILABLE;
      }
      isOpen := true;
      ReadyFirst(sys);
      var reply;
      ret, reply := ReceiveReply(READY, receiving);
      if reply.Some? && ret == 0 {
        assert taken == RESPONSE && reply == Some(Ready(sys));
        usable := true;
      }
    }

    /** install_service_start after its argument checks: a fresh helper, and its one installation. */
    method Start(canceled: bool, started: bool, request: Octets,
                 first: seq<Event>, sending: seq<Event>, receiving: seq<Event>)
      returns (ret: int)
      requires Valid() && sent == [] && taken == 0 && |request| == REQUEST && Op(request) == INSTALL
      modifies this
      ensures Valid()
      ensures old(isOpen || pid > 0) ==> ret == UNAVAILABLE && sent == []
      ensures ret == 0 <==>
        && !old(isOpen || pid > 0) && !canceled && started
        && Deliverable(first) >= RESPONSE && sys.result([]) == 0
        && Deliverable(sending) >= REQUEST && Deliverable(receiving) >= RESPONSE
        && WellFormed(request) && sys.result([Initialize(0)]) == 0
      ensures ret == 0 ==> usable && sent == request
      ensures ret == 0 ==>
        Chunks(sent) == [request] && After([request], 1, sys).calls == [Initialize(0), InstallByPackage(0)]
    {
      hide Answer, Encode, Decode, Stream, Sound, Deliverable, WellFormed, After, Chunks;
      FirstInstall(request, sys);
      if isOpen || pid > 0 {
        return UNAVAILABLE;
      }
      ret := Open(canceled, started, first);
      if ret == 0 {
        var reply;
        OneChunk(request);
        assert [] + request[..REQUEST] == request;
        ret, reply := Exchange(INSTALL, request, sending, receiving);
      }
    }

    /** install_service_status: the native result, if the helper's answer to this request was received. */
    method QueryStatus(request: Octets, sending: seq<Event>, receiving: seq<Event>) returns (ret: int, answered: bool)
      requires Valid() && isOpen && taken <= |Incoming()| && |request| == REQUEST && Op(request) == STATUS
      modifies this`usable, this`taken, this`sent, this`pid
      ensures Valid() && usable == (old(usable) && answered) && taken <= |Incoming()|
      ensures old(usable) ==>
        && |Chunks(old(sent) + request)| == |Chunks(old(sent))| + 1
        && var answer := Answer(Chunks(old(sent) + request), |Chunks(old(sent))|, sys);
          && answered ==
            (Deliverable(sending) >= REQUEST && Deliverable(receiving) >= RESPONSE && answer.Some?)
          && (answered ==> sent == old(sent) + request && ret == answer.value.result)
      ensures old(usable) && answered ==>
        && |Chunks(sent)| == |Chunks(old(sent))| + 1
        && var before := After(Chunks(sent), |Chunks(old(sent))|, sys).calls;
          var after := After(Chunks(sent), |Chunks(sent)|, sys).calls;
          if InstallByPackage(0) in before then after == before + [GetStatus(ret)]
          else after == before && ret == UNAVAILABLE
    {
      hide Answer, Encode, Decode, Stream, Sound, Chunks, Deliverable, After;
      if usable {
        ChunksMore(sent, request);
        StatusAnswered(Chunks(sent + request), |Chunks(sent)|, sys);
      }
      assert request[..REQUEST] == request;
      var reply;
      ret, reply := Exchange(STATUS, request, sending, receiving);
      answered := reply.Some?;
    }

    /** install_service_close: CLOSE is exchanged only if every exchange before it succeeded. */
    method Close(request: Octets, sending: seq<Event>, receiving: seq<Event>)
      requires Valid() && (isOpen ==> taken <= |Incoming()|) && |request| == REQUEST && Op(request) == CLOSE
      modifies this
      ensures Valid() && !isOpen && !usable && pid == -1
      ensures sent == if old(usable) then old(sent) + request[..Min(REQUEST, Deliverable(sending))] else old(sent)
    {
      hide Answer, Encode, Decode, Stream, Sound, Chunks, Deliverable;
      if isOpen && usable {
        var ret, reply := Exchange(CLOSE, request, sending, receiving);
      }
      isOpen := false;
      pid := -1;
      usable := false;
    }
  }

  /** A status request asks the system exactly if a package was installed. */
  lemma StatusAnswered(requests: seq<Octets>, n: nat, sys: System)
    requires n < |requests| && (forall i :: 0 <= i < |requests| ==> |requests[i]| == REQUEST)
    requires Op(requests[n]) == STATUS
    ensures var a, h, k := Answer(requests, n, sys), After(requests, n, sys), After(requests, n + 1, sys);
      a.Some? ==>
        if InstallByPackage(0) in h.calls then k.calls == h.calls + [GetStatus(a.value.result)]
        else k.calls == h.calls && a.value.result == UNAVAILABLE
  {
    hide After, WellFormed, Op;
    AlwaysOrderly(requests, n, sys);
    if Answer(requests, n, sys).Some? {
      AfterNext(requests, n, sys);
    }
  }

  /** What the helper makes of an install request that comes first. */
  lemma FirstInstall(request: Octets, sys: System)
    requires |request| == REQUEST && Op(request) == INSTALL && Sound(sys)
    ensures var a, v := Answer([request], 0, sys), sys.result([Initialize(0)]);
      sys.result([]) == 0 ==>
        && (a.Some? <==> WellFormed(request)) && (a.Some? ==> a.value.result == v)
        && (WellFormed(request) ==> After([request], 1, sys).calls == [Initialize(0), InstallByPackage(v)])
  {
    hide Sound, WellFormed, Op;
    AfterNone([request], sys);
    if sys.result([]) == 0 {
      AfterNext([request], 0, sys);
      assert [Initialize(0)] + [InstallByPackage(sys.result([Initialize(0)]))]
        == [Initialize(0), InstallByPackage(sys.result([Initialize(0)]))];
    }
  }

  lemma OneChunk(r: Octets)
    requires |r| == REQUEST
    ensures Chunks([]) == [] && Chunks(r) == [r]
  {
    ChunksMore([], r);
    assert [] + r == r;
  }

  lemma ReadyFirst(sys: System)
    requires Sound(sys)
    ensures Chunks([]) == [] && Sendable(Ready(sys))
    ensures Stream([], 0, sys) == Encode(Ready(sys)) && Decode(Encode(Ready(sys))) == Some(Ready(sys))
    ensures Word(Encode(Ready(sys)), 16) == sys.pid
    ensures Encode(Ready(sys))[0..RESPONSE] == Encode(Ready(sys))
  {
    ReplyBack(Ready(sys));
  }
}

/** Starting installs and counting their bytes, together. */
module InstallStream {
  import opened Wrappers
  import A = StreamAccounting
  import C = InstallControl

  datatype State = State(control: C.State, count: A.State)

  const INITIAL := State(C.INITIAL, A.INITIAL)

  // Steps of both that are one critical section, or a step of one of them.
  datatype Move = Move(control: Option<C.Step>, count: Option<A.Step>)

  // A section that ends the install without a worker: a cancel, or a handover that fails before its commit.
  predicate Stops(c: C.State, step: C.Step) {
    || (step.DoCancel? && c.g.installing && !c.g.direct)
    || (step.Refuse? && step.id in c.actors && c.actors[step.id].Taken?)
  }

  // Sections of the control that are steps of the counting too.
  ghost predicate Touches(c: C.State, step: C.Step) {
    C.Commits(c, step) || step.SetDirect? || step.DoComplete? || step.DoFail? || step.DoDetach? || Stops(c, step)
  }

  // Steps of the counting that are sections of the control too.
  predicate Shared(step: A.Step) {
    || step.Commit? || step.Prepare? || step.FallBack? || step.DirectTurn? || step.Finish? || step.FinishDirect?
    || step.Fail? || step.Detach? || step.Stop?
  }

  /** Are the two the same section? A worker that finishes looks for a queued package in it. */
  ghost predicate Same(c: C.State, control: C.Step, count: A.Step) {
    match count
    case Commit(id, _, direct) => C.Commits(c, control) && control.worker == id && control.direct == direct
    case Prepare(id, direct, _) => control == C.SetDirect(id, direct)
    case FallBack(id, _) => control == C.SetDirect(id, true)
    case DirectTurn(id) => control == C.SetDirect(id, true)
    case Finish(id, pending) => control == C.DoComplete(id) && pending == C.HasPending(c.g)
    case FinishDirect(id, pending) => control == C.DoComplete(id) && pending == C.HasPending(c.g)
    case Fail(id) => control.DoFail? && control.id == id
    case Detach => control.DoDetach?
    case Stop => Stops(c, control)
    case _ => false
  }

  /** Both parts can take their steps, a section of both is taken by both, only a worker at work counts, and it leaves
    * when it is done counting. */
  ghost predicate Possible(s: State, m: Move) {
    && (m.control.Some? ==> C.Next(s.control, m.control.value).Some?)
    && (m.count.Some? ==> A.InTurn(s.count, m.count.value))
    && (m.control.Some? && m.count.Some? ==> Same(s.control, m.control.value, m.count.value))
    && (m.control.Some? && m.count.None? ==> !Touches(s.control, m.control.value))
    && (m.control.None? && m.count.Some? ==> !Shared(m.count.value))
    && (m.count.Some? && A.OfWorker(m.count.value) ==> AtWork(s.control, m.count.value.id))
    && (m.control.Some? && (m.control.value.End? || m.control.value.Quit?) ==>
          DoneCounting(s.count, m.control.value.id))
  }

  predicate AtWork(c: C.State, id: nat) {
    id in c.actors && c.actors[id].Working?
  }

  predicate DoneCounting(a: A.State, id: nat) {
    id in a.workers && a.workers[id].phase.Gone?
  }

  ghost function Next(s: State, m: Move): State
    requires Possible(s, m)
  {
    State(if m.control.Some? then C.Next(s.control, m.control.value).value else s.control,
          if m.count.Some? then A.Apply(s.count, m.count.value) else s.count)
  }

  ghost predicate PossibleRun(s: State, moves: seq<Move>)
    decreases |moves|
  {
    moves != [] ==> Possible(s, moves[0]) && PossibleRun(Next(s, moves[0]), moves[1..])
  }

  function Controls(moves: seq<Move>): seq<C.Step> {
    if moves == [] then []
    else (if moves[0].control.Some? then [moves[0].control.value] else []) + Controls(moves[1..])
  }

  function Counts(moves: seq<Move>): seq<A.Step> {
    if moves == [] then []
    else (if moves[0].count.Some? then [moves[0].count.value] else []) + Counts(moves[1..])
  }

  // --- one status, described twice ---

  // What both say of the status is the same.
  predicate Agree(s: State) {
    && s.control.g.installing == s.count.g.installing
    && s.control.g.direct == s.count.g.direct
    && s.control.g.detach == s.count.g.detach
  }

  predicate SameStatus(c: C.State, d: C.State) {
    d.g.installing == c.g.installing && d.g.direct == c.g.direct && d.g.detach == c.g.detach
  }

  lemma CheckLeaves(c: C.State, id: nat)
    requires id in c.actors && C.CheckStep(c, id, c.actors[id]).Some?
    ensures SameStatus(c, C.CheckStep(c, id, c.actors[id]).value)
  {
  }

  lemma TakeLeaves(c: C.State, id: nat)
    requires id in c.actors && C.TakeStep(c, id, c.actors[id]).Some?
    ensures SameStatus(c, C.TakeStep(c, id, c.actors[id]).value)
  {
  }

  lemma JoinLeaves(c: C.State, id: nat)
    requires id in c.actors && C.JoinStep(c, id, c.actors[id]).Some?
    ensures SameStatus(c, C.JoinStep(c, id, c.actors[id]).value)
  {
    hide C.Alive;
  }

  lemma RefuseLeaves(c: C.State, id: nat)
    requires id in c.actors && C.RefuseStep(c, id, c.actors[id]).Some? && !c.actors[id].Taken?
    ensures SameStatus(c, C.RefuseStep(c, id, c.actors[id]).value)
  {
  }

  lemma CommitLeaves(c: C.State, step: C.Step)
    requires step.DoCommit? && C.Next(c, step).Some? && !C.Commits(c, step)
    ensures SameStatus(c, C.Next(c, step).value)
  {
    hide C.OtherAlive;
  }

  lemma WorkerLeaves(c: C.State, step: C.Step)
    requires (step.End? || step.Quit?) && C.WorkerStep(c, step).Some?
    ensures SameStatus(c, C.WorkerStep(c, step).value)
  {
  }

  lemma ControlLeaves(c: C.State, step: C.Step)
    requires C.Next(c, step).Some? && !Touches(c, step)
    ensures SameStatus(c, C.Next(c, step).value)
  {
    hide C.CommitStep, C.CheckStep, C.TakeStep, C.JoinStep, C.RefuseStep, C.WorkerStep, C.Commits;
    if step.DoCommit? {
      CommitLeaves(c, step);
    } else if step.Check? {
      CheckLeaves(c, step.id);
    } else if step.Take? {
      TakeLeaves(c, step.id);
    } else if step.Join? {
      JoinLeaves(c, step.id);
    } else if step.Refuse? {
      RefuseLeaves(c, step.id);
    } else if C.OfWorker(step) {
      WorkerLeaves(c, step);
    }
  }

  lemma CountLeaves(a: A.State, step: A.Step)
    requires !Shared(step)
    ensures var b := A.Apply(a, step);
      b.g.installing == a.g.installing && b.g.direct == a.g.direct && b.g.detach == a.g.detach
  {
  }

  lemma SharedAgree(s: State, control: C.Step, count: A.Step)
    requires Agree(s) && C.Next(s.control, control).Some? && A.InTurn(s.count, count)
    requires Same(s.control, control, count)
    ensures Agree(State(C.Next(s.control, control).value, A.Apply(s.count, count)))
  {
    hide C.OtherAlive, C.Alive;
  }

  lemma MoveAgrees(s: State, m: Move)
    requires Agree(s) && Possible(s, m)
    ensures Agree(Next(s, m))
  {
    hide C.Next, A.Apply, Same, Touches, Shared, A.InTurn;
    match m
    case Move(Some(control), Some(count)) => SharedAgree(s, control, count);
    case Move(Some(control), None) => ControlLeaves(s.control, control);
    case Move(None, Some(count)) => CountLeaves(s.count, count);
    case _ =>
  }

  ghost function End(s: State, moves: seq<Move>): State
    requires PossibleRun(s, moves)
    decreases |moves|
  {
    if moves == [] then s else End(Next(s, moves[0]), moves[1..])
  }

  /** In every run of both, installing, direct and detached mean the same in both. */
  lemma {:induction false} AlwaysAgree(s: State, moves: seq<Move>)
    requires Agree(s) && PossibleRun(s, moves)
    ensures Agree(End(s, moves))
    decreases |moves|
  {
    hide Agree, Possible, Next;
    if moves != [] {
      MoveAgrees(s, moves[0]);
      AlwaysAgree(Next(s, moves[0]), moves[1..]);
    }
  }

  // --- one worker at a time ---

  // The only worker that may be at work is the one started last, and everyone who counts was started.
  predicate LatestWorks(s: State) {
    && (forall k :: k in s.control.actors && s.control.actors[k].Working? ==> s.count.latest == Some(k))
    && (forall k :: k in s.count.workers ==> k in s.control.actors)
  }

  // No step but a commit puts someone to work, or forgets anyone.
  ghost predicate NoneStarts(c: C.State, d: C.State) {
    && (forall k :: k in c.actors ==> k in d.actors)
    && (forall k :: k in d.actors && d.actors[k].Working? ==> k in c.actors && c.actors[k].Working?)
  }

  lemma NoneStartsUnlessCommit(c: C.State, step: C.Step)
    requires C.Next(c, step).Some? && !C.Commits(c, step)
    ensures NoneStarts(c, C.Next(c, step).value)
  {
    hide C.OtherAlive, C.Alive;
  }

  lemma OneStarts(c: C.State, step: C.Step)
    requires C.Commits(c, step) && C.Next(c, step).Some? && !C.OtherAlive(c.actors, step.id)
    ensures var d := C.Next(c, step).value;
      && (forall k :: k in c.actors ==> k in d.actors) && step.worker in d.actors && step.worker !in c.actors
      && forall k :: k in d.actors && d.actors[k].Working? ==> k == step.worker
  {
    var d := C.Next(c, step).value;
    forall k | k in d.actors && d.actors[k].Working?
      ensures k == step.worker
    {
      assert k in c.actors && k != step.id ==> !C.IsWorker(c.actors[k]);
    }
  }

  /** A step of the counting starts nobody but by a commit. */
  lemma CountedLatest(a: A.State, step: A.Step)
    ensures var b := A.Apply(a, step);
      && (!step.Commit? ==> b.latest == a.latest && b.workers.Keys == a.workers.Keys)
      && (step.Commit? && step.id !in a.workers ==>
            b.latest == Some(step.id) && b.workers.Keys == a.workers.Keys + {step.id})
  {
    hide A.Turn;
  }

  lemma PairedCommits(s: State, m: Move)
    requires Possible(s, m)
    ensures m.count.Some? && m.count.value.Commit? <==> m.control.Some? && C.Commits(s.control, m.control.value)
    ensures m.count.Some? && m.count.value.Commit? ==>
      m.count.value.id == m.control.value.worker && m.count.value.id !in s.count.workers
  {
    hide C.Next;
  }

  lemma MoveLatest(s: State, m: Move)
    requires LatestWorks(s) && Possible(s, m) && C.Held(s.control)
    requires m.control.Some? && C.Commits(s.control, m.control.value) ==> C.Clear(s.control, m.control.value.id)
    ensures LatestWorks(Next(s, m))
    ensures m.count.Some? && A.OfWorker(m.count.value) ==> s.count.latest == Some(m.count.value.id)
  {
    hide C.Next, C.Commits, C.Held, C.Clear, A.Apply, C.OtherAlive;
    PairedCommits(s, m);
    if m.count.Some? {
      CountedLatest(s.count, m.count.value);
    }
    if m.control.Some? {
      if C.Commits(s.control, m.control.value) {
        CommitsReady(s.control, m.control.value);
        C.ClearAlone(s.control, m.control.value.id);
        OneStarts(s.control, m.control.value);
      } else {
        NoneStartsUnlessCommit(s.control, m.control.value);
      }
    }
  }

  lemma CommitsReady(c: C.State, step: C.Step)
    requires C.Commits(c, step)
    ensures step.DoCommit? && step.id in c.actors && (c.actors[step.id].Ready? || c.actors[step.id].Taken?)
  {
  }

  lemma {:induction false} LatestOnly(s: State, moves: seq<Move>)
    requires LatestWorks(s) && PossibleRun(s, moves) && C.Held(s.control)
    requires C.AllClear(s.control, Controls(moves))
    ensures A.OnlyLatest(s.count, Counts(moves))
    decreases |moves|
  {
    hide Possible, LatestWorks, C.Next, C.Commits, C.Held, C.Clear, A.Apply;
    if moves != [] {
      var m := moves[0];
      FirstClear(s, moves);
      MoveLatest(s, m);
      MoveHeld(s, m);
      LatestOnly(Next(s, m), moves[1..]);
      FirstCount(s, moves);
    }
  }

  /** What is clear of the whole run is clear of its first step and of the rest. */
  lemma FirstClear(s: State, moves: seq<Move>)
    requires moves != [] && Possible(s, moves[0]) && C.AllClear(s.control, Controls(moves))
    ensures C.AllClear(Next(s, moves[0]).control, Controls(moves[1..]))
    ensures var m := moves[0];
      m.control.Some? && C.Commits(s.control, m.control.value) ==> C.Clear(s.control, m.control.value.id)
  {
    hide C.Next, C.Commits, C.Clear, A.Apply;
    var m := moves[0];
    if m.control.Some? {
      assert Controls(moves)[0] == m.control.value && Controls(moves)[1..] == Controls(moves[1..]);
    } else {
      assert Controls(moves) == Controls(moves[1..]);
    }
  }

  lemma FirstCount(s: State, moves: seq<Move>)
    requires moves != [] && Possible(s, moves[0]) && A.OnlyLatest(Next(s, moves[0]).count, Counts(moves[1..]))
    requires var m := moves[0];
      m.count.Some? && A.OfWorker(m.count.value) ==> s.count.latest == Some(m.count.value.id)
    ensures A.OnlyLatest(s.count, Counts(moves))
  {
    hide C.Next, C.Commits, A.Apply;
    var m := moves[0];
    if m.count.Some? {
      assert Counts(moves)[0] == m.count.value && Counts(moves)[1..] == Counts(moves[1..]);
    } else {
      assert Counts(moves) == Counts(moves[1..]);
    }
  }

  lemma MoveHeld(s: State, m: Move)
    requires Possible(s, m) && C.Held(s.control)
    requires m.control.Some? && C.Commits(s.control, m.control.value) ==> C.Clear(s.control, m.control.value.id)
    ensures C.Held(Next(s, m).control)
  {
    hide C.Next, C.Commits, C.Held, C.Clear, A.Apply;
    if m.control.Some? {
      C.StepHeld(s.control, m.control.value);
    }
  }

  /** In every interleaving in which each worker has returned before the next one commits, nothing is counted or called
    * playable before it was sent. */
  lemma ClearEarns(moves: seq<Move>)
    requires PossibleRun(INITIAL, moves) && C.AllClear(C.INITIAL, Controls(moves))
    ensures A.AlwaysEarned(A.INITIAL, Counts(moves))
  {
    C.AtTheStart();
    LatestOnly(INITIAL, moves);
    A.NeverTooMuch(Counts(moves));
  }

  /** Where besides the served count does not wrap, the downloaded bytes never pass the served ones. */
  lemma ClearStaysBelow(moves: seq<Move>)
    requires PossibleRun(INITIAL, moves) && C.AllClear(C.INITIAL, Controls(moves))
    requires A.NoWrap(A.INITIAL, Counts(moves))
    ensures A.AlwaysBelow(A.INITIAL, Counts(moves))
  {
    C.AtTheStart();
    LatestOnly(INITIAL, moves);
    A.NeverAhead(Counts(moves));
  }

  // --- a run in which something is called playable too early ---

  lemma {:induction false} OneMove(s: State, moves: seq<Move>, m: Move)
    requires PossibleRun(s, moves) && Possible(End(s, moves), m)
    ensures PossibleRun(s, moves + [m]) && End(s, moves + [m]) == Next(End(s, moves), m)
    decreases |moves|
  {
    hide Possible, Next;
    if moves == [] {
      assert [] + [m] == [m] && [m][1..] == [];
    } else {
      assert (moves + [m])[1..] == moves[1..] + [m];
      OneMove(Next(s, moves[0]), moves[1..], m);
    }
  }

  function Do(n: nat): Option<C.Step>
    requires n < |C.MISLED|
  {
    Some(C.MISLED[n])
  }

  // The run of two batches, the first a direct install that is detached, the second a streamed one: its worker finds
  // the transfer done, the first batch's handover commits, and then that worker finishes.
  const EARLY: seq<Move> :=
    [Move(Do(0), None), Move(Do(1), None), Move(Do(2), None), Move(Do(3), Some(A.Commit(2, 1, true))),
     Move(Some(C.SetDirect(2, true)), Some(A.Prepare(2, true, None))), Move(None, Some(A.Look(2))),
     Move(Do(4), Some(A.FinishDirect(2, true))), Move(Do(5), None), Move(Do(6), None), Move(Do(7), None),
     Move(Do(8), Some(A.Detach)), Move(Do(9), None), Move(Do(10), None), Move(Do(11), None),
     Move(Do(12), Some(A.Commit(4, 5, false))), Move(Some(C.SetDirect(4, false)), Some(A.Prepare(4, false, None))),
     Move(None, Some(A.Serve(5))), Move(None, Some(A.Look(4))), Move(None, Some(A.Adopt(4, 0))),
     Move(None, Some(A.Check(4))), Move(Do(13), Some(A.Commit(5, 7, false))),
     Move(Some(C.DoComplete(4)), Some(A.Finish(4, false)))]

  // The state after the first i moves, n of which are steps of the control's run.
  ghost predicate At(i: nat, n: nat, a: A.State) {
    i <= |EARLY| && n <= |C.MISLED| && PossibleRun(INITIAL, EARLY[..i])
    && End(INITIAL, EARLY[..i]) == State(C.Misled(n), a)
  }

  lemma Moved(i: nat, s: State, m: Move)
    requires i < |EARLY| && EARLY[i] == m && PossibleRun(INITIAL, EARLY[..i]) && End(INITIAL, EARLY[..i]) == s
    requires Possible(s, m)
    ensures PossibleRun(INITIAL, EARLY[..i + 1]) && End(INITIAL, EARLY[..i + 1]) == Next(s, m)
  {
    hide Possible, Next, PossibleRun, End;
    OneMove(INITIAL, EARLY[..i], m);
    assert EARLY[..i + 1] == EARLY[..i] + [m];
  }

  /** The control goes on alone. */
  lemma Controlled(i: nat, n: nat, a: A.State)
    requires At(i, n, a) && i < |EARLY| && n < |C.MISLED| && EARLY[i] == Move(Do(n), None)
    requires n !in {3, 4, 8, 12, 13} && (n == 5 ==> DoneCounting(a, 2))
    ensures At(i + 1, n + 1, a)
  {
    hide C.Misled, C.Next, C.Commits, PossibleRun, End;
    C.MisledNext(n);
    C.MisledCommits(n);
    Moved(i, State(C.Misled(n), a), EARLY[i]);
  }

  /** A step of both. */
  lemma Paired(i: nat, n: nat, a: A.State, count: A.Step)
    requires At(i, n, a) && i < |EARLY| && n < |C.MISLED| && EARLY[i] == Move(Do(n), Some(count))
    requires A.InTurn(a, count) && (count.FinishDirect? <==> n == 4) && (count.Detach? <==> n == 8)
    requires count.Commit? <==> n in {3, 12, 13}
    requires count.Commit? ==> count.id == C.MISLED[n].worker && count.direct == C.MISLED[n].direct
    requires count.FinishDirect? ==> count.id == 2 && count.pending
    requires count.Commit? || count.FinishDirect? || count.Detach?
    ensures At(i + 1, n + 1, A.Apply(a, count))
  {
    hide C.Misled, C.Next, C.Commits, A.Apply, A.InTurn, PossibleRun, End;
    C.MisledNext(n);
    C.MisledCommits(n);
    Moved(i, State(C.Misled(n), a), EARLY[i]);
  }

  /** The counting goes on alone, or with a worker's section that leaves the control as it is. */
  lemma Counted(i: nat, n: nat, a: A.State, count: A.Step)
    requires At(i, n, a) && i < |EARLY| && EARLY[i].count == Some(count) && A.InTurn(a, count)
    requires A.OfWorker(count) ==> AtWork(C.Misled(n), count.id)
    requires if count.Prepare? then
        EARLY[i].control == Some(C.SetDirect(count.id, count.direct)) && C.Misled(n).g.direct == count.direct
      else EARLY[i].control.None? && !Shared(count)
    ensures At(i + 1, n, A.Apply(a, count))
  {
    hide C.Misled, C.Commits, A.Apply, A.InTurn, PossibleRun, End;
    Moved(i, State(C.Misled(n), a), EARLY[i]);
  }

  lemma AtNone()
    ensures At(0, 0, A.INITIAL)
  {
    C.MisledNext(0);
    assert EARLY[..0] == [];
  }

  lemma FirstStarted() returns (a: A.State)
    ensures At(4, 4, a) && a.workers == map[2 := A.NEW_WORKER] && a.g.installing && a.g.direct && !a.g.detach
  {
    hide At, C.Misled;
    AtNone();
    Controlled(0, 0, A.INITIAL);
    Controlled(1, 1, A.INITIAL);
    Controlled(2, 2, A.INITIAL);
    Paired(3, 3, A.INITIAL, A.Commit(2, 1, true));
    a := A.Apply(A.INITIAL, A.Commit(2, 1, true));
  }

  lemma FirstBatch() returns (a: A.State)
    ensures At(7, 5, a) && a.workers.Keys == {2} && DoneCounting(a, 2)
  {
    hide At, C.Misled;
    var a0 := FirstStarted();
    C.MisledCommits(4);
    Counted(4, 4, a0, A.Prepare(2, true, None));
    var a1 := A.Apply(a0, A.Prepare(2, true, None));
    Counted(5, 4, a1, A.Look(2));
    var a2 := A.Apply(a1, A.Look(2));
    Paired(6, 4, a2, A.FinishDirect(2, true));
    a := A.Apply(a2, A.FinishDirect(2, true));
  }

  lemma Detached() returns (a: A.State)
    ensures At(14, 12, a) && a.workers.Keys == {2}
  {
    hide At, C.Misled;
    var a0 := FirstBatch();
    Controlled(7, 5, a0);
    Controlled(8, 6, a0);
    Controlled(9, 7, a0);
    Paired(10, 8, a0, A.Detach);
    a := A.Apply(a0, A.Detach);
    Controlled(11, 9, a);
    Controlled(12, 10, a);
    Controlled(13, 11, a);
  }

  lemma SecondStarted() returns (a: A.State)
    ensures At(16, 13, a) && a.workers.Keys == {2, 4} && a.workers[4] == A.NEW_WORKER.(phase := A.Prepared)
    ensures 0 < a.g.epoch == a.g.reset
    ensures a.g == A.Status(true, false, false, false, 5, 0, 0, 0, a.g.epoch, a.g.reset)
  {
    hide At, C.Misled;
    var a0 := Detached();
    Paired(14, 12, a0, A.Commit(4, 5, false));
    var a1 := A.Apply(a0, A.Commit(4, 5, false));
    C.MisledCommits(13);
    Counted(15, 13, a1, A.Prepare(4, false, None));
    a := A.Apply(a1, A.Prepare(4, false, None));
  }

  lemma SecondDone() returns (a: A.State)
    ensures At(20, 13, a) && a.workers.Keys == {2, 4} && !a.g.detach
    ensures a.workers[4] == A.Worker(A.Watching, false, 5, 5, true, a.g.epoch, a.g.epoch)
  {
    hide At, C.Misled, A.Served;
    var a0 := SecondStarted();
    C.MisledCommits(13);
    Counted(16, 13, a0, A.Serve(5));
    A.ServesFive(a0.g);
    var a1 := A.Apply(a0, A.Serve(5));
    Counted(17, 13, a1, A.Look(4));
    var a2 := A.Apply(a1, A.Look(4));
    Counted(18, 13, a2, A.Adopt(4, 0));
    var a3 := A.Apply(a2, A.Adopt(4, 0));
    Counted(19, 13, a3, A.Check(4));
    a := A.Apply(a3, A.Check(4));
  }

  lemma Overtaken() returns (a: A.State)
    ensures At(21, 14, a) && 4 in a.workers && A.AtEnd(a.workers[4], A.Finish(4, false)) && a.latest == Some(5)
    ensures !a.g.detach && !a.g.direct && a.g.total == 7 && a.g.served == a.g.sent == 0
  {
    hide At, C.Misled;
    var a0 := SecondDone();
    Paired(20, 13, a0, A.Commit(5, 7, false));
    a := A.Apply(a0, A.Commit(5, 7, false));
    assert a.workers[4] == a0.workers[4];
  }

  /** So a package can be called playable before any of its bytes was sent. */
  lemma PlayableTooEarly() returns (s: State)
    ensures PossibleRun(INITIAL, EARLY) && End(INITIAL, EARLY) == s
    ensures var a := s.count;
      && a.g.playable && !a.g.direct && a.g.total == 7 && a.g.downloaded == 7 && a.g.served == a.g.sent == 0
      && a.latest == Some(5)
  {
    hide PossibleRun, End, C.Misled;
    var a := Overtaken();
    C.MisledWorker();
    var last := State(C.Misled(14), a);
    Moved(21, last, EARLY[21]);
    s := Next(last, EARLY[21]);
    assert |EARLY| == 22 && EARLY[..|EARLY|] == EARLY;
  }
}

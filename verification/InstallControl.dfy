/** Starting, queueing, handing over, canceling and detaching installs: critical sections under one lock. */
module InstallControl {
  import opened Wrappers

  // What the lock guards. A queued package's path is empty if there is none; thread is the worker to join.
  datatype Globals = Globals(
    installing: bool, direct: bool, completed: bool, failed: bool, pending: string, detach: bool, batch: bool,
    cancel: bool, running: bool, thread: Option<nat>)

  const IDLE := Globals(false, false, false, false, "", false, false, false, true, None)

  datatype Verdict = Proceed | Busy | Discarded

  // --- the critical sections, as functions ---

  /** The check a start begins with. */
  function FastCheck(g: Globals, handoff: bool): (Globals, Verdict) {
    if handoff && g.detach then (g, Discarded)
    else
      (if g.installing then g else g.(pending := ""), if g.installing && !handoff then Busy else Proceed)
  }

  /** Take over the previous worker; it has to be joined unless it is the one that asks. */
  function TakeOld(g: Globals, self: Option<nat>): (Globals, Option<nat>) {
    (g.(thread := None), if g.thread == self then None else g.thread)
  }

  /** The commit, with the new worker's number. */
  function Commit(g: Globals, handoff: bool, next: string, direct: bool, worker: nat): (Globals, Verdict) {
    if handoff && g.detach then (g, Discarded)
    else if g.installing && !handoff then (g, Busy)
    else
      (g.(installing := true, direct := direct, completed := false, failed := false, pending := next, detach := false,
          batch := next != "", cancel := false, thread := Some(worker)),
       Proceed)
  }

  predicate HasPending(g: Globals) {
    g.pending != "" && !g.cancel && !g.detach && g.running
  }

  function Complete(g: Globals): Globals {
    if g.detach then g
    else if HasPending(g) then g.(installing := true, completed := false)
    else g.(installing := false, completed := true)
  }

  function Fail(g: Globals, dropPending: bool): Globals {
    g.(installing := false, failed := true, pending := if dropPending then "" else g.pending)
  }

  /** The end of a worker: the queued package it takes with it, if any. */
  function Capture(g: Globals): (Globals, string) {
    if HasPending(g) then (g.(pending := ""), g.pending)
    else if g.failed || g.cancel || !g.running || g.detach then (g.(pending := ""), "")
    else (g, "")
  }

  datatype DetachResult = NotInstalling | NotDirect | Detached(skipped: bool)

  function Detach(g: Globals): (Globals, DetachResult) {
    if !g.installing then (g, NotInstalling)
    else if !g.direct then (g, NotDirect)
    else
      (g.(detach := true, batch := false, pending := "", installing := false, completed := false, failed := false),
       Detached(g.batch))
  }

  /** Direct installs cannot be canceled. */
  function Cancel(g: Globals): Globals {
    if !g.installing || g.direct then g
    else g.(cancel := true, pending := "", installing := false, failed := true)
  }

  // --- the program ---

  class Installer {
    var installing: bool
    var direct: bool
    var completed: bool
    var failed: bool
    var pending: string
    var detach: bool
    var batch: bool
    var cancel: bool
    var running: bool
    var thread: Option<nat>

    ghost function Now(): Globals
      reads this
    {
      Globals(installing, direct, completed, failed, pending, detach, batch, cancel, running, thread)
    }

    constructor ()
      ensures Now() == IDLE
    {
      installing, direct, completed, failed, pending := false, false, false, false, "";
      detach, batch, cancel, running, thread := false, false, false, true, None;
    }

    method CheckStart(handoff: bool) returns (v: Verdict)
      modifies this`pending
      ensures (Now(), v) == FastCheck(old(Now()), handoff)
      ensures v == if handoff && detach then Discarded else if installing && !handoff then Busy else Proceed
      ensures pending == if v.Discarded? || installing then old(pending) else ""
      ensures forall next, d, w :: Commit(Now(), handoff, next, d, w).1 == v
      ensures v.Proceed? && !handoff ==> Capture(Now()).1 == ""
    {
      if handoff && detach {
        return Discarded;
      }
      var already := installing;
      if !already {
        pending := "";
      }
      v := if already && !handoff then Busy else Proceed;
    }

    method TakePrevious(self: Option<nat>) returns (join: Option<nat>)
      modifies this`thread
      ensures (Now(), join) == TakeOld(old(Now()), self)
      ensures thread == None && join == if old(thread) == self then None else old(thread)
      ensures TakeOld(Now(), self) == (Now(), None) && (join.Some? ==> join != self)
    {
      join := None;
      if thread.Some? {
        if thread != self {
          join := thread;
        }
        thread := None;
      }
    }

    /** The committing section of a start. */
    method CommitStart(handoff: bool, next: string, isDirect: bool, worker: nat) returns (v: Verdict)
      modifies this
      ensures (Now(), v) == Commit(old(Now()), handoff, next, isDirect, worker)
      ensures !v.Proceed? ==> Now() == old(Now())
      ensures v == if handoff && old(detach) then Discarded else if old(installing) && !handoff then Busy else Proceed
      ensures v.Proceed? ==>
        && installing && direct == isDirect && !completed && !failed && pending == next && !detach && !cancel
        && batch == (next != "") && running == old(running) && thread == Some(worker)
      ensures v.Proceed? ==>
        && (forall n, d, w :: Commit(Now(), false, n, d, w) == (Now(), Busy))
        && Detach(Now()).1 == if isDirect then Detached(next != "") else NotDirect
    {
      if handoff && detach {
        return Discarded;
      }
      if installing && !handoff {
        return Busy;
      }
      detach := false;
      batch := next != "";
      completed, failed := false, false;
      pending := next;
      installing := true;
      direct := isDirect;
      cancel := false;
      thread := Some(worker);
      v := Proceed;
    }

    method CompleteInstall()
      modifies this`installing, this`completed
      ensures Now() == Complete(old(Now()))
      ensures !old(detach) ==> (installing <==> Capture(Now()).1 != "")
      ensures !old(detach) ==> (installing <==> pending != "" && !cancel && running) && completed == !installing
      ensures old(detach) ==> Now() == old(Now())
    {
      if detach {
        return;
      }
      if pending != "" && !cancel && !detach && running {
        installing := true;
        completed := false;
      } else {
        installing := false;
        completed := true;
      }
    }

    /** How a worker reports an error; most of its ways to fail drop the queued package. */
    method FailInstall(dropPending: bool)
      modifies this`installing, this`failed, this`pending
      ensures Now() == Fail(old(Now()), dropPending)
      ensures !installing && failed && pending == if dropPending then "" else old(pending)
      ensures Capture(Now()).1 == if dropPending then "" else Capture(old(Now())).1
    {
      installing, failed := false, true;
      if dropPending {
        pending := "";
      }
    }

    /** The tail of a worker. */
    method CaptureNext() returns (next: string)
      modifies this`pending
      ensures (Now(), next) == Capture(old(Now()))
      ensures next == if running && !cancel && !detach then old(pending) else ""
      ensures pending == if next != "" || failed || cancel || !running || detach then "" else old(pending)
      ensures Capture(Now()).1 == "" && (next != "" ==> FastCheck(Now(), true).1.Proceed?)
    {
      next := "";
      if pending != "" && running && !cancel && !detach {
        next := pending;
        pending := "";
      } else if failed || cancel || !running || detach {
        pending := "";
      }
    }

    /** installer_detach_direct_storage. */
    method DetachDirect() returns (r: DetachResult)
      modifies this
      ensures (Now(), r) == Detach(old(Now()))
      ensures r.Detached? <==> old(installing && direct)
      ensures r.NotInstalling? <==> !old(installing)
      ensures r.Detached? ==>
        && r.skipped == old(batch) && detach && !batch && pending == "" && !installing && !completed && !failed
        && direct && cancel == old(cancel) && running == old(running) && thread == old(thread)
      ensures !r.Detached? ==> Now() == old(Now())
      ensures r.Detached? ==>
        && Capture(Now()).1 == "" && FastCheck(Now(), true).1 == Discarded
        && (forall n, d, w :: Commit(Now(), true, n, d, w) == (Now(), Discarded))
        && (forall n, d, w :: Commit(Now(), false, n, d, w).1 == Proceed)
    {
      if !installing {
        return NotInstalling;
      }
      if !direct {
        return NotDirect;
      }
      r := Detached(batch);
      detach := true;
      batch := false;
      pending := "";
      installing, completed, failed := false, false, false;
    }

    /** installer_cancel. */
    method CancelInstall()
      modifies this
      ensures Now() == Cancel(old(Now()))
      ensures Now() == if old(installing && !direct) then
                         old(Now()).(cancel := true, pending := "", installing := false, failed := true)
                       else old(Now())
      ensures old(installing && !direct) ==>
        && Capture(Now()).1 == "" && FastCheck(Now(), false).1 == Proceed
        && (forall n, d, w :: Commit(Now(), false, n, d, w).1 == Proceed)
    {
      if !installing || direct {
        return;
      }
      cancel := true;
      pending := "";
      installing := false;
      failed := true;
    }
  }

  // --- all interleavings ---

  // Where a start by the user, or a worker, is. A worker that hands over goes through the steps of a start itself.
  datatype Actor =
    | Checking(pkg: string, next: string)
    | Taking(pkg: string, next: string)
    | Joining(pkg: string, next: string, old_: nat)
    | Ready(pkg: string, next: string)
    | Working
    | Captured(next: string, of_: nat)
    | Checked(next: string, of_: nat)
    | Waiting(next: string, of_: nat, old_: nat)
    | Taken(next: string, of_: nat)
    | Gone

  // What happened, for stating properties: batches are numbered by their commits.
  datatype Event =
    | Started(batch: Option<nat>, wasInstalling: bool, othersAlive: bool)
    | HandedOver(of_: nat, othersAlive: bool)
    | Closed(skipped: bool)

  datatype State = State(
    g: Globals, actors: map<nat, Actor>, batches: nat, owner: nat, current: Option<nat>, updated: set<nat>,
    log: seq<Event>)

  const INITIAL := State(IDLE, map[], 0, 0, None, {}, [])

  datatype Step =
    | Begin(id: nat, pkg: string, next: string)
    | Check(id: nat)
    | Take(id: nat)
    | Join(id: nat)
    | Refuse(id: nat)
    | DoCommit(id: nat, direct: bool, worker: nat)
    | SetDirect(id: nat, direct: bool)
    | DoComplete(id: nat)
    | DoFail(id: nat, dropPending: bool)
    | End(id: nat)
    | Quit(id: nat, dropPending: bool)
    | DoDetach
    | DoCancel
    | StopAll
    | DropPending

  predicate IsStart(a: Actor) {
    a.Checking? || a.Taking? || a.Joining? || a.Ready?
  }

  predicate IsHandoff(a: Actor) {
    a.Captured? || a.Checked? || a.Waiting? || a.Taken?
  }

  predicate IsWorker(a: Actor) {
    a.Working? || IsHandoff(a)
  }

  // A worker other than this one that has not returned.
  predicate OtherAlive(actors: map<nat, Actor>, id: nat) {
    exists k :: k in actors && k != id && IsWorker(actors[k])
  }

  function With(s: State, id: nat, a: Actor): State {
    s.(actors := s.actors[id := a])
  }

  function CheckStep(s: State, id: nat, a: Actor): Option<State> {
    match a
    case Checking(pkg, next) =>
      var r := FastCheck(s.g, false);
      Some(With(s.(g := r.0), id, if r.1.Proceed? then Taking(pkg, next) else Gone))
    case Captured(next, of_) =>
      var r := FastCheck(s.g, true);
      Some(With(s.(g := r.0), id, if r.1.Proceed? then Checked(next, of_) else Gone))
    case _ => None
  }

  function TakeStep(s: State, id: nat, a: Actor): Option<State> {
    match a
    case Taking(pkg, next) =>
      var r := TakeOld(s.g, None);
      Some(With(s.(g := r.0), id, if r.1.Some? then Joining(pkg, next, r.1.value) else Ready(pkg, next)))
    case Checked(next, of_) =>
      var r := TakeOld(s.g, Some(id));
      Some(With(s.(g := r.0), id, if r.1.Some? then Waiting(next, of_, r.1.value) else Taken(next, of_)))
    case _ => None
  }

  // Has this worker not returned yet?
  predicate Alive(actors: map<nat, Actor>, w: nat) {
    w in actors && IsWorker(actors[w])
  }

  function JoinStep(s: State, id: nat, a: Actor): Option<State> {
    match a
    case Joining(pkg, next, w) => if Alive(s.actors, w) then None else Some(With(s, id, Ready(pkg, next)))
    case Waiting(next, of_, w) => if Alive(s.actors, w) then None else Some(With(s, id, Taken(next, of_)))
    case _ => None
  }

  function CommitStep(s: State, id: nat, a: Actor, direct: bool, worker: nat): Option<State> {
    if worker in s.actors then None
    else
      match a
      case Ready(pkg, next) =>
        var r := Commit(s.g, false, next, direct, worker);
        if !r.1.Proceed? then Some(With(s, id, Gone))
        else
          var n := s.batches + 1;
          Some(State(r.0, s.actors[id := Gone][worker := Working], if next != "" then n else s.batches,
                     if next != "" then n else s.owner, if next != "" then Some(n) else None, s.updated,
                     s.log + [Started(if next != "" then Some(n) else None, s.g.installing, OtherAlive(s.actors, id))]))
      case Taken(next, of_) =>
        var r := Commit(s.g, true, "", direct, worker);
        if !r.1.Proceed? then Some(With(s, id, Gone))
        else
          Some(State(r.0, s.actors[id := Gone][worker := Working], s.batches, s.owner, s.current, s.updated + {of_},
                     s.log + [HandedOver(of_, OtherAlive(s.actors, id))]))
      case _ => None
  }

  /** A start that fails before its commit; a handover reports that in the status. */
  function RefuseStep(s: State, id: nat, a: Actor): Option<State> {
    if a.Ready? then Some(With(s, id, Gone))
    else if a.Taken? then Some(With(s.(g := Fail(s.g, false)), id, Gone))
    else None
  }

  function EndStep(s: State, id: nat): State {
    var r := Capture(s.g);
    With(s.(g := r.0), id, if r.1 != "" then Captured(r.1, s.owner) else Gone)
  }

  function DetachStep(s: State): State {
    var r := Detach(s.g);
    if r.1.Detached? then s.(g := r.0, current := None, log := s.log + [Closed(r.1.skipped)]) else s
  }

  function WorkerStep(s: State, step: Step): Option<State>
    requires step.SetDirect? || step.DoComplete? || step.DoFail? || step.End? || step.Quit?
  {
    if step.id !in s.actors || !s.actors[step.id].Working? then None
    else
      match step
      case SetDirect(_, d) => Some(s.(g := s.g.(direct := d)))
      case DoComplete(_) => Some(s.(g := Complete(s.g)))
      case DoFail(_, drop) => Some(s.(g := Fail(s.g, drop)))
      case End(id) => Some(EndStep(s, id))
      case Quit(id, drop) => Some(With(s.(g := if drop then s.g.(pending := "") else s.g), id, Gone))
  }

  /** One step of some actor; None if it is not that actor's turn. */
  function Next(s: State, step: Step): Option<State> {
    match step
    case Begin(id, pkg, next) => if id in s.actors then None else Some(With(s, id, Checking(pkg, next)))
    case Check(id) => if id in s.actors then CheckStep(s, id, s.actors[id]) else None
    case Take(id) => if id in s.actors then TakeStep(s, id, s.actors[id]) else None
    case Join(id) => if id in s.actors then JoinStep(s, id, s.actors[id]) else None
    case Refuse(id) => if id in s.actors then RefuseStep(s, id, s.actors[id]) else None
    case DoCommit(id, direct, worker) =>
      if id in s.actors then CommitStep(s, id, s.actors[id], direct, worker) else None
    case SetDirect(_, _) => WorkerStep(s, step)
    case DoComplete(_) => WorkerStep(s, step)
    case DoFail(_, _) => WorkerStep(s, step)
    case End(_) => WorkerStep(s, step)
    case Quit(_, _) => WorkerStep(s, step)
    case DoDetach => Some(DetachStep(s))
    case DoCancel => Some(s.(g := Cancel(s.g)))
    case StopAll => Some(s.(g := s.g.(cancel := true, running := false)))
    case DropPending => Some(s.(g := s.g.(pending := "")))
  }

  /** The states of a run, from s on; None once a step is out of turn. */
  function Run(s: State, steps: seq<Step>): Option<State>
    decreases |steps|
  {
    if steps == [] then Some(s)
    else
      match Next(s, steps[0])
      case None => None
      case Some(t) => Run(t, steps[1..])
  }

  /** Once the program stops, no worker ever takes a queued package along, whatever is started later. */
  lemma {:induction false} StopIsFinal(s: State, steps: seq<Step>)
    requires !s.g.running && Run(s, steps).Some?
    ensures var t := Run(s, steps).value; !t.g.running && Capture(t.g).1 == ""
    decreases |steps|
  {
    hide Next;
    if steps != [] {
      StaysStopped(s, steps[0]);
      StopIsFinal(Next(s, steps[0]).value, steps[1..]);
    }
  }

  lemma StartKeepsRunning(s: State, id: nat, a: Actor)
    ensures CheckStep(s, id, a).Some? ==> CheckStep(s, id, a).value.g.running == s.g.running
    ensures TakeStep(s, id, a).Some? ==> TakeStep(s, id, a).value.g.running == s.g.running
    ensures JoinStep(s, id, a).Some? ==> JoinStep(s, id, a).value.g.running == s.g.running
    ensures RefuseStep(s, id, a).Some? ==> RefuseStep(s, id, a).value.g.running == s.g.running
  {
  }

  lemma CommitKeepsRunning(s: State, id: nat, a: Actor, direct: bool, worker: nat)
    ensures var t := CommitStep(s, id, a, direct, worker); t.Some? ==> t.value.g.running == s.g.running
  {
  }

  lemma WorkerKeepsRunning(s: State, step: Step)
    requires step.SetDirect? || step.DoComplete? || step.DoFail? || step.End? || step.Quit?
    ensures WorkerStep(s, step).Some? ==> WorkerStep(s, step).value.g.running == s.g.running
  {
  }

  lemma StaysStopped(s: State, step: Step)
    requires !s.g.running && Next(s, step).Some?
    ensures !Next(s, step).value.g.running
  {
    hide CheckStep, TakeStep, JoinStep, RefuseStep, CommitStep, WorkerStep;
    if step.DoCommit? && step.id in s.actors {
      CommitKeepsRunning(s, step.id, s.actors[step.id], step.direct, step.worker);
    } else if step.SetDirect? || step.DoComplete? || step.DoFail? || step.End? || step.Quit? {
      WorkerKeepsRunning(s, step);
    } else if (step.Check? || step.Take? || step.Join? || step.Refuse?) && step.id in s.actors {
      StartKeepsRunning(s, step.id, s.actors[step.id]);
    }
  }

  lemma NothingAfterStop(s: State, steps: seq<Step>)
    requires Run(Next(s, StopAll).value, steps).Some?
    ensures Capture(Run(Next(s, StopAll).value, steps).value.g).1 == ""
  {
    hide Run;
    StopIsFinal(Next(s, StopAll).value, steps);
  }

  /** A start that gives up before its commit leaves the queued package; a handover that does says so in the status. */
  lemma RefusalKeepsQueue(s: State, id: nat)
    requires Next(s, Refuse(id)).Some?
    ensures var t := Next(s, Refuse(id)).value;
      && id in s.actors && t.g.pending == s.g.pending && t.actors == s.actors[id := Gone]
      && (s.actors[id].Ready? ==> t.g == s.g)
      && (!s.actors[id].Ready? ==> s.actors[id].Taken? && !t.g.installing && t.g.failed)
  {
  }

  // --- what the log says ---

  /** Is a detach the latest of the starts and detaches? */
  predicate DetachedLast(log: seq<Event>) {
    log != [] && (log[|log| - 1].Closed? || (log[|log| - 1].HandedOver? && DetachedLast(log[..|log| - 1])))
  }

  /** Is the latest commit a batch's start, with no detach since? */
  predicate BatchLast(log: seq<Event>) {
    log != [] && log[|log| - 1].Started? && log[|log| - 1].batch.Some?
  }

  // What every run keeps in the log: what each event may say, given what was before it.
  ghost predicate Lawful(log: seq<Event>) {
    forall i :: 0 <= i < |log| ==>
      match log[i]
      case Started(_, wasInstalling, _) => !wasInstalling
      case HandedOver(_, _) => !DetachedLast(log[..i])
      case Closed(skipped) => skipped == BatchLast(log[..i])
  }

  ghost predicate Logged(s: State) {
    Lawful(s.log) && s.g.detach == DetachedLast(s.log) && s.g.batch == BatchLast(s.log)
  }

  lemma LawfulMore(log: seq<Event>, e: Event)
    requires Lawful(log)
    requires match e
             case Started(_, wasInstalling, _) => !wasInstalling
             case HandedOver(_, _) => !DetachedLast(log)
             case Closed(skipped) => skipped == BatchLast(log)
    ensures Lawful(log + [e])
    ensures DetachedLast(log + [e]) == (e.Closed? || (e.HandedOver? && DetachedLast(log)))
    ensures BatchLast(log + [e]) == (e.Started? && e.batch.Some?)
  {
    var more := log + [e];
    assert more[..|log|] == log;
    forall i | 0 <= i < |log|
      ensures more[i] == log[i] && more[..i] == log[..i]
    {
    }
  }

  // What every step does that neither commits nor detaches: at most actor id changes, a captured update being the
  // queued one, and the queue may be emptied.
  ghost predicate Quiet(s: State, t: State, id: nat) {
    && t.log == s.log && t.batches == s.batches && t.owner == s.owner && t.current == s.current
    && t.updated == s.updated && t.g.detach == s.g.detach && t.g.batch == s.g.batch
    && (t.g.pending == s.g.pending || t.g.pending == "")
    && (forall k :: k in t.actors && k != id ==> k in s.actors && t.actors[k] == s.actors[k])
    && (id in t.actors && IsHandoff(t.actors[id]) ==>
          (id in s.actors && IsHandoff(s.actors[id]) && t.actors[id].of_ == s.actors[id].of_)
          || (s.g.pending != "" && t.actors[id].of_ == s.owner))
  }

  lemma CheckQuiet(s: State, id: nat)
    requires id in s.actors && CheckStep(s, id, s.actors[id]).Some?
    ensures Quiet(s, CheckStep(s, id, s.actors[id]).value, id)
  {
  }

  lemma TakeQuiet(s: State, id: nat)
    requires id in s.actors && TakeStep(s, id, s.actors[id]).Some?
    ensures Quiet(s, TakeStep(s, id, s.actors[id]).value, id)
  {
  }

  lemma JoinQuiet(s: State, id: nat)
    requires id in s.actors && JoinStep(s, id, s.actors[id]).Some?
    ensures Quiet(s, JoinStep(s, id, s.actors[id]).value, id)
  {
  }

  lemma RefuseQuiet(s: State, id: nat)
    requires id in s.actors && RefuseStep(s, id, s.actors[id]).Some?
    ensures Quiet(s, RefuseStep(s, id, s.actors[id]).value, id)
  {
  }

  predicate OfWorker(step: Step) {
    step.SetDirect? || step.DoComplete? || step.DoFail? || step.End? || step.Quit?
  }

  lemma WorkerQuiet(s: State, step: Step)
    requires OfWorker(step) && WorkerStep(s, step).Some?
    ensures Quiet(s, WorkerStep(s, step).value, step.id)
  {
  }

  function ActorOf(step: Step): nat {
    if step.DoDetach? || step.DoCancel? || step.StopAll? || step.DropPending? then 0 else step.id
  }

  lemma QuietStep(s: State, step: Step)
    requires Next(s, step).Some? && !step.DoCommit? && !step.DoDetach?
    ensures Quiet(s, Next(s, step).value, ActorOf(step))
  {
    hide CheckStep, TakeStep, JoinStep, RefuseStep, WorkerStep;
    if step.Check? {
      CheckQuiet(s, step.id);
    } else if step.Take? {
      TakeQuiet(s, step.id);
    } else if step.Join? {
      JoinQuiet(s, step.id);
    } else if step.Refuse? {
      RefuseQuiet(s, step.id);
    } else if OfWorker(step) {
      WorkerQuiet(s, step);
    }
  }

  lemma CommitLogged(s: State, id: nat, a: Actor, direct: bool, worker: nat)
    requires Logged(s) && CommitStep(s, id, a, direct, worker).Some?
    ensures Logged(CommitStep(s, id, a, direct, worker).value)
  {
    hide Lawful, DetachedLast, BatchLast, OtherAlive;
    var t := CommitStep(s, id, a, direct, worker).value;
    if t.log != s.log {
      LawfulMore(s.log, t.log[|s.log|]);
      assert t.log == s.log + [t.log[|s.log|]];
    }
  }

  lemma DetachLogged(s: State)
    requires Logged(s)
    ensures Logged(DetachStep(s))
  {
    hide Lawful, DetachedLast, BatchLast;
    if Detach(s.g).1.Detached? {
      LawfulMore(s.log, Closed(s.g.batch));
    }
  }

  lemma StepLogged(s: State, step: Step)
    requires Logged(s) && Next(s, step).Some?
    ensures Logged(Next(s, step).value)
  {
    hide Lawful, DetachedLast, BatchLast, CommitStep, DetachStep, CheckStep, TakeStep, JoinStep, RefuseStep, WorkerStep;
    if step.DoCommit? {
      CommitLogged(s, step.id, s.actors[step.id], step.direct, step.worker);
    } else if step.DoDetach? {
      DetachLogged(s);
    } else {
      QuietStep(s, step);
    }
  }

  /** In every interleaving: no start of the user commits while an install is active, no queued update commits
    * between a detach and the next committed start, and a detach reports a skipped update exactly when the latest
    * commit was a batch's. */
  lemma {:induction false} EveryRun(s: State, steps: seq<Step>)
    requires Logged(s) && Run(s, steps).Some?
    ensures Logged(Run(s, steps).value)
    decreases |steps|
  {
    hide Logged, Next;
    if steps != [] {
      StepLogged(s, steps[0]);
      EveryRun(Next(s, steps[0]).value, steps[1..]);
    }
  }

  // --- which update a detach reports ---

  // The flag says whether the current batch's update is still to be committed.
  predicate Exact(s: State) {
    s.g.batch <==> s.current.Some? && s.current.value !in s.updated
  }

  // Numbers refer to batches that were committed; a queued update, and one being handed over, is the current batch's.
  predicate Owned(s: State) {
    && s.owner <= s.batches && (s.current.Some? ==> s.current.value <= s.batches)
    && (forall n :: n in s.updated ==> n <= s.batches)
    && (s.g.pending != "" ==> s.current == Some(s.owner))
    && (forall k :: k in s.actors && IsHandoff(s.actors[k]) ==> s.actors[k].of_ <= s.batches)
  }

  predicate HandsCurrent(s: State) {
    forall k :: k in s.actors && IsHandoff(s.actors[k]) ==>
      s.current.None? || s.current.value == s.actors[k].of_ || s.current.value in s.updated
  }

  lemma OwnedCommit(s: State, id: nat, a: Actor, direct: bool, worker: nat)
    requires Owned(s) && id in s.actors && s.actors[id] == a && CommitStep(s, id, a, direct, worker).Some?
    ensures Owned(CommitStep(s, id, a, direct, worker).value)
  {
    hide OtherAlive;
  }

  lemma QuietKeeps(s: State, t: State, id: nat)
    requires Owned(s) && Quiet(s, t, id)
    ensures Owned(t) && (HandsCurrent(s) ==> HandsCurrent(t))
  {
  }

  lemma StepOwned(s: State, step: Step)
    requires Owned(s) && Next(s, step).Some?
    ensures Owned(Next(s, step).value)
  {
    hide CommitStep, CheckStep, TakeStep, JoinStep, RefuseStep, WorkerStep;
    if step.DoCommit? {
      OwnedCommit(s, step.id, s.actors[step.id], step.direct, step.worker);
    } else if !step.DoDetach? {
      QuietStep(s, step);
      QuietKeeps(s, Next(s, step).value, ActorOf(step));
    }
  }

  /** Exactly when the handed-over update is the current batch's, or there is none outstanding, the flag stays right. */
  lemma HandoverExact(s: State, id: nat, direct: bool, worker: nat)
    requires Owned(s) && Exact(s) && id in s.actors && s.actors[id].Taken? && !s.g.detach && worker !in s.actors
    ensures Exact(CommitStep(s, id, s.actors[id], direct, worker).value)
       <==> s.current.None? || s.current.value == s.actors[id].of_ || s.current.value in s.updated
  {
    hide OtherAlive;
  }

  /** May this step be taken without making the flag wrong? A handover that commits must bring the update of the
    * current batch, unless there is none outstanding. */
  predicate HandsRight(s: State, step: Step) {
    step.DoCommit? && step.id in s.actors && s.actors[step.id].Taken? && !s.g.detach && step.worker !in s.actors ==>
      s.current.None? || s.current.value == s.actors[step.id].of_ || s.current.value in s.updated
  }

  lemma StartExact(s: State, id: nat, direct: bool, worker: nat)
    requires Owned(s) && Exact(s) && id in s.actors && s.actors[id].Ready?
    requires CommitStep(s, id, s.actors[id], direct, worker).Some?
    ensures Exact(CommitStep(s, id, s.actors[id], direct, worker).value)
  {
    hide OtherAlive;
  }

  lemma StepExactly(s: State, step: Step)
    requires Owned(s) && Exact(s) && Next(s, step).Some?
    ensures Exact(Next(s, step).value) <==> HandsRight(s, step)
  {
    hide CheckStep, TakeStep, JoinStep, RefuseStep, WorkerStep, Owned;
    if step.DoCommit? {
      if s.actors[step.id].Ready? {
        StartExact(s, step.id, step.direct, step.worker);
      } else if !s.g.detach {
        HandoverExact(s, step.id, step.direct, step.worker);
      }
    } else if !step.DoDetach? {
      QuietStep(s, step);
    }
  }

  ghost predicate AlwaysExact(s: State, steps: seq<Step>)
    decreases |steps|
  {
    Exact(s) && (steps != [] && Next(s, steps[0]).Some? ==> AlwaysExact(Next(s, steps[0]).value, steps[1..]))
  }

  ghost predicate AllHandRight(s: State, steps: seq<Step>)
    decreases |steps|
  {
    steps != [] && Next(s, steps[0]).Some? ==>
      HandsRight(s, steps[0]) && AllHandRight(Next(s, steps[0]).value, steps[1..])
  }

  /** In every interleaving: what a detach would report is right at every moment of a run exactly if each handover
    * that commits in it brings the update of the current batch, or comes when none is outstanding. */
  lemma {:induction false} ReportExactly(s: State, steps: seq<Step>)
    requires Owned(s) && Exact(s) && Run(s, steps).Some?
    ensures AlwaysExact(s, steps) <==> AllHandRight(s, steps)
    decreases |steps|
  {
    hide Owned, Exact, HandsRight, Next;
    if steps != [] {
      StepOwned(s, steps[0]);
      StepExactly(s, steps[0]);
      if HandsRight(s, steps[0]) {
        ReportExactly(Next(s, steps[0]).value, steps[1..]);
      }
    }
  }

  // The caller's part: a start is not committed while a finished worker is handing over.
  predicate Orderly(s: State, step: Step) {
    step.DoCommit? && step.id in s.actors && s.actors[step.id].Ready? ==>
      forall k :: k in s.actors ==> !IsHandoff(s.actors[k])
  }

  ghost predicate OrderlyRun(s: State, steps: seq<Step>)
    decreases |steps|
  {
    steps == []
    || (Orderly(s, steps[0]) && (Next(s, steps[0]).Some? ==> OrderlyRun(Next(s, steps[0]).value, steps[1..])))
  }

  lemma CommitHands(s: State, id: nat, direct: bool, worker: nat)
    requires Owned(s) && HandsCurrent(s) && id in s.actors && CommitStep(s, id, s.actors[id], direct, worker).Some?
    requires s.actors[id].Ready? ==> forall k :: k in s.actors ==> !IsHandoff(s.actors[k])
    ensures HandsCurrent(CommitStep(s, id, s.actors[id], direct, worker).value)
  {
    hide OtherAlive;
  }

  lemma StepHands(s: State, step: Step)
    requires Owned(s) && HandsCurrent(s) && Orderly(s, step) && Next(s, step).Some?
    ensures HandsCurrent(Next(s, step).value) && HandsRight(s, step)
  {
    hide CommitStep, CheckStep, TakeStep, JoinStep, RefuseStep, WorkerStep;
    if step.DoCommit? {
      CommitHands(s, step.id, step.direct, step.worker);
    } else if !step.DoDetach? {
      QuietStep(s, step);
      QuietKeeps(s, Next(s, step).value, ActorOf(step));
    }
  }

  /** So it is in every run in which no start commits during a handover. */
  lemma {:induction false} OrderlyHandsRight(s: State, steps: seq<Step>)
    requires Owned(s) && HandsCurrent(s) && OrderlyRun(s, steps)
    ensures AllHandRight(s, steps)
    decreases |steps|
  {
    hide Owned, HandsCurrent, HandsRight, Next, Orderly;
    if steps != [] && Next(s, steps[0]).Some? {
      StepOwned(s, steps[0]);
      StepHands(s, steps[0]);
      OrderlyHandsRight(Next(s, steps[0]).value, steps[1..]);
    }
  }

  // --- one worker at a time ---

  predicate WaitsFor(a: Actor, w: nat) {
    (a.Joining? || a.Waiting?) && a.old_ == w
  }

  // Someone is going to wait for this worker before committing, or it is itself about to commit.
  predicate Awaited(s: State, w: nat)
    requires w in s.actors
  {
    s.g.thread == Some(w) || s.actors[w].Taken? || exists u :: u in s.actors && WaitsFor(s.actors[u], w)
  }

  predicate Held(s: State) {
    forall w :: w in s.actors && IsWorker(s.actors[w]) ==> Awaited(s, w)
  }

  // Does this step commit a start or a handover?
  predicate Commits(s: State, step: Step) {
    && step.DoCommit? && step.id in s.actors && step.worker !in s.actors
    && ((s.actors[step.id].Ready? && !s.g.installing) || (s.actors[step.id].Taken? && !s.g.detach))
  }

  /** Nobody else is between taking over a worker and committing, unless its worker has returned, and the worker to
    * be joined is this one, has returned, or was taken over. */
  predicate Clear(s: State, id: nat) {
    && (s.g.thread.Some? && s.g.thread.value != id ==> !Alive(s.actors, s.g.thread.value))
    && (forall u :: u in s.actors && u != id ==> !s.actors[u].Taken?)
    && (forall u :: u in s.actors && u != id && (s.actors[u].Joining? || s.actors[u].Waiting?) ==>
          s.actors[u].old_ == id || !Alive(s.actors, s.actors[u].old_))
  }

  // No commit found another worker that had not returned.
  predicate Alone(log: seq<Event>) {
    forall i :: 0 <= i < |log| ==>
      && (log[i].Started? ==> !log[i].othersAlive)
      && (log[i].HandedOver? ==> !log[i].othersAlive)
  }

  lemma ClearAlone(s: State, id: nat)
    requires Held(s) && id in s.actors && (s.actors[id].Ready? || s.actors[id].Taken?)
    ensures Clear(s, id) <==> !OtherAlive(s.actors, id)
  {
    forall k | k in s.actors && k != id && IsWorker(s.actors[k])
      ensures !Clear(s, id)
    {
      assert Awaited(s, k) && Alive(s.actors, k);
    }
  }

  lemma CommitHeld(s: State, id: nat, direct: bool, worker: nat)
    requires Held(s) && id in s.actors && CommitStep(s, id, s.actors[id], direct, worker).Some?
    requires Commits(s, DoCommit(id, direct, worker)) ==> Clear(s, id)
    ensures Held(CommitStep(s, id, s.actors[id], direct, worker).value)
  {
    hide Held;
    var t := CommitStep(s, id, s.actors[id], direct, worker).value;
    if Commits(s, DoCommit(id, direct, worker)) {
      ClearAlone(s, id);
      OnlyHeld(s, t, id, worker);
    } else {
      FallsHeld(s, t, id);
    }
  }

  lemma OnlyHeld(s: State, t: State, id: nat, worker: nat)
    requires !OtherAlive(s.actors, id) && t.actors == s.actors[id := Gone][worker := Working]
    requires t.g.thread == Some(worker)
    ensures Held(t)
  {
    forall w | w in t.actors && IsWorker(t.actors[w])
      ensures w == worker
    {
    }
  }

  lemma TakeHeld(s: State, id: nat)
    requires Held(s) && id in s.actors && TakeStep(s, id, s.actors[id]).Some?
    ensures Held(TakeStep(s, id, s.actors[id]).value)
  {
    var t := TakeStep(s, id, s.actors[id]).value;
    forall w | w in t.actors && IsWorker(t.actors[w])
      ensures Awaited(t, w)
    {
      assert Awaited(s, w);
      assert s.g.thread == Some(w) ==> t.actors[w].Taken? || WaitsFor(t.actors[id], w);
      assert forall u :: u in s.actors && WaitsFor(s.actors[u], w) ==> t.actors[u] == s.actors[u];
    }
  }

  lemma JoinHeld(s: State, id: nat)
    requires Held(s) && id in s.actors && JoinStep(s, id, s.actors[id]).Some?
    ensures Held(JoinStep(s, id, s.actors[id]).value)
  {
    var t := JoinStep(s, id, s.actors[id]).value;
    forall w | w in t.actors && IsWorker(t.actors[w])
      ensures Awaited(t, w)
    {
      assert Awaited(s, w);
      assert forall u :: u in s.actors && u != id ==> t.actors[u] == s.actors[u];
    }
  }

  // Steps that leave the worker to join alone, and at most let actor id fall back or return.
  ghost predicate Falls(s: State, t: State, id: nat) {
    && t.g.thread == s.g.thread
    && (forall k :: k in s.actors ==> k in t.actors)
    && (forall k :: k in t.actors && k != id ==> k in s.actors && t.actors[k] == s.actors[k])
    && (id in t.actors ==>
          || (id in s.actors && t.actors[id] == s.actors[id])
          || (!IsWorker(t.actors[id]) && !t.actors[id].Joining?)
          || (id in s.actors && IsWorker(s.actors[id]) && !s.actors[id].Taken? && !t.actors[id].Taken?
              && !t.actors[id].Waiting?))
    && (id in s.actors && (s.actors[id].Joining? || s.actors[id].Waiting?) ==> t.actors[id] == s.actors[id])
  }

  lemma FallsHeld(s: State, t: State, id: nat)
    requires Held(s) && Falls(s, t, id)
    ensures Held(t)
  {
    forall w | w in t.actors && IsWorker(t.actors[w])
      ensures Awaited(t, w)
    {
      assert Awaited(s, w);
    }
  }

  lemma CheckFalls(s: State, id: nat)
    requires id in s.actors && CheckStep(s, id, s.actors[id]).Some?
    ensures Falls(s, CheckStep(s, id, s.actors[id]).value, id)
  {
  }

  lemma RefuseFalls(s: State, id: nat)
    requires id in s.actors && RefuseStep(s, id, s.actors[id]).Some?
    ensures Falls(s, RefuseStep(s, id, s.actors[id]).value, id)
  {
  }

  lemma WorkerFalls(s: State, step: Step)
    requires OfWorker(step) && WorkerStep(s, step).Some?
    ensures Falls(s, WorkerStep(s, step).value, step.id)
  {
  }

  lemma StepHeld(s: State, step: Step)
    requires Held(s) && Next(s, step).Some? && (Commits(s, step) ==> Clear(s, step.id))
    ensures Held(Next(s, step).value)
  {
    hide CommitStep, CheckStep, TakeStep, JoinStep, RefuseStep, WorkerStep, Held, Commits, Clear;
    if step.DoCommit? {
      CommitHeld(s, step.id, step.direct, step.worker);
    } else if step.Take? {
      TakeHeld(s, step.id);
    } else if step.Join? {
      JoinHeld(s, step.id);
    } else {
      if step.Check? {
        CheckFalls(s, step.id);
      } else if step.Refuse? {
        RefuseFalls(s, step.id);
      } else if OfWorker(step) {
        WorkerFalls(s, step);
      }
      FallsHeld(s, Next(s, step).value, ActorOf(step));
    }
  }

  lemma AloneMore(log: seq<Event>, e: Event)
    requires Alone(log) && !e.Closed?
    ensures Alone(log + [e]) <==> !e.othersAlive
  {
    var more := log + [e];
    assert forall i :: 0 <= i < |log| ==> more[i] == log[i];
    assert more[|log|] == e;
  }

  lemma CommitLog(s: State, step: Step) returns (e: Event)
    requires Commits(s, step)
    ensures Next(s, step).Some? && Next(s, step).value.log == s.log + [e]
    ensures !e.Closed? && e.othersAlive == OtherAlive(s.actors, step.id)
  {
    hide OtherAlive;
    var log := Next(s, step).value.log;
    e := log[|s.log|];
  }

  lemma StepAlone(s: State, step: Step)
    requires Held(s) && Alone(s.log) && Next(s, step).Some?
    ensures Alone(Next(s, step).value.log) <==> (Commits(s, step) ==> Clear(s, step.id))
  {
    hide CheckStep, TakeStep, JoinStep, RefuseStep, WorkerStep, Held, OtherAlive, Clear, Alone;
    if Commits(s, step) {
      var e := CommitLog(s, step);
      AloneMore(s.log, e);
      ClearAlone(s, step.id);
    } else if step.DoDetach? {
      ClosedAlone(s.log, s.g.batch);
    } else if !step.DoCommit? {
      QuietStep(s, step);
    }
  }

  lemma ClosedAlone(log: seq<Event>, skipped: bool)
    requires Alone(log)
    ensures Alone(log + [Closed(skipped)])
  {
  }

  lemma StepLog(s: State, step: Step)
    requires Next(s, step).Some?
    ensures s.log <= Next(s, step).value.log
  {
    hide CheckStep, TakeStep, JoinStep, RefuseStep, WorkerStep, OtherAlive;
    if !step.DoCommit? && !step.DoDetach? {
      QuietStep(s, step);
    }
  }

  lemma {:induction false} StaysCrowded(s: State, steps: seq<Step>)
    requires !Alone(s.log) && Run(s, steps).Some?
    ensures !Alone(Run(s, steps).value.log)
    decreases |steps|
  {
    hide Next;
    if steps != [] {
      var t := Next(s, steps[0]).value;
      StepLog(s, steps[0]);
      assert forall i :: 0 <= i < |s.log| ==> t.log[i] == s.log[i];
      StaysCrowded(t, steps[1..]);
    }
  }

  ghost predicate AllClear(s: State, steps: seq<Step>)
    decreases |steps|
  {
    steps != [] && Next(s, steps[0]).Some? ==>
      (Commits(s, steps[0]) ==> Clear(s, steps[0].id)) && AllClear(Next(s, steps[0]).value, steps[1..])
  }

  /** In every interleaving: each worker has returned before the next one commits, exactly if at every commit nobody
    * else is on the way from taking over a live worker to committing. */
  lemma {:induction false} OneWorker(s: State, steps: seq<Step>)
    requires Held(s) && Alone(s.log) && Run(s, steps).Some?
    ensures Alone(Run(s, steps).value.log) <==> AllClear(s, steps)
    decreases |steps|
  {
    hide Held, Alone, Next, Commits, Clear;
    if steps != [] {
      var t := Next(s, steps[0]).value;
      StepAlone(s, steps[0]);
      if Alone(t.log) {
        StepHeld(s, steps[0]);
        OneWorker(t, steps[1..]);
      } else {
        StaysCrowded(t, steps[1..]);
      }
    }
  }

  predicate Underway(a: Actor) {
    IsStart(a) || IsHandoff(a)
  }

  // The caller's part: starts, and handovers with them, do not overlap.
  predicate Serial(s: State) {
    forall a, b :: a in s.actors && b in s.actors && a != b ==> !(Underway(s.actors[a]) && Underway(s.actors[b]))
  }

  predicate PastTaking(a: Actor) {
    a.Joining? || a.Ready? || a.Waiting? || a.Taken?
  }

  // Whoever is past taking over the previous worker has left no other to be joined.
  predicate Emptied(s: State) {
    forall u :: u in s.actors && PastTaking(s.actors[u]) ==> s.g.thread == None
  }

  lemma CommitEmptied(s: State, id: nat, direct: bool, worker: nat)
    requires Emptied(s) && Serial(s) && id in s.actors && CommitStep(s, id, s.actors[id], direct, worker).Some?
    ensures Emptied(CommitStep(s, id, s.actors[id], direct, worker).value)
  {
    hide OtherAlive;
    assert Underway(s.actors[id]);
    assert forall u :: u in s.actors && u != id ==> !Underway(s.actors[u]);
  }

  // Steps after which nobody else is past taking over.
  ghost predicate Stands(s: State, t: State, id: nat) {
    && t.g.thread == s.g.thread
    && (forall k :: k in t.actors && k != id ==> k in s.actors && t.actors[k] == s.actors[k])
    && (id in t.actors && PastTaking(t.actors[id]) ==> id in s.actors && PastTaking(s.actors[id]))
  }

  lemma WorkerStands(s: State, step: Step)
    requires OfWorker(step) && WorkerStep(s, step).Some?
    ensures Stands(s, WorkerStep(s, step).value, step.id)
  {
  }

  lemma StepEmptied(s: State, step: Step)
    requires Emptied(s) && Serial(s) && Next(s, step).Some?
    ensures Emptied(Next(s, step).value)
  {
    hide OtherAlive, Alive, CommitStep, WorkerStep, Serial, Emptied;
    if step.DoCommit? {
      CommitEmptied(s, step.id, step.direct, step.worker);
    } else if step.Take? {
      TakeEmptied(s, step.id);
    } else {
      if OfWorker(step) {
        WorkerStands(s, step);
      }
      StandsEmptied(s, Next(s, step).value, ActorOf(step));
    }
  }

  lemma TakeEmptied(s: State, id: nat)
    requires id in s.actors && TakeStep(s, id, s.actors[id]).Some?
    ensures Emptied(TakeStep(s, id, s.actors[id]).value)
  {
  }

  lemma StandsEmptied(s: State, t: State, id: nat)
    requires Emptied(s) && Stands(s, t, id)
    ensures Emptied(t)
  {
  }

  lemma SerialClear(s: State, step: Step)
    requires Emptied(s) && Serial(s) && Commits(s, step)
    ensures Clear(s, step.id)
  {
    assert Underway(s.actors[step.id]);
    assert forall u :: u in s.actors && u != step.id ==> !Underway(s.actors[u]);
  }

  ghost predicate SerialRun(s: State, steps: seq<Step>)
    decreases |steps|
  {
    Serial(s) && (steps != [] && Next(s, steps[0]).Some? ==> SerialRun(Next(s, steps[0]).value, steps[1..]))
  }

  /** So it is in every run in which starts and handovers do not overlap. */
  lemma {:induction false} SerialAllClear(s: State, steps: seq<Step>)
    requires Emptied(s) && SerialRun(s, steps)
    ensures AllClear(s, steps)
    decreases |steps|
  {
    hide Emptied, Serial, Next, Commits, Clear;
    if steps != [] && Next(s, steps[0]).Some? {
      if Commits(s, steps[0]) {
        SerialClear(s, steps[0]);
      }
      StepEmptied(s, steps[0]);
      SerialAllClear(Next(s, steps[0]).value, steps[1..]);
    }
  }

  lemma AtTheStart()
    ensures Logged(INITIAL) && Owned(INITIAL) && Exact(INITIAL) && HandsCurrent(INITIAL)
    ensures Held(INITIAL) && Emptied(INITIAL) && Alone(INITIAL.log)
  {
  }

  /** All of this together, from the beginning. */
  lemma FromTheStart(steps: seq<Step>)
    requires Run(INITIAL, steps).Some?
    ensures Lawful(Run(INITIAL, steps).value.log)
    ensures AlwaysExact(INITIAL, steps) <==> AllHandRight(INITIAL, steps)
    ensures Alone(Run(INITIAL, steps).value.log) <==> AllClear(INITIAL, steps)
  {
    hide Run, Lawful, AlwaysExact, AllHandRight, Alone, AllClear;
    AtTheStart();
    EveryRun(INITIAL, steps);
    ReportExactly(INITIAL, steps);
    OneWorker(INITIAL, steps);
  }

  // --- a run in which the flag is wrong ---

  // A batch's worker captures its update and passes the check of the handover; then the user detaches and starts a
  // second batch, a streamed one, which clears the mark of the detach; then the handover commits.
  const MISLED: seq<Step> :=
    [Begin(1, "a", "a2"), Check(1), Take(1), DoCommit(1, true, 2), DoComplete(2), End(2), Check(2), Take(2), DoDetach,
     Begin(3, "b", "b2"), Check(3), Take(3), DoCommit(3, false, 4), DoCommit(2, false, 5)]

  lemma {:induction false} RunSnoc(s: State, steps: seq<Step>, step: Step)
    requires Run(s, steps).Some?
    ensures Run(s, steps + [step]) == Next(Run(s, steps).value, step)
    decreases |steps|
  {
    hide Next;
    if steps == [] {
      assert [] + [step] == [step] && [step][1..] == [];
    } else {
      assert (steps + [step])[1..] == steps[1..] + [step];
      RunSnoc(Next(s, steps[0]).value, steps[1..], step);
    }
  }

  // The state after the first n steps.
  predicate At(n: nat, s: State) {
    n <= |MISLED| && Run(INITIAL, MISLED[..n]) == Some(s)
  }

  lemma StepTo(s: State, n: nat, t: State)
    requires At(n, s) && n < |MISLED| && Next(s, MISLED[n]) == Some(t)
    ensures At(n + 1, t)
  {
    hide Run, Next;
    RunSnoc(INITIAL, MISLED[..n], MISLED[n]);
    assert MISLED[..n + 1] == MISLED[..n] + [MISLED[n]];
  }

  lemma {:induction false} RunBefore(s: State, steps: seq<Step>, n: nat)
    requires n <= |steps| && Run(s, steps).Some?
    ensures Run(s, steps[..n]).Some?
    decreases |steps|
  {
    hide Next;
    if n > 0 {
      RunBefore(Next(s, steps[0]).value, steps[1..], n - 1);
      assert steps[..n][1..] == steps[1..][..n - 1];
    }
  }

  lemma Set<T>(m: map<nat, T>, k: nat, a: T, b: T)
    ensures m[k := a][k := b] == m[k := b]
  {
  }

  // The lock's data in that run.
  function Data(installing: bool, pending: string, detach: bool, batch: bool, thread: Option<nat>): Globals {
    Globals(installing, true, false, false, pending, detach, batch, false, true, thread)
  }

  function Early(g: Globals, worker: Actor): State {
    State(g, map[][1 := Gone][2 := worker], 1, 1, Some(1), {}, [Started(Some(1), false, false)])
  }

  const UNSTARTED := State(IDLE, map[][1 := Ready("a", "a2")], 0, 0, None, {}, [])

  lemma FirstBatch()
    ensures At(3, UNSTARTED) && At(4, Early(Data(true, "a2", false, true, Some(2)), Working))
  {
    hide Run, CommitStep, At;
    AtNone();
    var s1 := State(IDLE, map[][1 := Checking("a", "a2")], 0, 0, None, {}, []);
    StepTo(INITIAL, 0, s1);
    var s2 := s1.(actors := map[][1 := Taking("a", "a2")]);
    Set(map[], 1, Checking("a", "a2"), Taking("a", "a2"));
    StepTo(s1, 1, s2);
    var s3 := s1.(actors := map[][1 := Ready("a", "a2")]);
    Set(map[], 1, Taking("a", "a2"), Ready("a", "a2"));
    StepTo(s2, 2, s3);
    FirstStart(s3);
    StepTo(s3, 3, Early(Data(true, "a2", false, true, Some(2)), Working));
  }

  lemma AtNone()
    ensures At(0, INITIAL)
  {
  }

  lemma FirstStart(s: State)
    requires s == UNSTARTED
    ensures CommitStep(s, 1, s.actors[1], true, 2) == Some(Early(Data(true, "a2", false, true, Some(2)), Working))
  {
    Set(map[], 1, Ready("a", "a2"), Gone);
    assert !OtherAlive(s.actors, 1);
    assert [] + [Started(Some(1), false, false)] == [Started(Some(1), false, false)];
  }

  function Later(g: Globals): State {
    State(g, map[][1 := Gone][2 := Taken("a2", 1)], 1, 1, None, {}, [Started(Some(1), false, false), Closed(true)])
  }

  lemma FirstCapture()
    ensures At(6, Early(Data(true, "", false, true, Some(2)), Captured("a2", 1)))
  {
    hide Run, DetachStep, At;
    FirstBatch();
    var g := Data(true, "a2", false, true, Some(2));
    Set(map[][1 := Gone], 2, Working, Working);
    StepTo(Early(g, Working), 4, Early(g, Working));
    Set(map[][1 := Gone], 2, Working, Captured("a2", 1));
    StepTo(Early(g, Working), 5, Early(Data(true, "", false, true, Some(2)), Captured("a2", 1)));
  }

  lemma FirstHandover()
    ensures At(9, Later(Data(false, "", true, false, None)))
  {
    hide Run, DetachStep, At;
    FirstCapture();
    var m := map[][1 := Gone];
    var h := Data(true, "", false, true, Some(2));
    Set(m, 2, Captured("a2", 1), Checked("a2", 1));
    StepTo(Early(h, Captured("a2", 1)), 6, Early(h, Checked("a2", 1)));
    var i := Data(true, "", false, true, None);
    Set(m, 2, Checked("a2", 1), Taken("a2", 1));
    StepTo(Early(h, Checked("a2", 1)), 7, Early(i, Taken("a2", 1)));
    Closing();
    StepTo(Early(i, Taken("a2", 1)), 8, Later(Data(false, "", true, false, None)));
  }

  lemma Closing()
    ensures DetachStep(Early(Data(true, "", false, true, None), Taken("a2", 1)))
         == Later(Data(false, "", true, false, None))
  {
    assert [Started(Some(1), false, false)] + [Closed(true)] == [Started(Some(1), false, false), Closed(true)];
  }

  function SecondUser(a: Actor): State {
    var s := Later(Data(false, "", true, false, None));
    s.(actors := s.actors[3 := a])
  }

  lemma SecondUserReady()
    ensures At(12, SecondUser(Ready("b", "b2")))
  {
    hide Run, At;
    FirstHandover();
    var s := Later(Data(false, "", true, false, None));
    StepTo(s, 9, SecondUser(Checking("b", "b2")));
    Set(s.actors, 3, Checking("b", "b2"), Taking("b", "b2"));
    StepTo(SecondUser(Checking("b", "b2")), 10, SecondUser(Taking("b", "b2")));
    Set(s.actors, 3, Taking("b", "b2"), Ready("b", "b2"));
    StepTo(SecondUser(Taking("b", "b2")), 11, SecondUser(Ready("b", "b2")));
  }

  lemma SecondStart() returns (u: State)
    ensures At(13, u) && u.g == Data(true, "b2", false, true, Some(4)).(direct := false)
    ensures u.current == Some(2) && u.updated == {} && u.log == Later(u.g).log + [Started(Some(2), false, true)]
    ensures 2 in u.actors && u.actors[2] == Taken("a2", 1) && 5 !in u.actors && 4 in u.actors && u.actors[4].Working?
  {
    hide Run, At;
    SecondUserReady();
    var t := SecondUser(Ready("b", "b2"));
    assert t.actors[2] == Taken("a2", 1);
    assert OtherAlive(t.actors, 3);
    u := CommitStep(t, 3, t.actors[3], false, 4).value;
    StepTo(t, 12, u);
  }

  lemma LateHandover(u: State)
    requires u.g == Data(true, "b2", false, true, Some(4)).(direct := false) && u.current == Some(2) && u.updated == {}
    requires 2 in u.actors && u.actors[2] == Taken("a2", 1) && 5 !in u.actors
    requires 4 in u.actors && u.actors[4] == Working
    ensures var t := CommitStep(u, 2, u.actors[2], false, 5);
      && t.Some? && !Exact(t.value) && t.value.g.pending == "" && t.value.log == u.log + [HandedOver(1, true)]
      && 4 in t.value.actors && t.value.actors[4].Working? && 5 in t.value.actors && t.value.actors[5].Working?
  {
    assert OtherAlive(u.actors, 2);
  }

  /** There is a run, of starts, a worker, a handover and a detach only, that loses the second batch's update and its
    * flag, and in which two workers are at work at once. */
  lemma MisledRun()
    ensures Run(INITIAL, MISLED).Some?
    ensures var s := Run(INITIAL, MISLED).value; !Exact(s) && s.g.pending == "" && !Alone(s.log)
  {
    hide Run, CommitStep, Exact;
    var u := SecondStart();
    LateHandover(u);
    var v := CommitStep(u, 2, Taken("a2", 1), false, 5).value;
    StepTo(u, 13, v);
    assert MISLED[..14] == MISLED;
    assert v.log[3].HandedOver? && v.log[3].othersAlive;
  }

  /** The state after n steps of it. */
  function Misled(n: nat): State
    requires n <= |MISLED|
  {
    MisledRun();
    RunBefore(INITIAL, MISLED, n);
    Run(INITIAL, MISLED[..n]).value
  }

  lemma MisledNext(n: nat)
    requires n < |MISLED|
    ensures Misled(0) == INITIAL && Next(Misled(n), MISLED[n]) == Some(Misled(n + 1))
  {
    hide Next;
    MisledRun();
    RunBefore(INITIAL, MISLED, n);
    RunBefore(INITIAL, MISLED, n + 1);
    RunSnoc(INITIAL, MISLED[..n], MISLED[n]);
    assert MISLED[..n + 1] == MISLED[..n] + [MISLED[n]];
  }

  /** Its three commits, and who is at work, and how, after the first two. */
  lemma MisledCommits(n: nat)
    requires n < |MISLED|
    ensures Commits(Misled(n), MISLED[n]) <==> n in {3, 12, 13}
    ensures n == 4 ==>
      && 2 in Misled(n).actors && Misled(n).actors[2].Working? && Misled(n).g.direct && HasPending(Misled(n).g)
    ensures n == 13 ==> 4 in Misled(n).actors && Misled(n).actors[4].Working? && !Misled(n).g.direct
  {
    hide Run, CommitStep;
    if n == 3 || n == 4 {
      FirstBatch();
    } else if n == 12 {
      SecondUserReady();
    } else if n == 13 {
      var u := SecondStart();
    }
  }

  /** After the handover's commit the second batch's worker is still at work. */
  lemma MisledWorker()
    ensures 4 in Misled(14).actors && Misled(14).actors[4].Working? && !HasPending(Misled(14).g)
  {
    hide Run, CommitStep, At;
    var u := SecondStart();
    LateHandover(u);
    MisledAt(13, u);
    MisledNext(13);
    assert MISLED[13] == DoCommit(2, false, 5);
    assert Next(u, MISLED[13]) == CommitStep(u, 2, u.actors[2], false, 5);
  }

  lemma MisledAt(n: nat, s: State)
    requires At(n, s)
    ensures Misled(n) == s
  {
    hide Run;
  }
}

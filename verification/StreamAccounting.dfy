/** How many bytes of a streamed install are counted, and when it may be called complete. */
module StreamAccounting {
  import opened Bytes
  import opened Wrappers

  // The counters are unsigned, of 64 bits.
  type Word = v: nat | v < TWO_POW_64

  function Wrap64(v: nat): Word {
    v % TWO_POW_64
  }

  // What is under the lock. Three things the program does not have: "sent" is what was really served since the
  // counters were last reset, "epoch" how often a commit or a worker's preparation has reset them or the served one has
  // wrapped, and "reset" the epoch that the last reset began.
  datatype Status = Status(
    installing: bool, playable: bool, direct: bool, detach: bool, total: Word, downloaded: Word, served: Word,
    sent: nat, epoch: nat, reset: nat)

  datatype Phase = Fresh | Prepared | Watching | Gone

  // A worker's own variables. "looked" and "done", not in the program either, are the epochs of its last look at the
  // counters and of the look in which it found the transfer done.
  datatype Worker = Worker(
    phase: Phase, direct: bool, total: Word, down: Word, streamDone: bool, looked: nat, done: nat)

  const NEW_WORKER := Worker(Fresh, false, 0, 0, false, 0, 0)

  // Workers are never forgotten: one may go on after another was started.
  datatype State = State(g: Status, workers: map<nat, Worker>, latest: Option<nat>)

  const INITIAL := State(Status(false, false, false, false, 0, 0, 0, 0, 0, 0), map[], None)

  // What may happen. The workers' steps carry their numbers; all may come in any order the worker's phase allows.
  datatype Step =
    | Commit(id: nat, total: Word, direct: bool)
    | Prepare(id: nat, direct: bool, size: Option<Word>)
    | Look(id: nat)
    | Adopt(id: nat, reported: Word)
    | Check(id: nat)
    | Finish(id: nat, pending: bool)
    | FallBack(id: nat, total: Word)
    | SetTotal(id: nat, total: Word)
    | DirectTurn(id: nat)
    | FinishDirect(id: nat, pending: bool)
    | Fail(id: nat)
    | Quit(id: nat)
    | Serve(n: Word)
    | Detach
    | Stop

  // --- the critical sections, as functions ---

  /** installer_notify_bytes_streamed. */
  function Served(g: Status, n: Word): Status {
    if !g.installing then g.(sent := g.sent + n)
    else
      var d := Wrap64(g.downloaded + n);
      g.(downloaded := if g.total > 0 && d > g.total then g.total else d, served := Wrap64(g.served + n),
         sent := g.sent + n, epoch := if g.served + n < TWO_POW_64 then g.epoch else g.epoch + 1)
  }

  /** The system's own count is believed up to what was served. */
  function Adopted(g: Status, w: Worker, reported: Word): (Status, Worker) {
    if reported <= w.down then (g, w)
    else
      var adopt := if reported > g.served then g.served else reported;
      (if adopt > g.downloaded then g.(downloaded := adopt) else g, if adopt > w.down then w.(down := adopt) else w)
  }

  /** The counters at the head of the loop, if it goes on. */
  function Looked(g: Status, w: Worker): Worker {
    if g.installing && !g.detach
    then w.(phase := Watching, total := g.total, down := g.downloaded, looked := g.epoch)
    else w.(phase := Gone)
  }

  predicate FindsDone(w: Worker) {
    !w.streamDone && w.total > 0 && w.down >= w.total
  }

  function Finished(g: Status, pending: bool): Status {
    g.(downloaded := g.total, installing := pending, playable := !pending)
  }

  function Known(g: Status, total: Word): Word {
    if g.total == 0 then total else g.total
  }

  // --- what each step does ---

  predicate OfWorker(step: Step) {
    !step.Commit? && !step.Serve? && !step.Detach? && !step.Stop?
  }

  predicate Running(w: Worker) {
    w.phase.Prepared? || w.phase.Watching?
  }

  /** The end of a worker whose transfer is done, of either kind; a detach leaves the status alone. */
  predicate MayFinish(g: Status, w: Worker, step: Step) {
    !g.detach && AtEnd(w, step)
  }

  predicate AtEnd(w: Worker, step: Step) {
    w.phase.Watching? && ((step.Finish? && !w.direct && w.streamDone) || (step.FinishDirect? && w.direct))
  }

  /** Is this a step the worker may take? */
  predicate Due(w: Worker, step: Step) {
    match step
    case Prepare(_, _, _) => w.phase.Fresh?
    case Look(_) => Running(w)
    case Adopt(_, _) => w.phase.Watching? && !w.direct
    case Check(_) => w.phase.Watching? && !w.direct
    case FallBack(_, _) => Running(w) && !w.direct
    case SetTotal(_, _) => Running(w) && w.direct
    case DirectTurn(_) => w.phase.Watching? && w.direct
    case Fail(_) => !w.phase.Gone?
    case Quit(_) => !w.phase.Gone?
    case _ => AtEnd(w, step)
  }

  /** A worker's step; nothing happens out of turn. */
  function Turn(g: Status, w: Worker, step: Step): (Status, Worker)
    requires OfWorker(step)
  {
    if !Due(w, step) then (g, w)
    else
      match step
      case Prepare(_, direct, size) =>
        if direct then
          (g.(direct := true, downloaded := 0, playable := false, epoch := g.epoch + 1, reset := g.epoch + 1),
           w.(phase := Prepared, direct := true))
        else
          (g.(direct := false, downloaded := 0, served := 0, sent := 0, playable := false, epoch := g.epoch + 1,
              reset := g.epoch + 1, total := if size.Some? then size.value else g.total),
           w.(phase := Prepared))
      case Look(_) => (g, Looked(g, w))
      case Adopt(_, reported) => Adopted(g, w, reported)
      case Check(_) =>
        if FindsDone(w) then (g.(playable := false), w.(streamDone := true, done := w.looked)) else (g, w)
      case Finish(_, pending) => if g.detach then (g, w) else (Finished(g, pending), w.(phase := Gone))
      case FinishDirect(_, pending) => if g.detach then (g, w) else (Finished(g, pending), w.(phase := Gone))
      case FallBack(_, total) =>
        (g.(direct := true, downloaded := 0, total := Known(g, total), playable := false), w.(direct := true))
      case SetTotal(_, total) => (g.(total := Known(g, total)), w)
      case DirectTurn(_) => (g.(downloaded := 0, direct := true, playable := false), w)
      case Fail(_) => (g.(installing := false, playable := false), w.(phase := Gone))
      case Quit(_) => (g, w.(phase := Gone))
  }

  // Can the step be taken now?
  predicate InTurn(s: State, step: Step) {
    if OfWorker(step) then step.id in s.workers && Due(s.workers[step.id], step)
    else step.Commit? ==> step.id !in s.workers
  }

  function Apply(s: State, step: Step): State {
    if OfWorker(step) then
      if step.id !in s.workers then s
      else
        var r := Turn(s.g, s.workers[step.id], step);
        s.(g := r.0, workers := s.workers[step.id := r.1])
    else
      match step
      case Commit(id, total, direct) =>
        if id in s.workers then s
        else
          State(Status(true, false, direct, false, total, 0, 0, 0, s.g.epoch + 1, s.g.epoch + 1),
                s.workers[id := NEW_WORKER], Some(id))
      case Serve(n) => s.(g := Served(s.g, n))
      case Detach =>
        if s.g.installing && s.g.direct
        then s.(g := s.g.(detach := true, installing := false, playable := false)) else s
      case Stop => s.(g := s.g.(installing := false, playable := false))
  }

  function Run(s: State, steps: seq<Step>): State
    decreases |steps|
  {
    if steps == [] then s else Run(Apply(s, steps[0]), steps[1..])
  }

  /** What begins a transfer sets the counts to zero: a commit all of them, and so does the preparation of a streamed
    * install; a direct one counts nothing but what the system reports. None of them leaves the install playable. */
  lemma CountsBegin(s: State, step: Step)
    requires InTurn(s, step)
    ensures var g := Apply(s, step).g;
      && (step.Commit? ==>
            g.installing && !g.playable && !g.detach && g.direct == step.direct && g.total == step.total
            && g.downloaded == 0 && g.served == 0 && g.sent == 0)
      && (step.Prepare? && !step.direct ==>
            !g.direct && !g.playable && g.downloaded == 0 && g.served == 0 && g.sent == 0
            && g.total == (if step.size.Some? then step.size.value else s.g.total) && g.installing == s.g.installing)
      && (step.Prepare? && step.direct ==>
            g.direct && !g.playable && g.downloaded == 0 && g.served == s.g.served && g.total == s.g.total)
      && (step.FallBack? ==>
            g.direct && !g.playable && g.downloaded == 0
            && g.total == (if s.g.total == 0 then step.total else s.g.total))
      && (step.DirectTurn? ==> g.direct && !g.playable && g.downloaded == 0)
  {
  }

  // --- the program ---

  class Account {
    var installing: bool
    var playable: bool
    var direct: bool
    var detach: bool
    var total: Word
    var downloaded: Word
    var served: Word
    ghost var sent: nat
    ghost var latest: Option<nat>
    ghost var reset: nat
    // No one reads the epoch but to record it.
    var epoch: nat

    // The workers' variables.
    var workers: map<nat, Worker>

    ghost function Now(): State
      reads this
    {
      var g := Status(installing, playable, direct, detach, total, downloaded, served, sent, epoch, reset);
      State(g, workers, latest)
    }

    method NotifyStreamed(n: Word)
      modifies this`downloaded, this`served, this`sent, this`epoch
      ensures Now() == Apply(old(Now()), Serve(n))
      ensures served == if installing then (old(served) + n) % 0x1_0000_0000_0000_0000 else old(served)
      ensures downloaded ==
        if !installing then old(downloaded)
        else
          var d := (old(downloaded) + n) % 0x1_0000_0000_0000_0000;
          if total > 0 && d > total then total else d
      ensures old(Below(Now())) ==> (Below(Now()) <==> old(Fits(Now(), Serve(n))))
      ensures old(Tracked(Now(), false) && Below(Now())) ==> Tracked(Now(), false)
      ensures old(Tracked(Now(), true) && Earned(Now())) ==> Tracked(Now(), true) && Earned(Now())
    {
      hide Below, Fits, Tracked, Earned, Turn, Wrap64;
      KeptBy(Now(), Serve(n));
      WrapIs(downloaded + n);
      WrapIs(served + n);
      sent := sent + n;
      if installing {
        epoch := if served + n < TWO_POW_64 then epoch else epoch + 1;
        downloaded := Wrap64(downloaded + n);
        served := Wrap64(served + n);
        if total > 0 && downloaded > total {
          downloaded := total;
        }
      }
    }

    method AdoptReported(id: nat, reported: Word)
      requires id in workers && workers[id].phase.Watching? && !workers[id].direct
      modifies this`downloaded, this`workers
      ensures Now() == Apply(old(Now()), Adopt(id, reported))
      ensures id in workers && workers[id] == old(workers[id]).(down := workers[id].down)
      ensures old(downloaded) <= downloaded && (downloaded <= served || downloaded == old(downloaded))
      ensures old(workers[id].down) <= workers[id].down
      ensures workers[id].down <= served || workers[id].down == old(workers[id].down)
      ensures reported > old(workers[id].down) ==> downloaded >= Min(reported, served)
    {
      var w := workers[id];
      if reported > w.down {
        var adopt := reported;
        if adopt > served {
          adopt := served;
        }
        if adopt > downloaded {
          downloaded := adopt;
        }
        w := w.(down := if adopt > w.down then adopt else w.down);
      }
      workers := workers[id := w];
    }

    /** The head of a worker's loop. */
    method TakeLook(id: nat) returns (goes: bool)
      requires id in workers && Running(workers[id])
      modifies this`workers
      ensures Now() == Apply(old(Now()), Look(id)) && id in workers
      ensures goes == (installing && !detach)
      ensures goes ==> workers[id].total == total && workers[id].down == downloaded
      ensures goes ==> workers[id].phase.Watching? && workers[id].direct == old(workers[id].direct)
      ensures !goes ==> workers[id].phase.Gone?
    {
      goes := installing && !detach;
      var w := workers[id];
      if goes {
        w := w.(phase := Watching, total := total, down := downloaded, looked := epoch);
      } else {
        w := w.(phase := Gone);
      }
      workers := workers[id := w];
    }

    /** The check whether the transfer is complete. */
    method CheckDone(id: nat)
      requires id in workers && workers[id].phase.Watching? && !workers[id].direct
      modifies this`playable, this`workers
      ensures Now() == Apply(old(Now()), Check(id)) && id in workers
      ensures workers[id].streamDone <==>
        old(workers[id].streamDone) || 0 < workers[id].total <= workers[id].down
    {
      var w := workers[id];
      if !w.streamDone && w.total > 0 && w.down >= w.total {
        playable := false;
        w := w.(streamDone := true, done := w.looked);
      }
      workers := workers[id := w];
    }

    /** The end of a worker whose transfer is done, unless the install was detached. */
    method Complete(id: nat, pending: bool) returns (finished: bool)
      requires id in workers && workers[id].phase.Watching? && !workers[id].direct && workers[id].streamDone
      modifies this`installing, this`playable, this`downloaded, this`workers
      ensures Now() == Apply(old(Now()), Finish(id, pending))
      ensures finished == !detach && (!finished ==> Now() == old(Now()))
      ensures finished ==>
        && downloaded == total && installing == pending && playable == !pending && workers[id].phase.Gone?
      ensures old(Tracked(Now(), true) && Earned(Now())) ==>
        (Earned(Now()) <==> old(Earns(Now(), Finish(id, pending))))
      ensures old(Tracked(Now(), false) && Below(Now())) ==>
        (Below(Now()) <==> old(Fits(Now(), Finish(id, pending))))
    {
      hide Tracked, Earned, Earns, Below, Fits;
      KeptBy(Now(), Finish(id, pending));
      finished := !detach;
      if finished {
        downloaded := total;
        installing := pending;
        playable := !pending;
        workers := workers[id := workers[id].(phase := Gone)];
      } else {
        assert workers[id := workers[id]] == workers;
      }
    }

    /** One turn of a worker's loop, up to that check. */
    method Watch(id: nat, reported: Word)
      requires id in workers && Running(workers[id]) && !workers[id].direct
      modifies this`downloaded, this`playable, this`workers
      ensures Now() == Apply(Apply(Apply(old(Now()), Look(id)), Adopt(id, reported)), Check(id))
      ensures old(Tracked(Now(), true) && Earned(Now())) ==> Tracked(Now(), true) && Earned(Now())
      ensures old(Below(Now())) ==> Below(Now()) && (old(Tracked(Now(), false)) ==> Tracked(Now(), false))
    {
      hide Below, Tracked, Earned, Apply;
      KeptBy(Now(), Look(id));
      var goes := TakeLook(id);
      KeptBy(Now(), Adopt(id, reported));
      if !goes {
        GoneStays(Now(), id, Adopt(id, reported));
        GoneStays(Now(), id, Check(id));
        return;
      }
      AdoptReported(id, reported);
      KeptBy(Now(), Check(id));
      CheckDone(id);
    }
  }

  /** A worker that has left its loop does nothing more. */
  lemma GoneStays(s: State, id: nat, step: Step)
    requires OfWorker(step) && step.id == id && id in s.workers && s.workers[id].phase.Gone?
    ensures Apply(s, step) == s
  {
    assert s.workers[id := s.workers[id]] == s.workers;
  }

  // --- what is sent and what is counted ---

  // As long as the install is streamed, no more is counted than was sent, and it is only called playable after as many
  // bytes as it has, more than none, were sent.
  predicate Earned(s: State) {
    !s.g.direct ==> s.g.downloaded <= s.g.sent && (s.g.playable ==> 0 < s.g.total <= s.g.sent)
  }

  // As long as the install is streamed, no more is counted as downloaded than as served.
  predicate Below(s: State) {
    !s.g.direct ==> s.g.downloaded <= s.g.served
  }

  // A count is held against what was really sent, or against the served counter.
  function Limit(g: Status, really: bool): nat {
    if really then g.sent else g.served
  }

  // The epoch since when that has only grown.
  function Since(g: Status, really: bool): nat {
    if really then g.reset else g.epoch
  }

  predicate Within(g: Status, really: bool) {
    !g.direct ==> g.downloaded <= Limit(g, really)
  }

  // What a worker found since then is so.
  predicate Knows(g: Status, w: Worker, really: bool) {
    && w.looked <= g.epoch && w.done <= g.epoch && (w.streamDone ==> w.done > 0)
    && (w.phase.Fresh? ==> !w.streamDone && !w.direct)
    && (w.phase.Watching? ==> w.looked > 0)
    && (!g.direct && w.looked >= Since(g, really) ==>
          w.down <= Limit(g, really) && (w.total == 0 || w.total == g.total))
    && (!g.direct && w.streamDone && w.done >= Since(g, really) ==> 0 < g.total <= Limit(g, really))
  }

  // The counters themselves are in order.
  predicate Counts(g: Status, really: bool) {
    g.served <= Limit(g, really) && g.reset <= g.epoch
  }

  predicate Tracked(s: State, really: bool) {
    && Counts(s.g, really)
    && (s.workers != map[] ==> s.g.reset > 0)
    && forall id :: id in s.workers ==> Knows(s.g, s.workers[id], really)
  }

  // A worker finishes a streamed install that did not find its transfer done since the given epoch.
  predicate FinishesBlind(s: State, step: Step, since: nat) {
    && OfWorker(step) && step.id in s.workers && MayFinish(s.g, s.workers[step.id], step) && !s.g.direct
    && (step.FinishDirect? || s.workers[step.id].done < since)
  }

  /** May the step be taken without calling done what was not sent? A worker that finishes must have found its transfer
    * done since the counters were last reset; any other must find as many bytes, more than none, sent. */
  predicate Earns(s: State, step: Step) {
    FinishesBlind(s, step, s.g.reset) ==> s.g.total <= s.g.sent && (step.pending || 0 < s.g.total)
  }

  /** May the step be taken without the download count passing the served one? Serving may unless the served count
    * alone wraps and the total does not hold the other one down. A worker that finishes must have found its transfer
    * done since the counters were last reset and the served one last wrapped; another must find the total served. */
  predicate Fits(s: State, step: Step) {
    && (step.Serve? && s.g.installing && !s.g.direct ==>
          || s.g.served + step.n < TWO_POW_64
          || s.g.downloaded + step.n >= TWO_POW_64
          || 0 < s.g.total <= s.g.served + step.n - TWO_POW_64)
    && (FinishesBlind(s, step, s.g.epoch) ==> s.g.total <= s.g.served)
  }

  lemma TurnKnows(g: Status, w: Worker, step: Step, other: Worker, really: bool)
    requires OfWorker(step) && g.reset > 0 && Counts(g, really) && Within(g, really)
    requires Knows(g, w, really) && Knows(g, other, really)
    ensures var r := Turn(g, w, step);
      && r.0.reset > 0 && Counts(r.0, really) && Knows(r.0, r.1, really) && Knows(r.0, other, really)
  {
    hide Knows;
    if step.Prepare? || step.FallBack? || step.SetTotal? || step.DirectTurn? {
      ResetKnows(g, w, step, other, really);
    } else if step.Look? || step.Adopt? || step.Check? {
      LookKnows(g, w, step, other, really);
    } else {
      EndKnows(g, w, step, other, really);
    }
  }

  lemma ResetKnows(g: Status, w: Worker, step: Step, other: Worker, really: bool)
    requires step.Prepare? || step.FallBack? || step.SetTotal? || step.DirectTurn?
    requires g.reset > 0 && Counts(g, really) && Knows(g, w, really) && Knows(g, other, really)
    ensures var r := Turn(g, w, step);
      && r.0.reset > 0 && Counts(r.0, really) && Knows(r.0, r.1, really) && Knows(r.0, other, really)
  {
  }

  lemma LookKnows(g: Status, w: Worker, step: Step, other: Worker, really: bool)
    requires step.Look? || step.Adopt? || step.Check?
    requires g.reset > 0 && Counts(g, really) && Within(g, really) && Knows(g, w, really) && Knows(g, other, really)
    ensures var r := Turn(g, w, step);
      && r.0.reset > 0 && Counts(r.0, really) && Knows(r.0, r.1, really) && Knows(r.0, other, really)
  {
    if step.Adopt? {
      AdoptKnows(g, w, step, other, really);
    }
  }

  lemma AdoptKnows(g: Status, w: Worker, step: Step, other: Worker, really: bool)
    requires step.Adopt?
    requires g.reset > 0 && Counts(g, really) && Within(g, really) && Knows(g, w, really) && Knows(g, other, really)
    ensures var r := Turn(g, w, step);
      && r.0.reset > 0 && Counts(r.0, really) && Knows(r.0, r.1, really) && Knows(r.0, other, really)
  {
  }

  lemma EndKnows(g: Status, w: Worker, step: Step, other: Worker, really: bool)
    requires step.Finish? || step.FinishDirect? || step.Fail? || step.Quit?
    requires g.reset > 0 && Counts(g, really) && Knows(g, w, really) && Knows(g, other, really)
    ensures var r := Turn(g, w, step);
      && r.0.reset > 0 && Counts(r.0, really) && Knows(r.0, r.1, really) && Knows(r.0, other, really)
  {
  }

  lemma StepTracked(s: State, step: Step, really: bool)
    requires Tracked(s, really) && Within(s.g, really)
    ensures Tracked(Apply(s, step), really)
  {
    hide Turn, Knows, Counts, Within;
    if OfWorker(step) {
      if step.id in s.workers {
        forall id | id in s.workers
          ensures Knows(Apply(s, step).g, Apply(s, step).workers[id], really)
          ensures Counts(Apply(s, step).g, really) && Apply(s, step).g.reset > 0
        {
          TurnKnows(s.g, s.workers[step.id], step, s.workers[id], really);
        }
        assert step.id in s.workers;
      }
    } else {
      OtherTracked(s, step, really);
    }
  }

  lemma OtherTracked(s: State, step: Step, really: bool)
    requires Tracked(s, really) && !OfWorker(step)
    ensures Tracked(Apply(s, step), really)
  {
    hide Turn, Knows;
    forall id | id in s.workers
      ensures Knows(Apply(s, step).g, s.workers[id], really)
    {
      OtherKnows(s, step, s.workers[id], really);
    }
    if step.Commit? && step.id !in s.workers {
      NewKnows(Apply(s, step).g, really);
    }
  }

  lemma OtherKnows(s: State, step: Step, w: Worker, really: bool)
    requires Knows(s.g, w, really) && Counts(s.g, really) && !OfWorker(step)
    ensures Knows(Apply(s, step).g, w, really)
  {
  }

  lemma NewKnows(g: Status, really: bool)
    requires 0 < g.reset <= g.epoch
    ensures Knows(g, NEW_WORKER, really)
  {
  }

  lemma TrackedKnows(s: State, id: nat, really: bool)
    requires Tracked(s, really) && id in s.workers
    ensures Knows(s.g, s.workers[id], really) && Counts(s.g, really)
  {
  }

  // --- what the install is called ---

  lemma TurnEarned(s: State, step: Step)
    requires OfWorker(step) && step.id in s.workers && Knows(s.g, s.workers[step.id], true) && Earned(s)
    requires Counts(s.g, true)
    ensures Earned(Apply(s, step)) <==> Earns(s, step)
  {
  }

  lemma OtherEarned(s: State, step: Step)
    requires Counts(s.g, true) && Earned(s) && !(OfWorker(step) && step.id in s.workers)
    ensures Earned(Apply(s, step)) && Earns(s, step)
  {
    hide Turn;
  }

  lemma EarnedWithin(s: State)
    requires Earned(s)
    ensures Within(s.g, true)
  {
  }

  lemma StepEarned(s: State, step: Step)
    requires Tracked(s, true) && Earned(s)
    ensures Tracked(Apply(s, step), true)
    ensures Earned(Apply(s, step)) <==> Earns(s, step)
  {
    hide Apply, Earned, Earns, Knows, Within;
    EarnedWithin(s);
    StepTracked(s, step, true);
    if OfWorker(step) && step.id in s.workers {
      TrackedKnows(s, step.id, true);
      TurnEarned(s, step);
    } else {
      OtherEarned(s, step);
    }
  }

  ghost predicate AlwaysEarned(s: State, steps: seq<Step>)
    decreases |steps|
  {
    Earned(s) && (steps != [] ==> AlwaysEarned(Apply(s, steps[0]), steps[1..]))
  }

  ghost predicate AllEarn(s: State, steps: seq<Step>)
    decreases |steps|
  {
    steps != [] ==> Earns(s, steps[0]) && AllEarn(Apply(s, steps[0]), steps[1..])
  }

  /** In every run of any number of workers, whatever the system reports and however the counters wrap: as long as the
    * install is streamed no more is counted than was sent, and it is only called playable after as many bytes as it
    * has were sent, exactly if every finish earns it. */
  lemma {:induction false} PlayableExactly(s: State, steps: seq<Step>)
    requires Tracked(s, true) && Earned(s)
    ensures AlwaysEarned(s, steps) <==> AllEarn(s, steps)
    decreases |steps|
  {
    hide Apply, Earned, Earns, Tracked;
    if steps != [] {
      StepEarned(s, steps[0]);
      if Earns(s, steps[0]) {
        PlayableExactly(Apply(s, steps[0]), steps[1..]);
      }
    }
  }

  // --- the two counters ---

  lemma TurnBelow(s: State, step: Step)
    requires OfWorker(step) && step.id in s.workers && Knows(s.g, s.workers[step.id], false) && Below(s)
    ensures Below(Apply(s, step)) <==> Fits(s, step)
  {
  }

  lemma OtherBelow(s: State, step: Step)
    requires Below(s) && !(OfWorker(step) && step.id in s.workers)
    ensures Below(Apply(s, step)) <==> Fits(s, step)
  {
    hide Turn, Wrap64;
    if step.Serve? {
      WrapsOnce(s.g.downloaded + step.n);
      WrapsOnce(s.g.served + step.n);
    }
  }

  lemma WrapIs(v: nat)
    ensures Wrap64(v) == v % 0x1_0000_0000_0000_0000
  {
  }

  lemma WrapsOnce(v: nat)
    requires v < TWO_POW_64 + TWO_POW_64
    ensures Wrap64(v) == if v < TWO_POW_64 then v else v - TWO_POW_64
  {
  }

  lemma StepBelow(s: State, step: Step)
    requires Tracked(s, false) && Below(s)
    ensures Tracked(Apply(s, step), false)
    ensures Below(Apply(s, step)) <==> Fits(s, step)
  {
    hide Apply, Fits, Knows;
    StepTracked(s, step, false);
    if OfWorker(step) && step.id in s.workers {
      TrackedKnows(s, step.id, false);
      TurnBelow(s, step);
    } else {
      OtherBelow(s, step);
    }
  }

  /** A step that neither serves nor finishes keeps the download count below, whatever a worker knows. */
  lemma QuietBelow(s: State, step: Step)
    requires Below(s) && !step.Serve? && !step.Finish? && !step.FinishDirect?
    ensures Below(Apply(s, step))
  {
  }

  lemma KeptBy(s: State, step: Step)
    ensures Below(s) && step.Serve? ==> (Below(Apply(s, step)) <==> Fits(s, step))
    ensures Below(s) && !step.Serve? && !step.Finish? && !step.FinishDirect? ==> Below(Apply(s, step))
    ensures Tracked(s, false) && Below(s) ==>
      Tracked(Apply(s, step), false) && (Below(Apply(s, step)) <==> Fits(s, step))
    ensures Tracked(s, true) && Earned(s) ==>
      Tracked(Apply(s, step), true) && (Earned(Apply(s, step)) <==> Earns(s, step))
    ensures !step.Finish? && !step.FinishDirect? ==> Earns(s, step)
  {
    hide Apply, Below, Tracked, Earned, Fits;
    if Below(s) && step.Serve? {
      OtherBelow(s, step);
    } else if Below(s) && !step.Finish? && !step.FinishDirect? {
      QuietBelow(s, step);
    }
    if Tracked(s, false) && Below(s) {
      StepBelow(s, step);
    }
    if Tracked(s, true) && Earned(s) {
      StepEarned(s, step);
    }
  }

  ghost predicate AlwaysBelow(s: State, steps: seq<Step>)
    decreases |steps|
  {
    Below(s) && (steps != [] ==> AlwaysBelow(Apply(s, steps[0]), steps[1..]))
  }

  ghost predicate AllFit(s: State, steps: seq<Step>)
    decreases |steps|
  {
    steps != [] ==> Fits(s, steps[0]) && AllFit(Apply(s, steps[0]), steps[1..])
  }

  /** In every run of any number of workers, whatever the system reports: the downloaded bytes never pass the served
    * ones exactly if every served chunk and every finish fits. */
  lemma {:induction false} BelowExactly(s: State, steps: seq<Step>)
    requires Tracked(s, false) && Below(s)
    ensures AlwaysBelow(s, steps) <==> AllFit(s, steps)
    decreases |steps|
  {
    hide Apply, Below, Fits, Tracked;
    if steps != [] {
      StepBelow(s, steps[0]);
      if Fits(s, steps[0]) {
        BelowExactly(Apply(s, steps[0]), steps[1..]);
      }
    }
  }

  // --- one worker at a time ---

  // Only the worker that was started last does anything.
  ghost predicate OnlyLatest(s: State, steps: seq<Step>)
    decreases |steps|
  {
    steps != [] ==>
      && (OfWorker(steps[0]) ==> s.latest == Some(steps[0].id))
      && OnlyLatest(Apply(s, steps[0]), steps[1..])
  }

  // The worker knows of every reset, and whether the install is streamed.
  predicate Current(g: Status, w: Worker) {
    && (w.phase.Fresh? ==> !w.streamDone && !w.direct) && (w.streamDone ==> w.done >= g.reset)
    && (w.phase.Watching? ==> w.looked >= g.reset)
    && (Running(w) ==> w.direct == g.direct)
  }

  predicate UpToDate(s: State) {
    s.latest.Some? && s.latest.value in s.workers ==> Current(s.g, s.workers[s.latest.value])
  }

  lemma StepUpToDate(s: State, step: Step)
    requires s.g.reset <= s.g.epoch && UpToDate(s) && (OfWorker(step) ==> s.latest == Some(step.id))
    ensures Apply(s, step).g.reset <= Apply(s, step).g.epoch && UpToDate(Apply(s, step)) && Earns(s, step)
  {
    hide Turn;
    if OfWorker(step) {
      if step.id in s.workers {
        TurnUpToDate(s.g, s.workers[step.id], step);
      }
    }
  }

  lemma TurnUpToDate(g: Status, w: Worker, step: Step)
    requires OfWorker(step) && g.reset <= g.epoch && Current(g, w)
    ensures var r := Turn(g, w, step); r.0.reset <= r.0.epoch && Current(r.0, r.1)
  {
  }

  lemma {:induction false} LatestEarns(s: State, steps: seq<Step>)
    requires s.g.reset <= s.g.epoch && UpToDate(s) && OnlyLatest(s, steps)
    ensures AllEarn(s, steps)
    decreases |steps|
  {
    hide Apply, UpToDate, Earns;
    if steps != [] {
      StepUpToDate(s, steps[0]);
      LatestEarns(Apply(s, steps[0]), steps[1..]);
    }
  }

  /** So it is in every run in which only the worker that was started last does anything. */
  lemma NeverTooMuch(steps: seq<Step>)
    requires OnlyLatest(INITIAL, steps)
    ensures AlwaysEarned(INITIAL, steps)
  {
    LatestEarns(INITIAL, steps);
    PlayableExactly(INITIAL, steps);
  }

  // The served count does not wrap.
  predicate StaysWord(s: State, step: Step) {
    step.Serve? && s.g.installing ==> s.g.served + step.n < TWO_POW_64
  }

  ghost predicate NoWrap(s: State, steps: seq<Step>)
    decreases |steps|
  {
    steps != [] ==> StaysWord(s, steps[0]) && NoWrap(Apply(s, steps[0]), steps[1..])
  }

  lemma StepFits(s: State, step: Step)
    requires s.g.reset == s.g.epoch && UpToDate(s) && (OfWorker(step) ==> s.latest == Some(step.id))
    requires StaysWord(s, step)
    ensures Apply(s, step).g.reset == Apply(s, step).g.epoch && Fits(s, step)
  {
  }

  lemma {:induction false} LatestFits(s: State, steps: seq<Step>)
    requires s.g.reset == s.g.epoch && UpToDate(s) && OnlyLatest(s, steps) && NoWrap(s, steps)
    ensures AllFit(s, steps)
    decreases |steps|
  {
    hide Apply, UpToDate, Fits, StaysWord;
    if steps != [] {
      StepUpToDate(s, steps[0]);
      StepFits(s, steps[0]);
      LatestFits(Apply(s, steps[0]), steps[1..]);
    }
  }

  /** Where besides the served count does not wrap, the downloaded bytes never pass the served ones. */
  lemma NeverAhead(steps: seq<Step>)
    requires OnlyLatest(INITIAL, steps) && NoWrap(INITIAL, steps)
    ensures AlwaysBelow(INITIAL, steps)
  {
    LatestFits(INITIAL, steps);
    BelowExactly(INITIAL, steps);
  }

  // --- runs in which it is not so ---

  lemma RunFrom(steps: seq<Step>, s: State, k: nat)
    requires k < |steps|
    ensures Run(s, steps[k..]) == Run(Apply(s, steps[k]), steps[k + 1..])
    ensures AllFit(s, steps[k..]) ==> Fits(s, steps[k]) && AllFit(Apply(s, steps[k]), steps[k + 1..])
    ensures AllEarn(s, steps[k..]) ==> Earns(s, steps[k]) && AllEarn(Apply(s, steps[k]), steps[k + 1..])
    ensures StaysWord(s, steps[k]) && NoWrap(Apply(s, steps[k]), steps[k + 1..]) ==> NoWrap(s, steps[k..])
  {
    hide Apply, Fits, Earns, StaysWord;
    assert steps[k..][1..] == steps[k + 1..];
  }

  // A package of one byte, after whose install all bytes a word can count were served, and then one more.
  const WRAPPING: seq<Step> := [Commit(1, 1, false), Prepare(1, false, None), Serve(TWO_POW_64 - 1), Serve(1)]

  /** The served count wraps, and the download count, held at the total, is above it. */
  lemma WrapBreaks()
    ensures !AlwaysBelow(INITIAL, WRAPPING)
    ensures var t := Run(INITIAL, WRAPPING); !t.g.direct && t.g.downloaded == 1 && t.g.served == 0
  {
    hide Run, AllFit, AllEarn, AlwaysBelow, Fits, Earns;
    var s1 := Apply(INITIAL, WRAPPING[0]);
    var s2 := Apply(s1, WRAPPING[1]);
    var s3 := Apply(s2, WRAPPING[2]);
    var s4 := Apply(s3, WRAPPING[3]);
    assert s3.g.installing && s3.g.served == TWO_POW_64 - 1 && s3.g.downloaded == 1;
    assert s4.g.served == 0 && s4.g.downloaded == 1 && !s4.g.direct;
    RunFrom(WRAPPING, INITIAL, 0);
    RunFrom(WRAPPING, s1, 1);
    RunFrom(WRAPPING, s2, 2);
    RunFrom(WRAPPING, s3, 3);
    RunNone(s4, WRAPPING[4..]);
    BelowExactly(INITIAL, WRAPPING);
    NoFit(s3);
    assert WRAPPING[0..] == WRAPPING;
  }

  lemma RunNone(s: State, steps: seq<Step>)
    requires steps == []
    ensures Run(s, steps) == s
  {
  }

  lemma NoFit(s: State)
    requires s.g.installing && !s.g.direct && s.g.served == TWO_POW_64 - 1 && s.g.downloaded == 1 && s.g.total == 1
    ensures !Fits(s, Serve(1))
  {
  }

  // A worker finds its transfer of five bytes done; a handover that was under way commits a package of seven bytes;
  // then the first worker finishes.
  const LATE: seq<Step> :=
    [Commit(1, 5, false), Prepare(1, false, None), Serve(5), Look(1), Adopt(1, 0), Check(1), Commit(2, 7, false),
     Finish(1, false)]

  /** The second package is called playable before one of its bytes was sent, and its downloaded bytes pass the served
    * ones, though nothing wraps. */
  lemma LateBreaks()
    ensures NoWrap(INITIAL, LATE) && !AlwaysEarned(INITIAL, LATE) && !AlwaysBelow(INITIAL, LATE)
    ensures var t := Run(INITIAL, LATE);
      && t.g.playable && !t.g.direct && t.g.total == 7 && t.g.downloaded == 7 && t.g.served == t.g.sent == 0
      && t.latest == Some(2)
  {
    hide Leads, AllFit, AllEarn, AlwaysEarned, AlwaysBelow, Fits, Earns, NoWrap, Run;
    var s3 := FirstDone();
    var s4 := Apply(s3, Commit(2, 7, false));
    LeadsOn(s3, 6, Commit(2, 7, false));
    assert s4.workers[1] == s3.workers[1] && s4.g == Status(true, false, false, false, 7, 0, 0, 0, 3, 3);
    var s5 := Apply(s4, Finish(1, false));
    LeadsOn(s4, 7, Finish(1, false));
    LeadsEnd(s5);
    PlayableExactly(INITIAL, LATE);
    BelowExactly(INITIAL, LATE);
    NotEarned(s4);
  }

  // What fails in the rest of the run fails in the run.
  ghost predicate Leads(s: State, k: nat)
    requires k <= |LATE|
  {
    && Run(INITIAL, LATE) == Run(s, LATE[k..]) && (AllEarn(INITIAL, LATE) ==> AllEarn(s, LATE[k..]))
    && (AllFit(INITIAL, LATE) ==> AllFit(s, LATE[k..])) && (NoWrap(s, LATE[k..]) ==> NoWrap(INITIAL, LATE))
  }

  lemma LeadsStart()
    ensures Leads(INITIAL, 0)
  {
    hide Run, AllFit, AllEarn, NoWrap;
    assert LATE[0..] == LATE;
  }

  lemma LeadsOn(s: State, k: nat, step: Step)
    requires k < |LATE| && Leads(s, k) && LATE[k] == step && StaysWord(s, step)
    ensures Leads(Apply(s, step), k + 1)
    ensures AllEarn(INITIAL, LATE) ==> Earns(s, step)
    ensures AllFit(INITIAL, LATE) ==> Fits(s, step)
  {
    hide Run, AllFit, AllEarn, Fits, Earns, NoWrap, Apply, StaysWord;
    RunFrom(LATE, s, k);
  }

  lemma LeadsEnd(t: State)
    requires Leads(t, |LATE|)
    ensures Run(INITIAL, LATE) == t && NoWrap(INITIAL, LATE)
  {
    assert LATE[|LATE|..] == [];
  }

  lemma FirstServed() returns (s: State)
    ensures Leads(s, 3)
    ensures s.g == Status(true, false, false, false, 5, 5, 5, 5, 2, 2)
    ensures s.workers.Keys == {1} && s.workers[1] == NEW_WORKER.(phase := Prepared)
  {
    hide Leads, Served, AllFit, AllEarn, Fits, Earns;
    var s2 := FirstPrepared();
    ServesFive(s2.g);
    s := Apply(s2, Serve(5));
    LeadsOn(s2, 2, Serve(5));
  }

  lemma FirstPrepared() returns (s: State)
    ensures Leads(s, 2)
    ensures s.g == Status(true, false, false, false, 5, 0, 0, 0, 2, 2)
    ensures s.workers.Keys == {1} && s.workers[1] == NEW_WORKER.(phase := Prepared)
  {
    hide Leads, AllFit, AllEarn, Fits, Earns;
    LeadsStart();
    var s1 := State(Status(true, false, false, false, 5, 0, 0, 0, 1, 1), map[1 := NEW_WORKER], Some(1));
    LeadsOn(INITIAL, 0, Commit(1, 5, false));
    assert Apply(INITIAL, Commit(1, 5, false)) == s1;
    s := Apply(s1, Prepare(1, false, None));
    LeadsOn(s1, 1, Prepare(1, false, None));
  }

  lemma ServesFive(g: Status)
    requires g.installing && g.total == 5 && g.downloaded == g.served == g.sent == 0
    ensures Served(g, 5) == g.(downloaded := 5, served := 5, sent := 5)
  {
  }

  lemma FirstDone() returns (s: State)
    ensures Leads(s, 6)
    ensures !s.g.detach && s.g.epoch == 2 && s.workers.Keys == {1}
    ensures s.workers[1] == Worker(Watching, false, 5, 5, true, 2, 2)
  {
    hide Leads, AllFit, AllEarn, Fits, Earns;
    var s3 := FirstServed();
    var s4 := Apply(s3, Look(1));
    LeadsOn(s3, 3, Look(1));
    var s5 := Apply(s4, Adopt(1, 0));
    LeadsOn(s4, 4, Adopt(1, 0));
    s := Apply(s5, Check(1));
    LeadsOn(s5, 5, Check(1));
  }

  lemma NotEarned(s: State)
    requires 1 in s.workers && s.workers[1] == Worker(Watching, false, 5, 5, true, 2, 2)
    requires s.g == Status(true, false, false, false, 7, 0, 0, 0, 3, 3)
    ensures !Earns(s, Finish(1, false)) && !Fits(s, Finish(1, false))
  {
  }
}

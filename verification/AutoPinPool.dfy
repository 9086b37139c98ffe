/** The bounded pool of AutoPinRunner.Run (autopin_runner.go): any number of concurrent Run
    calls on one runner, their schedulers, their goroutines and the shared semaphore. All
    the calls are present from the start; one that has not begun is one that has not moved. */
module AutoPinPool {
  import opened Basics
  import opened Sums
  import Admission = AutoPinAdmission
  import Discovery

  type RunId = nat

  /** The goroutine for queued[index] of one Run. */
  datatype Job = Job(run: RunId, index: nat)

  datatype Outcome = AlreadyPinned | ProbeError | PinOk | PinError

  datatype JobPhase =
    | Acquired                     // token taken by the scheduler, goroutine not started
    | Probing                      // IsPinned in progress
    | Pinning                      // Pin in progress
    | Settled(o: Outcome)          // body over, token still held
    | Freed(o: Outcome)            // token released, wg.Done to come
    | Finished(o: Outcome)

  datatype RunPhase = Scheduling | Holding | Draining | Returned

  /** next items have been scheduled; Holding means the token for the next one is taken. */
  datatype Run = Run(
    queue: seq<string>, next: nat, phase: RunPhase, ctxDone: bool,
    wg: int, pinned: nat, failed: nat, probeErrors: nat)

  datatype State = State(concurrency: nat, tokens: int, runs: map<RunId, Run>, jobs: map<Job, JobPhase>)
  {
    function RunTo(r: RunId, run: Run): State { this.(runs := runs[r := run]) }

    function JobTo(j: Job, ph: JobPhase): State { this.(jobs := jobs[j := ph]) }
  }

  datatype Event =
    | Acquire(r: RunId) | Spawn(r: RunId) | CtxDone(r: RunId) | StopScheduling(r: RunId) | Return(r: RunId)
    | ProbeFailed(j: Job) | ProbeYes(j: Job) | ProbeNo(j: Job) | PinReturned(j: Job, ok: bool)
    | Release(j: Job) | WgDone(j: Job)

  predicate IsRunEvent(e: Event) {
    e.Acquire? || e.Spawn? || e.CtxDone? || e.StopScheduling? || e.Return?
  }

  predicate Enabled(s: State, e: Event) {
    if IsRunEvent(e) then
      && e.r in s.runs
      && var run := s.runs[e.r];
      match e
      case Acquire(r) => run.phase.Scheduling? && run.next < |run.queue| && s.tokens < s.concurrency
      case Spawn(r) => run.phase.Holding?
      case CtxDone(r) => !run.ctxDone && !run.phase.Returned?
      case StopScheduling(r) => run.phase.Scheduling? && (run.next >= |run.queue| || run.ctxDone)
      case _ => run.phase.Draining? && run.wg == 0
    else
      && e.j in s.jobs && e.j.run in s.runs
      && var ph := s.jobs[e.j];
      match e
      case PinReturned(j, ok) => ph.Pinning?
      case Release(j) => ph.Settled?
      case WgDone(j) => ph.Freed?
      case _ => ph.Probing?
  }

  /** The counter of its Run that a goroutine bumps when it settles with o. */
  function Tally(run: Run, o: Outcome): Run {
    match o
    case AlreadyPinned => run
    case ProbeError => run.(probeErrors := run.probeErrors + 1)
    case PinOk => run.(pinned := run.pinned + 1)
    case PinError => run.(failed := run.failed + 1)
  }

  /** What a Run's own entry becomes. */
  function RunAfter(s: State, e: Event): Run
    requires Enabled(s, e)
  {
    match e
    case Acquire(r) => s.runs[r].(phase := Holding)
    case Spawn(r) => s.runs[r].(phase := Scheduling, next := s.runs[r].next + 1, wg := s.runs[r].wg + 1)
    case CtxDone(r) => s.runs[r].(ctxDone := true)
    case StopScheduling(r) => s.runs[r].(phase := Draining)
    case Return(r) => s.runs[r].(phase := Returned)
    case ProbeFailed(j) => Tally(s.runs[j.run], ProbeError)
    case ProbeYes(j) => Tally(s.runs[j.run], AlreadyPinned)
    case ProbeNo(j) => s.runs[j.run]
    case PinReturned(j, ok) => Tally(s.runs[j.run], if ok then PinOk else PinError)
    case Release(j) => s.runs[j.run]
    case WgDone(j) => s.runs[j.run].(wg := s.runs[j.run].wg - 1)
  }

  function RunOf(e: Event): RunId { if IsRunEvent(e) then e.r else e.j.run }

  predicate MovesJob(e: Event) { e.Acquire? || e.Spawn? || !IsRunEvent(e) }

  /** The goroutine an event moves, and the phase it enters. */
  function JobOf(s: State, e: Event): Job
    requires Enabled(s, e) && MovesJob(e)
  {
    if IsRunEvent(e) then Job(e.r, s.runs[e.r].next) else e.j
  }

  function JobAfter(s: State, e: Event): JobPhase
    requires Enabled(s, e) && MovesJob(e)
  {
    match e
    case Acquire(_) => Acquired
    case Spawn(_) => Probing
    case ProbeFailed(_) => Settled(ProbeError)
    case ProbeYes(_) => Settled(AlreadyPinned)
    case ProbeNo(_) => Pinning
    case PinReturned(_, ok) => Settled(if ok then PinOk else PinError)
    case Release(j) => Freed(s.jobs[j].o)
    case WgDone(j) => Finished(s.jobs[j].o)
  }

  function TokensAfter(s: State, e: Event): int {
    if e.Acquire? then s.tokens + 1 else if e.Release? then s.tokens - 1 else s.tokens
  }

  function Apply(s: State, e: Event): State
    requires Enabled(s, e)
  {
    State(s.concurrency, TokensAfter(s, e), s.runs[RunOf(e) := RunAfter(s, e)],
          if MovesJob(e) then s.jobs[JobOf(s, e) := JobAfter(s, e)] else s.jobs)
  }

  ghost predicate Steps(s: State, es: seq<Event>, t: State)
    decreases |es|
  {
    if es == [] then s == t else Enabled(s, es[0]) && Steps(Apply(s, es[0]), es[1..], t)
  }

  ghost predicate IsInit(s: State) {
    && s.concurrency >= 1 && s.tokens == 0 && s.jobs == map[]
    && forall r | r in s.runs :: exists q, c :: s.runs[r] == Run(q, 0, Scheduling, c, 0, 0, 0, 0)
  }

  // ----- counting goroutines -----

  predicate Holds(ph: JobPhase) { ph.Acquired? || ph.Probing? || ph.Pinning? || ph.Settled? }

  predicate Live(ph: JobPhase) { ph.Probing? || ph.Pinning? || ph.Settled? || ph.Freed? }

  predicate Over(ph: JobPhase, o: Outcome) { (ph.Settled? || ph.Freed? || ph.Finished?) && ph.o == o }

  function HoldW(): (Job, JobPhase) -> nat { (_: Job, ph: JobPhase) => Bit(Holds(ph)) }

  function PinningW(): (Job, JobPhase) -> nat { (_: Job, ph: JobPhase) => Bit(ph.Pinning?) }

  function LiveW(r: RunId): (Job, JobPhase) -> nat { (j: Job, ph: JobPhase) => Bit(j.run == r && Live(ph)) }

  function OfW(r: RunId): (Job, JobPhase) -> nat { (j: Job, _: JobPhase) => Bit(j.run == r) }

  function OverW(r: RunId, o: Outcome): (Job, JobPhase) -> nat {
    (j: Job, ph: JobPhase) => Bit(j.run == r && Over(ph, o))
  }

  /** Goroutines of r that ended with o. */
  ghost function Ended(s: State, r: RunId, o: Outcome): nat { Sum(s.jobs, OverW(r, o)) }

  /** Each counter of a Run counts what its name says, and wg the goroutines not yet Done. */
  ghost predicate CountersOf(s: State, r: RunId)
    requires r in s.runs
  {
    var run := s.runs[r];
    && run.wg == Sum(s.jobs, LiveW(r))
    && run.pinned == Ended(s, r, PinOk)
    && run.failed == Ended(s, r, PinError)
    && run.probeErrors == Ended(s, r, ProbeError)
    && run.next + Bit(run.phase.Holding?) == Sum(s.jobs, OfW(r))
  }

  ghost predicate CountInv(s: State) {
    && s.tokens == Sum(s.jobs, HoldW())
    && forall r | r in s.runs :: CountersOf(s, r)
  }

  /** The scheduled goroutines are exactly a prefix of the queue. */
  ghost predicate ShapeInv(s: State) {
    && s.tokens <= s.concurrency
    && (forall j | j in s.jobs :: j.run in s.runs)
    && (forall j | j in s.jobs && s.jobs[j].Acquired? :: s.runs[j.run].phase.Holding? && j.index == s.runs[j.run].next)
    && (forall j | j in s.jobs && !s.jobs[j].Acquired? :: j.index < s.runs[j.run].next)
    && (forall r, i | r in s.runs && 0 <= i < s.runs[r].next :: Job(r, i) in s.jobs)
    && (forall r | r in s.runs && s.runs[r].phase.Holding? ::
          s.runs[r].next < |s.runs[r].queue| && Job(r, s.runs[r].next) in s.jobs
          && s.jobs[Job(r, s.runs[r].next)].Acquired?)
  }

  predicate PhaseOf(run: Run) {
    && run.next <= |run.queue|
    && (run.phase.Returned? ==> run.wg == 0)
    && ((run.phase.Draining? || run.phase.Returned?) && !run.ctxDone ==> run.next == |run.queue|)
  }

  ghost predicate PhaseInv(s: State) { forall r | r in s.runs :: PhaseOf(s.runs[r]) }

  ghost predicate Inv(s: State) { s.concurrency >= 1 && CountInv(s) && ShapeInv(s) && PhaseInv(s) }

  lemma InitInv(s: State)
    requires IsInit(s)
    ensures Inv(s)
  {
    SumZero(s.jobs, HoldW());
    forall r | r in s.runs ensures CountersOf(s, r) {
      SumZero(s.jobs, LiveW(r));
      SumZero(s.jobs, OfW(r));
      SumZero(s.jobs, OverW(r, PinOk));
      SumZero(s.jobs, OverW(r, PinError));
      SumZero(s.jobs, OverW(r, ProbeError));
    }
  }

  lemma StepShapeOfRun(s: State, e: Event)
    requires ShapeInv(s) && Enabled(s, e) && IsRunEvent(e)
    ensures ShapeInv(Apply(s, e))
  {
  }

  lemma StepShape(s: State, e: Event)
    requires ShapeInv(s) && Enabled(s, e) && s.tokens <= s.concurrency
    ensures ShapeInv(Apply(s, e))
  {
    if IsRunEvent(e) {
      StepShapeOfRun(s, e);
    }
  }

  lemma StepTokens(s: State, e: Event)
    requires ShapeInv(s) && Enabled(s, e) && s.tokens == Sum(s.jobs, HoldW())
    ensures Apply(s, e).tokens == Sum(Apply(s, e).jobs, HoldW())
  {
    if MovesJob(e) {
      SumUpdate(s.jobs, HoldW(), JobOf(s, e), JobAfter(s, e));
    }
  }

  /** Counts after one goroutine's phase is written. */
  lemma Recount(jobs: map<Job, JobPhase>, j: Job, ph: JobPhase, r: RunId, o: Outcome)
    ensures var had := j in jobs; var mine := j.run == r; var jobs' := jobs[j := ph];
      && Sum(jobs', LiveW(r)) + Bit(had && mine && Live(jobs[j])) == Sum(jobs, LiveW(r)) + Bit(mine && Live(ph))
      && Sum(jobs', OfW(r)) + Bit(had && mine) == Sum(jobs, OfW(r)) + Bit(mine)
      && Sum(jobs', OverW(r, o)) + Bit(had && mine && Over(jobs[j], o)) == Sum(jobs, OverW(r, o)) + Bit(mine && Over(ph, o))
  {
    SumUpdate(jobs, LiveW(r), j, ph);
    SumUpdate(jobs, OfW(r), j, ph);
    SumUpdate(jobs, OverW(r, o), j, ph);
  }

  lemma StepOutcome(s: State, e: Event, r: RunId, o: Outcome)
    requires Enabled(s, e) && MovesJob(e) && r in s.runs
    requires !IsRunEvent(e) || (e.Acquire? && JobOf(s, e) !in s.jobs)
      || (e.Spawn? && JobOf(s, e) in s.jobs && s.jobs[JobOf(s, e)].Acquired?)
    ensures var t := Apply(s, e); var run, run' := s.runs[r], t.runs[r];
      && run'.wg - run.wg == Sum(t.jobs, LiveW(r)) - Sum(s.jobs, LiveW(r))
      && run'.next + Bit(run'.phase.Holding?) - run.next - Bit(run.phase.Holding?)
         == Sum(t.jobs, OfW(r)) - Sum(s.jobs, OfW(r))
      && (o.PinOk? ==> run'.pinned - run.pinned == Ended(t, r, o) - Ended(s, r, o))
      && (o.PinError? ==> run'.failed - run.failed == Ended(t, r, o) - Ended(s, r, o))
      && (o.ProbeError? ==> run'.probeErrors - run.probeErrors == Ended(t, r, o) - Ended(s, r, o))
  {
    Recount(s.jobs, JobOf(s, e), JobAfter(s, e), r, o);
  }

  lemma StepCounters(s: State, e: Event, r: RunId)
    requires ShapeInv(s) && Enabled(s, e) && r in s.runs && CountersOf(s, r)
    ensures CountersOf(Apply(s, e), r)
  {
    if MovesJob(e) {
      StepOutcome(s, e, r, PinOk);
      StepOutcome(s, e, r, PinError);
      StepOutcome(s, e, r, ProbeError);
    }
  }

  lemma StepCount(s: State, e: Event)
    requires ShapeInv(s) && CountInv(s) && Enabled(s, e)
    ensures CountInv(Apply(s, e))
  {
    StepTokens(s, e);
    forall r | r in Apply(s, e).runs ensures CountersOf(Apply(s, e), r) {
      StepCounters(s, e, r);
    }
  }

  lemma StepPhaseOf(s: State, e: Event)
    requires Enabled(s, e) && PhaseOf(s.runs[RunOf(e)])
    requires e.Spawn? ==> s.runs[e.r].next < |s.runs[e.r].queue|
    requires e.WgDone? ==> s.runs[e.j.run].wg > 0
    ensures PhaseOf(RunAfter(s, e))
  {
  }

  lemma StepPhase(s: State, e: Event)
    requires ShapeInv(s) && CountInv(s) && PhaseInv(s) && Enabled(s, e)
    ensures PhaseInv(Apply(s, e))
  {
    hide Ended;
    if e.WgDone? {
      // A goroutine about to call Done is counted, so its Run has not returned.
      SumAtLeast(s.jobs, LiveW(e.j.run), e.j);
      assert CountersOf(s, e.j.run);
    }
    StepPhaseOf(s, e);
  }

  lemma StepInv(s: State, e: Event)
    requires Inv(s) && Enabled(s, e)
    ensures Inv(Apply(s, e))
  {
    StepShape(s, e);
    StepCount(s, e);
    StepPhase(s, e);
  }

  lemma {:induction false} StepsInv(s: State, es: seq<Event>, t: State)
    requires Inv(s) && Steps(s, es, t)
    ensures Inv(t)
    decreases |es|
  {
    if es != [] {
      StepInv(s, es[0]);
      StepsInv(Apply(s, es[0]), es[1..], t);
    }
  }

  // ----- main results -----

  ghost predicate Reachable(s: State) { exists i, es :: IsInit(i) && Steps(i, es, s) }

  lemma ReachableInv(s: State)
    requires Reachable(s)
    ensures Inv(s)
  {
    var i, es :| IsInit(i) && Steps(i, es, s);
    InitInv(i);
    StepsInv(i, es, s);
  }

  /** Over all concurrent Runs: the tokens out are exactly those of the goroutines between
      acquire and release, and never more than `concurrency` Pin calls are in progress. */
  lemma PinsAreBounded(s: State)
    requires Reachable(s)
    ensures s.tokens == Sum(s.jobs, HoldW())
    ensures Sum(s.jobs, PinningW()) <= s.tokens <= s.concurrency
  {
    ReachableInv(s);
    SumMonotone(s.jobs, PinningW(), HoldW());
  }

  lemma RunIsOver(s: State, r: RunId)
    requires Inv(s) && r in s.runs && s.runs[r].phase.Returned?
    ensures forall j | j in s.jobs && j.run == r :: s.jobs[j].Finished?
  {
    assert CountersOf(s, r) && PhaseOf(s.runs[r]);
    forall j | j in s.jobs && j.run == r ensures s.jobs[j].Finished? {
      SumAtLeast(s.jobs, LiveW(r), j);
    }
  }

  function Rank(o: Outcome): nat {
    match o case AlreadyPinned => 0 case ProbeError => 1 case PinOk => 2 case PinError => 3
  }

  function BelowW(r: RunId, k: nat): (Job, JobPhase) -> nat {
    (j: Job, ph: JobPhase) => Bit(j.run == r && ph.Finished? && Rank(ph.o) < k)
  }

  ghost function Below(s: State, r: RunId, k: nat): nat { Sum(s.jobs, BelowW(r, k)) }

  lemma RankSplit(ph: JobPhase, o: Outcome, k: nat)
    requires ph.Finished? && Rank(o) == k
    ensures Bit(Rank(ph.o) < k) + Bit(Over(ph, o)) == Bit(Rank(ph.o) < k + 1)
  {
    assert Rank(ph.o) == k <==> ph.o == o;
  }

  lemma EndedBelow(s: State, r: RunId, o: Outcome, k: nat)
    requires forall j | j in s.jobs && j.run == r :: s.jobs[j].Finished?
    requires Rank(o) == k
    ensures Below(s, r, k) + Ended(s, r, o) == Below(s, r, k + 1)
  {
    forall j | j in s.jobs
      ensures BelowW(r, k)(j, s.jobs[j]) + OverW(r, o)(j, s.jobs[j]) == BelowW(r, k + 1)(j, s.jobs[j])
    {
      if j.run == r {
        RankSplit(s.jobs[j], o, k);
      }
    }
    SumAdd(s.jobs, BelowW(r, k), OverW(r, o), BelowW(r, k + 1));
  }

  lemma BelowAll(s: State, r: RunId)
    requires forall j | j in s.jobs && j.run == r :: s.jobs[j].Finished?
    ensures Below(s, r, 0) == 0 && Below(s, r, 4) == Sum(s.jobs, OfW(r))
  {
    SumZero(s.jobs, BelowW(r, 0));
    SumMonotone(s.jobs, BelowW(r, 4), OfW(r));
    SumMonotone(s.jobs, OfW(r), BelowW(r, 4));
  }

  /** Every goroutine of a finished Run is counted under exactly one outcome. */
  lemma EndedAddUp(s: State, r: RunId)
    requires forall j | j in s.jobs && j.run == r :: s.jobs[j].Finished?
    ensures Ended(s, r, AlreadyPinned) + Ended(s, r, ProbeError) + Ended(s, r, PinOk) + Ended(s, r, PinError)
      == Sum(s.jobs, OfW(r))
  {
    BelowAll(s, r);
    EndedBelow(s, r, AlreadyPinned, 0);
    EndedBelow(s, r, ProbeError, 1);
    EndedBelow(s, r, PinOk, 2);
    EndedBelow(s, r, PinError, 3);
  }

  /** When a Run returns, its pool has drained (every goroutine it started is over, so every
      token it took is back), and its report accounts for each scheduled item exactly once:
      the scheduled items are a prefix of its queue, the whole queue unless its context was
      cancelled. */
  lemma ReturnedRunAccounts(s: State, r: RunId)
    requires Reachable(s) && r in s.runs && s.runs[r].phase.Returned?
    ensures var run := s.runs[r];
      && (forall j | j in s.jobs && j.run == r :: s.jobs[j].Finished? && j.index < run.next)
      && (forall i | 0 <= i < run.next :: Job(r, i) in s.jobs)
      && run.pinned + run.failed + run.probeErrors + Ended(s, r, AlreadyPinned) == run.next <= |run.queue|
      && (!run.ctxDone ==> run.next == |run.queue|)
  {
    ReachableInv(s);
    assert CountersOf(s, r) && PhaseOf(s.runs[r]);
    RunIsOver(s, r);
    EndedAddUp(s, r);
  }

  /** j has not been probed yet. */
  predicate Unprobed(s: State, j: Job) { j !in s.jobs || s.jobs[j].Acquired? || s.jobs[j].Probing? }

  /** j's probe said "not pinned". */
  predicate Attempted(s: State, j: Job) {
    j in s.jobs && (s.jobs[j].Pinning? || Over(s.jobs[j], PinOk) || Over(s.jobs[j], PinError))
  }

  lemma {:induction false} ProbedOnce(s: State, es: seq<Event>, t: State, j: Job)
    requires Inv(s) && Steps(s, es, t) && !Unprobed(s, j)
    ensures !Unprobed(t, j) && (Attempted(t, j) <==> Attempted(s, j))
    ensures ProbeNo(j) !in es && ProbeYes(j) !in es && ProbeFailed(j) !in es
    ensures forall o: Outcome | o.AlreadyPinned? || o.ProbeError? :: Over(t.jobs[j], o) <==> Over(s.jobs[j], o)
    decreases |es|
  {
    hide Apply, Enabled, Attempted, Unprobed, Over, CountInv, ShapeInv, PhaseInv;
    if es != [] {
      var s' := Apply(s, es[0]);
      StepInv(s, es[0]);
      KeepsProbe(s, es[0], j);
      ProbedOnce(s', es[1..], t, j);
      assert es == [es[0]] + es[1..];
    }
  }

  lemma KeepsProbe(s: State, e: Event, j: Job)
    requires ShapeInv(s) && Enabled(s, e) && !Unprobed(s, j)
    ensures var t := Apply(s, e);
      && !Unprobed(t, j) && (Attempted(t, j) <==> Attempted(s, j))
      && forall o: Outcome | o.AlreadyPinned? || o.ProbeError? :: Over(t.jobs[j], o) <==> Over(s.jobs[j], o)
    ensures e != ProbeNo(j) && e != ProbeYes(j) && e != ProbeFailed(j)
  {
  }

  lemma ProbeStep(s: State, e: Event, j: Job)
    requires ShapeInv(s) && Enabled(s, e) && Unprobed(s, j)
    ensures var t := Apply(s, e);
      && (Attempted(t, j) <==> e == ProbeNo(j))
      && (Unprobed(t, j) <==> e != ProbeNo(j) && e != ProbeYes(j) && e != ProbeFailed(j))
      && (j in t.jobs && Over(t.jobs[j], AlreadyPinned) <==> e == ProbeYes(j))
      && (j in t.jobs && Over(t.jobs[j], ProbeError) <==> e == ProbeFailed(j))
  {
  }

  /** The probe decides: Pin is attempted for an item exactly when its probe answered "not
      pinned", and the two other answers end the item without a Pin call, each under its
      own heading. */
  lemma {:induction false} ProbeDecides(s: State, es: seq<Event>, t: State, j: Job)
    requires Inv(s) && Steps(s, es, t) && Unprobed(s, j)
    ensures Attempted(t, j) <==> ProbeNo(j) in es
    ensures j in t.jobs && Over(t.jobs[j], AlreadyPinned) <==> ProbeYes(j) in es
    ensures j in t.jobs && Over(t.jobs[j], ProbeError) <==> ProbeFailed(j) in es
    decreases |es|
  {
    hide Apply, Enabled, CountInv, ShapeInv, PhaseInv;
    if es != [] {
      var s' := Apply(s, es[0]);
      StepInv(s, es[0]);
      ProbeStep(s, es[0], j);
      assert es == [es[0]] + es[1..];
      if Unprobed(s', j) {
        ProbeDecides(s', es[1..], t, j);
      } else {
        ProbedOnce(s', es[1..], t, j);
      }
    }
  }

  function CidsOf(items: seq<Discovery.Item>): seq<string> {
    seq(|items|, i requires 0 <= i < |items| => items[i].cid)
  }

  /** The report of a Run over items: what it pinned, failed on, could not probe or found
      pinned is at most Matched - Shed, and exactly that if its context was not cancelled. */
  lemma ReportAgainstMatched(s: State, r: RunId, items: seq<Discovery.Item>, cap: nat)
    requires Reachable(s) && r in s.runs && s.runs[r].phase.Returned?
    requires s.runs[r].queue == CidsOf(Admission.Admitted(items, cap))
    ensures var run := s.runs[r];
      var shed := Sum(Admission.PerAuthor(items), Admission.Excess(cap));
      var reported := run.pinned + run.failed + run.probeErrors + Ended(s, r, AlreadyPinned);
      && reported <= |items| - shed
      && (!run.ctxDone ==> reported == |items| - shed)
  {
    ReturnedRunAccounts(s, r);
    Admission.ShedClosedForm(items, cap);
  }

  ghost predicate AllReturned(s: State) { forall r | r in s.runs :: s.runs[r].phase.Returned? }

  /** The semaphore is empty once every Run has returned. */
  lemma SemaphoreComesBackEmpty(s: State)
    requires Reachable(s) && AllReturned(s)
    ensures s.tokens == 0
  {
    ReachableInv(s);
    forall j | j in s.jobs ensures HoldW()(j, s.jobs[j]) == 0 {
      RunIsOver(s, j.run);
    }
    SumZero(s.jobs, HoldW());
  }

  // ----- termination -----

  function RunWork(run: Run): nat {
    Bit(!run.ctxDone) +
    match run.phase
    case Returned => 0
    case Draining => 1
    case Holding => if run.next < |run.queue| then 8 * (|run.queue| - run.next) - 4 else 2
    case Scheduling => if run.next < |run.queue| then 8 * (|run.queue| - run.next) + 2 else 2
  }

  function JobWork(ph: JobPhase): nat {
    match ph
    case Acquired => 5
    case Probing => 4
    case Pinning => 3
    case Settled(_) => 2
    case Freed(_) => 1
    case Finished(_) => 0
  }

  function RunWorkW(): (RunId, Run) -> nat { (_: RunId, run: Run) => RunWork(run) }

  function JobWorkW(): (Job, JobPhase) -> nat { (_: Job, ph: JobPhase) => JobWork(ph) }

  /** Work left: it drops on every step, whatever the interleaving. */
  ghost function Work(s: State): nat { Sum(s.runs, RunWorkW()) + Sum(s.jobs, JobWorkW()) }

  lemma WorkDrops(s: State, e: Event)
    requires Enabled(s, e)
    requires e.Acquire? ==> JobOf(s, e) !in s.jobs
    requires e.Spawn? ==> s.runs[e.r].next < |s.runs[e.r].queue| && JobOf(s, e) in s.jobs && s.jobs[JobOf(s, e)].Acquired?
    ensures RunWork(RunAfter(s, e)) + (if MovesJob(e) then JobWork(JobAfter(s, e)) else 0)
      < RunWork(s.runs[RunOf(e)]) + (if MovesJob(e) && JobOf(s, e) in s.jobs then JobWork(s.jobs[JobOf(s, e)]) else 0)
  {
  }

  lemma StepWork(s: State, e: Event)
    requires ShapeInv(s) && Enabled(s, e)
    ensures Work(Apply(s, e)) < Work(s)
  {
    WorkDrops(s, e);
    SumUpdate(s.runs, RunWorkW(), RunOf(e), RunAfter(s, e));
    if MovesJob(e) {
      SumUpdate(s.jobs, JobWorkW(), JobOf(s, e), JobAfter(s, e));
    }
  }

  lemma {:induction false} RunsAreShort(s: State, es: seq<Event>, t: State)
    requires Inv(s) && Steps(s, es, t)
    ensures |es| + Work(t) <= Work(s)
    decreases |es|
  {
    if es != [] {
      StepInv(s, es[0]);
      StepWork(s, es[0]);
      RunsAreShort(Apply(s, es[0]), es[1..], t);
    }
  }

  /** The next step of a goroutine that is not over; none of them takes a token. */
  function NextOfJob(s: State, j: Job): Event
    requires j in s.jobs
  {
    match s.jobs[j]
    case Acquired => Spawn(j.run)
    case Probing => ProbeNo(j)
    case Pinning => PinReturned(j, true)
    case Settled(_) => Release(j)
    case _ => WgDone(j)
  }

  lemma JobCanStep(s: State, j: Job)
    requires ShapeInv(s) && j in s.jobs && !s.jobs[j].Finished?
    ensures exists e :: Enabled(s, e)
  {
    assert Enabled(s, NextOfJob(s, j));
  }

  /** With no goroutine left every token is free, so a scheduler can take one. */
  lemma RunCanStep(s: State, r: RunId)
    requires Inv(s) && r in s.runs && !s.runs[r].phase.Returned?
    requires forall j | j in s.jobs :: s.jobs[j].Finished?
    ensures exists e :: Enabled(s, e)
  {
    SumZero(s.jobs, HoldW());
    SumZero(s.jobs, LiveW(r));
    assert CountersOf(s, r) && !s.runs[r].phase.Holding?;
    var e := if s.runs[r].phase.Draining? then Return(r)
             else if s.runs[r].next < |s.runs[r].queue| then Acquire(r)
             else StopScheduling(r);
    assert Enabled(s, e);
  }

  lemma SomethingCanStep(s: State)
    requires Inv(s) && !AllReturned(s)
    ensures exists e :: Enabled(s, e)
  {
    if j :| j in s.jobs && !s.jobs[j].Finished? {
      JobCanStep(s, j);
    } else {
      var r :| r in s.runs && !s.runs[r].phase.Returned?;
      RunCanStep(s, r);
    }
  }

  /** All Runs return. Every execution is at most as long as the initial work, and one that
      cannot be extended has every Run returned and the semaphore empty. */
  lemma AllRunsReturn(i: State, es: seq<Event>, s: State)
    requires IsInit(i) && Steps(i, es, s)
    ensures |es| <= Work(i)
    ensures (forall e :: !Enabled(s, e)) ==> AllReturned(s) && s.tokens == 0
  {
    InitInv(i);
    StepsInv(i, es, s);
    RunsAreShort(i, es, s);
    if !AllReturned(s) {
      SomethingCanStep(s);
    } else {
      SemaphoreComesBackEmpty(s);
    }
  }

  /** The clamp to at least one token is what this rests on: with none, a Run with work to
      do is stuck for as long as its context lives. */
  lemma NoTokensNoProgress(q: seq<string>)
    requires |q| > 0
    ensures var s := State(0, 0, map[0 := Run(q, 0, Scheduling, false, 0, 0, 0, 0)], map[]);
      !AllReturned(s) && forall e | Enabled(s, e) :: e == CtxDone(0)
  {
    var s := State(0, 0, map[0 := Run(q, 0, Scheduling, false, 0, 0, 0, 0)], map[]);
    assert s.runs[0].phase == Scheduling;
  }
}

/** Pin, Drain and Close as a step system: any number of Pin and Drain calls, any
    interleaving, one lock (drainMu), one channel (done) and one WaitGroup. A step is one
    source operation, so a Pin that has read `done` and not yet added to the WaitGroup is
    a state of its own, and Close, which takes no lock, can run in between. */
module DrainProtocol {
  import opened Basics
  import opened DrainGate
  import opened Sums

  type DrainCall = nat
  type Cid = string

  datatype PinPhase =
    | AtGate                       // holds drainMu, done not read yet
    | Passed                       // holds drainMu, saw done open
    | Added                        // holds drainMu, inFlight.Add(1) done
    | Body(id: nat)                // registered under id, lock released, fetching
    | Leaving(id: nat)             // body over, deferred cleanup about to lock
    | Unregistering(id: nat)       // holds drainMu in the cleanup
    | Unregistered                 // deleted from cancels, still counted
    | Released                     // pinCancel called, still counted
    | Returned
    | Rejected                     // ErrPinnerShuttingDown

  datatype Pin = Pin(cid: Cid, phase: PinPhase)

  datatype DrainPhase =
    | Locked                       // holds drainMu, done not closed by this call yet
    | Signalled                    // holds drainMu, done closed
    | Waiting                      // section left, waiting for finished or ctx.Done
    | Expired                      // ctx.Done seen, about to lock
    | Forcing(called: set<nat>)    // holds drainMu, calling the cancel functions one by one
    | Grace                        // section left, waiting for finished or two seconds
    | ReturnedNil
    | ReturnedErr

  /** finished: this call's waiter goroutine has seen inFlight.Wait() return. */
  datatype Drain = Drain(phase: DrainPhase, finished: bool)

  datatype Holder = Free | ByPin(p: PinCall) | ByDrain(d: DrainCall)

  datatype State = State(
    zone: Zone,
    mu: Holder,
    pins: map<PinCall, Pin>,
    drains: map<DrainCall, Drain>,
    cancelled: set<PinCall>,
    pinned: set<Cid>)
  {
    function PinTo(q: PinCall, ph: PinPhase): State
      requires q in pins
    {
      this.(pins := pins[q := pins[q].(phase := ph)])
    }

    function DrainTo(d: DrainCall, ph: DrainPhase): State
      requires d in drains
    {
      this.(drains := drains[d := drains[d].(phase := ph)])
    }

    predicate PinAt(p: PinCall, ph: PinPhase) { p in pins && pins[p].phase == ph }

    predicate DrainAt(d: DrainCall, ph: DrainPhase) { d in drains && drains[d].phase == ph }
  }

  datatype Event =
    | PinLock(p: PinCall, cid: Cid) | PinReject(p: PinCall) | PinPass(p: PinCall)
    | PinAdd(p: PinCall) | PinRegister(p: PinCall)
    | PinMark(p: PinCall) | PinFail(p: PinCall)
    | PinRelock(p: PinCall) | PinDelete(p: PinCall) | PinCancel(p: PinCall) | PinDone(p: PinCall)
    | DrainLock(d: DrainCall) | DrainSignal(d: DrainCall) | DrainUnlock(d: DrainCall)
    | WaitReturns(d: DrainCall) | DrainNil(d: DrainCall)
    | DrainExpire(d: DrainCall) | DrainRelock(d: DrainCall) | DrainCancel(d: DrainCall, id: nat)
    | DrainReunlock(d: DrainCall) | DrainErr(d: DrainCall)
    | CloseSignal
    | Unpin(cid: Cid)

  const Init := State(Zone(false, 0, 0, map[]), Free, map[], map[], {}, {})

  predicate IsBody(s: State, p: PinCall) { p in s.pins && s.pins[p].phase.Body? }

  predicate IsForcing(s: State, d: DrainCall) { d in s.drains && s.drains[d].phase.Forcing? }

  /** The drain has left its first drainMu section. */
  predicate PastSection(ph: DrainPhase) { !ph.Locked? && !ph.Signalled? }

  predicate Enabled(s: State, e: Event) {
    match e
    case PinLock(p, _) => p !in s.pins && s.mu == Free
    case PinReject(p) => s.PinAt(p, AtGate) && s.zone.done
    case PinPass(p) => s.PinAt(p, AtGate) && !s.zone.done
    case PinAdd(p) => s.PinAt(p, Passed)
    case PinRegister(p) => s.PinAt(p, Added)
    case PinMark(p) => IsBody(s, p)
    case PinFail(p) => IsBody(s, p)
    case PinRelock(p) => p in s.pins && s.pins[p].phase.Leaving? && s.mu == Free
    case PinDelete(p) => p in s.pins && s.pins[p].phase.Unregistering?
    case PinCancel(p) => s.PinAt(p, Unregistered)
    case PinDone(p) => s.PinAt(p, Released)
    case DrainLock(d) => d !in s.drains && s.mu == Free
    case DrainSignal(d) => s.DrainAt(d, Locked)
    case DrainUnlock(d) => s.DrainAt(d, Signalled)
    case WaitReturns(d) => d in s.drains && PastSection(s.drains[d].phase) && s.zone.inFlight == 0
    case DrainNil(d) => s.DrainAt(d, Waiting) && s.drains[d].finished
    case DrainExpire(d) => s.DrainAt(d, Waiting)
    case DrainRelock(d) => s.DrainAt(d, Expired) && s.mu == Free
    case DrainCancel(d, id) => IsForcing(s, d) && id in s.zone.cancels && id !in s.drains[d].phase.called
    case DrainReunlock(d) => IsForcing(s, d) && s.zone.cancels.Keys <= s.drains[d].phase.called
    case DrainErr(d) => s.DrainAt(d, Grace)
    case CloseSignal => true
    case Unpin(_) => true
  }

  function Apply(s: State, e: Event): State
    requires Enabled(s, e)
  {
    match e
    case PinLock(p, cid) => s.(mu := ByPin(p), pins := s.pins[p := Pin(cid, AtGate)])
    case PinReject(p) => s.PinTo(p, Rejected).(mu := Free)
    case PinPass(p) => s.PinTo(p, Passed)
    case PinAdd(p) => s.PinTo(p, Added).(zone := s.zone.Add())
    case PinRegister(p) => s.PinTo(p, Body(s.zone.nextPinID + 1)).(zone := s.zone.Register(p), mu := Free)
    case PinMark(p) => s.PinTo(p, Leaving(s.pins[p].phase.id)).(pinned := s.pinned + {s.pins[p].cid})
    case PinFail(p) => s.PinTo(p, Leaving(s.pins[p].phase.id))
    case PinRelock(p) => s.PinTo(p, Unregistering(s.pins[p].phase.id)).(mu := ByPin(p))
    case PinDelete(p) => s.PinTo(p, Unregistered).(zone := s.zone.Delete(s.pins[p].phase.id), mu := Free)
    case PinCancel(p) => s.PinTo(p, Released).(cancelled := s.cancelled + {p})
    case PinDone(p) => s.PinTo(p, Returned).(zone := s.zone.Done())
    case DrainLock(d) => s.(mu := ByDrain(d), drains := s.drains[d := Drain(Locked, false)])
    case DrainSignal(d) => s.DrainTo(d, Signalled).(zone := s.zone.Signal())
    case DrainUnlock(d) => s.DrainTo(d, Waiting).(mu := Free)
    case WaitReturns(d) => s.(drains := s.drains[d := s.drains[d].(finished := true)])
    case DrainNil(d) => s.DrainTo(d, ReturnedNil)
    case DrainExpire(d) => s.DrainTo(d, Expired)
    case DrainRelock(d) => s.DrainTo(d, Forcing({})).(mu := ByDrain(d))
    case DrainCancel(d, id) =>
      s.DrainTo(d, Forcing(s.drains[d].phase.called + {id})).(cancelled := s.cancelled + {s.zone.cancels[id]})
    case DrainReunlock(d) => s.DrainTo(d, Grace).(mu := Free)
    case DrainErr(d) => s.DrainTo(d, ReturnedErr)
    case CloseSignal => s.(zone := s.zone.Signal())
    case Unpin(cid) => s.(pinned := s.pinned - {cid})
  }

  /** es takes s to t. */
  ghost predicate Run(s: State, es: seq<Event>, t: State)
    decreases |es|
  {
    if es == [] then s == t else Enabled(s, es[0]) && Run(Apply(s, es[0]), es[1..], t)
  }

  // ----- the invariant -----

  predicate HoldsLock(ph: PinPhase) { ph.AtGate? || ph.Passed? || ph.Added? || ph.Unregistering? }

  predicate DrainHoldsLock(ph: DrainPhase) { ph.Locked? || ph.Signalled? || ph.Forcing? }

  /** Between inFlight.Add(1) and inFlight.Done(). */
  predicate InFlight(ph: PinPhase) { !ph.AtGate? && !ph.Passed? && !ph.Returned? && !ph.Rejected? }

  predicate Registered(ph: PinPhase) { ph.Body? || ph.Leaving? || ph.Unregistering? }

  function InFlightWeight(): (PinCall, Pin) -> nat { (_: PinCall, c: Pin) => if InFlight(c.phase) then 1 else 0 }

  function RegisteredWeight(): (PinCall, Pin) -> nat { (_: PinCall, c: Pin) => if Registered(c.phase) then 1 else 0 }

  ghost predicate LockInv(s: State) {
    && (forall p | p in s.pins :: HoldsLock(s.pins[p].phase) <==> s.mu == ByPin(p))
    && (forall d | d in s.drains :: DrainHoldsLock(s.drains[d].phase) <==> s.mu == ByDrain(d))
    && (s.mu.ByPin? ==> s.mu.p in s.pins)
    && (s.mu.ByDrain? ==> s.mu.d in s.drains)
  }

  ghost predicate CountInv(s: State) {
    && s.zone.inFlight == Sum(s.pins, InFlightWeight())
    && |s.zone.cancels| == Sum(s.pins, RegisteredWeight())
  }

  /** cancels holds exactly the registered Pins, each under its own id. */
  ghost predicate CancelInv(s: State) {
    && (forall id | id in s.zone.cancels ::
          && 1 <= id <= s.zone.nextPinID
          && s.zone.cancels[id] in s.pins
          && Registered(s.pins[s.zone.cancels[id]].phase)
          && s.pins[s.zone.cancels[id]].phase.id == id)
    && (forall p | p in s.pins && Registered(s.pins[p].phase) ::
          s.pins[p].phase.id in s.zone.cancels && s.zone.cancels[s.pins[p].phase.id] == p)
  }

  ghost predicate GateShut(s: State) {
    s.zone.done && forall p | p in s.pins :: !s.pins[p].phase.Passed? && !s.pins[p].phase.Added?
  }

  /** Every counted Pin is cancelled or already unregistered by its own cleanup. */
  ghost predicate AllReached(s: State) {
    forall p | p in s.pins && InFlight(s.pins[p].phase) ::
      p in s.cancelled || s.pins[p].phase.Unregistered? || s.pins[p].phase.Released?
  }

  predicate PastForce(ph: DrainPhase) { ph.Grace? || ph.ReturnedErr? }

  ghost predicate DrainInv(s: State, d: DrainCall)
    requires d in s.drains
  {
    var ph := s.drains[d].phase;
    && (ph.Signalled? ==> s.zone.done)
    && (PastSection(ph) ==> GateShut(s))
    && (s.drains[d].finished ==> PastSection(ph) && s.zone.inFlight == 0)
    && (ph.ReturnedNil? ==> s.drains[d].finished)
    && (ph.Forcing? ==> forall id | id in ph.called && id in s.zone.cancels :: s.zone.cancels[id] in s.cancelled)
    && (PastForce(ph) ==> AllReached(s))
  }

  ghost predicate Inv(s: State) {
    && LockInv(s) && CountInv(s) && CancelInv(s)
    && forall d | d in s.drains :: DrainInv(s, d)
  }

  /** Events that move one Pin, e.p. */
  predicate IsPinEvent(e: Event) {
    e.PinLock? || e.PinReject? || e.PinPass? || e.PinAdd? || e.PinRegister? || e.PinMark? || e.PinFail?
    || e.PinRelock? || e.PinDelete? || e.PinCancel? || e.PinDone?
  }

  lemma StepLockOfPin(s: State, e: Event)
    requires LockInv(s) && Enabled(s, e) && IsPinEvent(e)
    ensures LockInv(Apply(s, e))
  {
  }

  lemma StepLock(s: State, e: Event)
    requires LockInv(s) && Enabled(s, e)
    ensures LockInv(Apply(s, e))
  {
    if IsPinEvent(e) {
      StepLockOfPin(s, e);
    }
  }

  lemma SizeInsert(m: map<nat, PinCall>, k: nat, v: PinCall)
    requires k !in m
    ensures |m[k := v]| == |m| + 1
  {
    assert m[k := v].Keys == m.Keys + {k};
  }

  lemma SizeDelete(m: map<nat, PinCall>, k: nat)
    requires k in m
    ensures |m - {k}| == |m| - 1
  {
    assert m.Keys == (m - {k}).Keys + {k};
  }

  lemma Recount(pins: map<PinCall, Pin>, p: PinCall, c: Pin)
    ensures var had := p in pins;
      && Sum(pins[p := c], InFlightWeight()) + Bit(had && InFlight(pins[p].phase))
         == Sum(pins, InFlightWeight()) + Bit(InFlight(c.phase))
      && Sum(pins[p := c], RegisteredWeight()) + Bit(had && Registered(pins[p].phase))
         == Sum(pins, RegisteredWeight()) + Bit(Registered(c.phase))
  {
    SumUpdate(pins, InFlightWeight(), p, c);
    SumUpdate(pins, RegisteredWeight(), p, c);
  }

  /** What one Pin step does to the counter and to cancels matches the phase it enters. */
  lemma StepSizes(s: State, e: Event)
    requires Enabled(s, e) && IsPinEvent(e)
    requires e.PinRegister? ==> s.zone.nextPinID + 1 !in s.zone.cancels
    requires e.PinDelete? ==> s.pins[e.p].phase.id in s.zone.cancels
    ensures var t := Apply(s, e); var had := e.p in s.pins; var c := t.pins[e.p];
      && t.pins == s.pins[e.p := c]
      && t.zone.inFlight + Bit(had && InFlight(s.pins[e.p].phase)) == s.zone.inFlight + Bit(InFlight(c.phase))
      && |t.zone.cancels| + Bit(had && Registered(s.pins[e.p].phase))
         == |s.zone.cancels| + Bit(Registered(c.phase))
  {
    if e.PinDelete? {
      SizeDelete(s.zone.cancels, s.pins[e.p].phase.id);
    } else if e.PinRegister? {
      SizeInsert(s.zone.cancels, s.zone.nextPinID + 1, e.p);
    }
  }

  lemma StepCount(s: State, e: Event)
    requires CountInv(s) && CancelInv(s) && Enabled(s, e)
    ensures CountInv(Apply(s, e))
  {
    if IsPinEvent(e) {
      StepSizes(s, e);
      Recount(s.pins, e.p, Apply(s, e).pins[e.p]);
    }
  }

  lemma StepCancels(s: State, e: Event)
    requires CancelInv(s) && Enabled(s, e)
    ensures CancelInv(Apply(s, e))
  {
    var t := Apply(s, e);
    if IsPinEvent(e) {
      forall id | id in t.zone.cancels
        ensures
          && 1 <= id <= t.zone.nextPinID && t.zone.cancels[id] in t.pins
          && Registered(t.pins[t.zone.cancels[id]].phase) && t.pins[t.zone.cancels[id]].phase.id == id
      {
      }
      forall p | p in t.pins && Registered(t.pins[p].phase)
        ensures t.pins[p].phase.id in t.zone.cancels && t.zone.cancels[t.pins[p].phase.id] == p
      {
        if p != e.p {
          assert p in s.pins && t.pins[p] == s.pins[p];
        }
      }
    }
  }

  lemma NoneInFlight(s: State)
    requires CountInv(s) && s.zone.inFlight == 0
    ensures forall p | p in s.pins :: !InFlight(s.pins[p].phase)
  {
    forall p | p in s.pins ensures !InFlight(s.pins[p].phase) {
      SumAtLeast(s.pins, InFlightWeight(), p);
    }
  }

  /** Once shut, the gate stays shut; a drain shuts it by leaving its section. */
  lemma StepGate(s: State, e: Event)
    requires LockInv(s) && Enabled(s, e)
    requires GateShut(s) || (e.DrainUnlock? && s.zone.done)
    ensures GateShut(Apply(s, e))
  {
  }

  /** Past the gate no Pin becomes in flight, and one that leaves was in flight. */
  lemma StepShutInFlight(s: State, e: Event)
    requires GateShut(s) && Enabled(s, e)
    ensures var t := Apply(s, e);
      forall p | p in t.pins && InFlight(t.pins[p].phase) :: p in s.pins && InFlight(s.pins[p].phase)
    ensures Apply(s, e).zone.inFlight <= s.zone.inFlight
    ensures Apply(s, e).zone.nextPinID == s.zone.nextPinID
  {
  }

  lemma StepReached(s: State, e: Event)
    requires GateShut(s) && Enabled(s, e) && AllReached(s)
    ensures AllReached(Apply(s, e))
  {
  }

  /** Leaving the force-cancel section: nobody else holds the lock, so every counted Pin
      is either registered, and then its cancel function has been called, or past that. */
  lemma StepForced(s: State, d: DrainCall)
    requires LockInv(s) && CancelInv(s) && GateShut(s) && Enabled(s, DrainReunlock(d))
    requires forall id | id in s.drains[d].phase.called && id in s.zone.cancels :: s.zone.cancels[id] in s.cancelled
    ensures AllReached(Apply(s, DrainReunlock(d)))
  {
  }

  lemma StepDrains(s: State, e: Event, d: DrainCall)
    requires Inv(s) && Enabled(s, e) && d in Apply(s, e).drains
    ensures DrainInv(Apply(s, e), d)
  {
    var t := Apply(s, e);
    if d in s.drains {
      assert DrainInv(s, d);
      if PastSection(t.drains[d].phase) {
        StepGate(s, e);
      }
      if s.drains[d].finished {
        NoneInFlight(s);
      }
      StepDrainsForce(s, e, d);
      StepDrainsFinished(s, e, d);
    }
  }

  lemma StepDrainsForce(s: State, e: Event, d: DrainCall)
    requires LockInv(s) && CancelInv(s) && d in s.drains && DrainInv(s, d) && Enabled(s, e)
    ensures var t := Apply(s, e); var ph := t.drains[d].phase;
      && (PastForce(ph) ==> AllReached(t))
      && (ph.Forcing? ==> forall id | id in ph.called && id in t.zone.cancels :: t.zone.cancels[id] in t.cancelled)
  {
    var t := Apply(s, e);
    if PastForce(t.drains[d].phase) {
      if PastForce(s.drains[d].phase) {
        StepReached(s, e);
      } else {
        StepForced(s, d);
      }
    }
  }

  lemma StepDrainsFinished(s: State, e: Event, d: DrainCall)
    requires CountInv(s) && d in s.drains && DrainInv(s, d) && Enabled(s, e)
    ensures var t := Apply(s, e); var ph := t.drains[d].phase;
      && (ph.Signalled? ==> t.zone.done)
      && (t.drains[d].finished ==> PastSection(ph) && t.zone.inFlight == 0)
      && (ph.ReturnedNil? ==> t.drains[d].finished)
  {
    if s.drains[d].finished {
      NoneInFlight(s);
      StepShutInFlight(s, e);
    }
  }

  lemma StepInv(s: State, e: Event)
    requires Inv(s) && Enabled(s, e)
    ensures Inv(Apply(s, e))
  {
    StepLock(s, e);
    StepCount(s, e);
    StepCancels(s, e);
    forall d | d in Apply(s, e).drains ensures DrainInv(Apply(s, e), d) {
      StepDrains(s, e, d);
    }
  }

  /** Every state of every run from the initial state satisfies the invariant. */
  lemma {:induction false} RunInv(s: State, es: seq<Event>, t: State)
    requires Inv(s) && Run(s, es, t)
    ensures Inv(t)
    decreases |es|
  {
    if es != [] {
      StepInv(s, es[0]);
      RunInv(Apply(s, es[0]), es[1..], t);
    }
  }

  // ----- main results -----

  lemma InitInv()
    ensures Inv(Init)
  {
    SumZero(Init.pins, InFlightWeight());
    SumZero(Init.pins, RegisteredWeight());
  }

  ghost predicate Reachable(s: State) { exists es :: Run(Init, es, s) }

  lemma ReachableInv(s: State)
    requires Reachable(s)
    ensures Inv(s)
  {
    var es :| Run(Init, es, s);
    InitInv();
    RunInv(Init, es, s);
  }

  /** How many times inFlight.Add(1) runs in es. */
  function Adds(es: seq<Event>): nat {
    if es == [] then 0 else Bit(es[0].PinAdd?) + Adds(es[1..])
  }

  lemma {:induction false} ShutRun(s: State, es: seq<Event>, t: State)
    requires LockInv(s) && GateShut(s) && Run(s, es, t)
    ensures GateShut(t) && Adds(es) == 0
    ensures t.zone.nextPinID == s.zone.nextPinID && t.zone.inFlight <= s.zone.inFlight
    decreases |es|
  {
    if es != [] {
      StepLock(s, es[0]);
      StepGate(s, es[0]);
      StepShutInFlight(s, es[0]);
      ShutRun(Apply(s, es[0]), es[1..], t);
    }
  }

  /** Once any Drain has left its drainMu section, whatever runs next, no Pin ever adds to
      the WaitGroup: no Add follows a Wait, no id is handed out and the count only falls. */
  lemma GateIsFinal(s: State, d: DrainCall, es: seq<Event>, t: State)
    requires Reachable(s) && d in s.drains && PastSection(s.drains[d].phase)
    requires Run(s, es, t)
    ensures Adds(es) == 0
    ensures t.zone.nextPinID == s.zone.nextPinID && 0 <= t.zone.inFlight <= s.zone.inFlight
  {
    ReachableInv(s);
    assert DrainInv(s, d);
    ShutRun(s, es, t);
    RunInv(s, es, t);
  }

  ghost predicate Quiet(s: State) {
    GateShut(s) && forall p | p in s.pins :: !InFlight(s.pins[p].phase)
  }

  lemma StepQuiet(s: State, e: Event)
    requires LockInv(s) && Quiet(s) && Enabled(s, e)
    ensures Quiet(Apply(s, e)) && Apply(s, e).pinned <= s.pinned
  {
    StepGate(s, e);
    StepShutInFlight(s, e);
  }

  lemma {:induction false} QuietRun(s: State, es: seq<Event>, t: State)
    requires LockInv(s) && Quiet(s) && Run(s, es, t)
    ensures Quiet(t) && t.pinned <= s.pinned
    decreases |es|
  {
    if es != [] {
      StepLock(s, es[0]);
      StepQuiet(s, es[0]);
      QuietRun(Apply(s, es[0]), es[1..], t);
    }
  }

  /** After a Drain has returned nil, in that state and every later one no Pin is in flight,
      the count is zero, and the pin set can only shrink. */
  lemma DrainNilIsQuiet(s: State, d: DrainCall, es: seq<Event>, t: State)
    requires Reachable(s) && s.DrainAt(d, ReturnedNil)
    requires Run(s, es, t)
    ensures forall p | p in t.pins :: !InFlight(t.pins[p].phase)
    ensures t.zone.inFlight == 0 && t.zone.cancels == map[]
    ensures t.pinned <= s.pinned
  {
    ReachableInv(s);
    assert DrainInv(s, d);
    NoneInFlight(s);
    QuietRun(s, es, t);
    RunInv(s, es, t);
    SumZero(t.pins, InFlightWeight());
    SumZero(t.pins, RegisteredWeight());
  }

  lemma {:induction false} CidKept(s: State, es: seq<Event>, t: State, p: PinCall)
    requires Run(s, es, t) && p in s.pins
    ensures p in t.pins && t.pins[p].cid == s.pins[p].cid
    decreases |es|
  {
    if es != [] {
      CidKept(Apply(s, es[0]), es[1..], t, p);
    }
  }

  lemma {:induction false} ReachedRun(s: State, es: seq<Event>, t: State)
    requires LockInv(s) && GateShut(s) && AllReached(s) && Run(s, es, t)
    ensures AllReached(t)
    decreases |es|
  {
    if es != [] {
      StepLock(s, es[0]);
      StepGate(s, es[0]);
      StepReached(s, es[0]);
      ReachedRun(Apply(s, es[0]), es[1..], t);
    }
  }

  /** After a Drain's force-cancel section, then and in every later state, a Pin that is
      still counted has had its cancel function called or has unregistered itself. */
  lemma ForceCancelReachesAll(s: State, d: DrainCall, es: seq<Event>, t: State)
    requires Reachable(s) && d in s.drains && PastForce(s.drains[d].phase)
    requires Run(s, es, t)
    ensures forall p | p in t.pins && InFlight(t.pins[p].phase) ::
      p in t.cancelled || t.pins[p].phase.Unregistered? || t.pins[p].phase.Released?
  {
    ReachableInv(s);
    assert DrainInv(s, d);
    ReachedRun(s, es, t);
  }

  /** In every reachable state cancels is exactly the registered Pins under their own ids,
      all handed out already, and never outnumbers the WaitGroup count. */
  lemma CancelsAreRegisteredPins(s: State)
    requires Reachable(s)
    ensures forall id, p :: (id in s.zone.cancels && s.zone.cancels[id] == p) <==>
      (p in s.pins && Registered(s.pins[p].phase) && s.pins[p].phase.id == id)
    ensures forall id | id in s.zone.cancels :: 1 <= id <= s.zone.nextPinID
    ensures |s.zone.cancels| <= s.zone.inFlight
  {
    ReachableInv(s);
    SumMonotone(s.pins, RegisteredWeight(), InFlightWeight());
  }

  lemma {:induction false} AfterDone(s: State, es: seq<Event>, t: State)
    requires LockInv(s) && s.zone.done && Run(s, es, t)
    ensures Adds(es) <= Bit(s.mu.ByPin? && s.PinAt(s.mu.p, Passed))
    decreases |es|
  {
    if es != [] {
      StepLock(s, es[0]);
      AfterDone(Apply(s, es[0]), es[1..], t);
    }
  }

  ghost predicate CanJoin(s: State) { exists es, t :: Run(s, es, t) && Adds(es) > 0 }

  /** Close alone is not a barrier, and this is exactly by how much it is not: once the
      channel is closed at most one Pin can still join, and one can if and only if some
      Pin is between its check of the channel and its Add. */
  lemma CloseAdmitsOnlyACheckedPin(s: State)
    requires Reachable(s) && s.zone.done
    ensures forall es, t | Run(s, es, t) :: Adds(es) <= 1
    ensures CanJoin(s) <==> exists p :: s.PinAt(p, Passed)
  {
    ReachableInv(s);
    forall es, t | Run(s, es, t)
      ensures Adds(es) <= 1 && (Adds(es) == 1 ==> s.mu.ByPin? && s.PinAt(s.mu.p, Passed))
    {
      AfterDone(s, es, t);
    }
    if p :| s.PinAt(p, Passed) {
      var t := Apply(s, PinAdd(p));
      assert Run(t, [], t);
      assert [PinAdd(p)][1..] == [];
      assert Run(s, [PinAdd(p)], t) && Adds([PinAdd(p)]) == 1;
    }
    if CanJoin(s) {
      var es, t :| Run(s, es, t) && Adds(es) > 0;
      assert s.PinAt(s.mu.p, Passed);
    }
  }

  lemma RunSnoc(s: State, es: seq<Event>, t: State, e: Event)
    requires Run(s, es, t) && Enabled(t, e)
    ensures Run(s, es + [e], Apply(t, e))
    decreases |es|
  {
    if es == [] {
      assert ([] + [e])[1..] == [];
    } else {
      assert (es + [e])[1..] == es[1..] + [e];
      RunSnoc(Apply(s, es[0]), es[1..], t, e);
    }
  }

  /** Such a state is reached: a Pin checks, Close runs, the Pin joins. */
  lemma CloseCanBeOvertaken()
    ensures exists s, p :: Reachable(s) && s.zone.done && s.PinAt(p, Passed)
  {
    var s1 := Apply(Init, PinLock(0, ""));
    var s2 := Apply(s1, PinPass(0));
    var s3 := Apply(s2, CloseSignal);
    assert Run(Init, [], Init);
    RunSnoc(Init, [], Init, PinLock(0, ""));
    RunSnoc(Init, [] + [PinLock(0, "")], s1, PinPass(0));
    RunSnoc(Init, [] + [PinLock(0, "")] + [PinPass(0)], s2, CloseSignal);
    assert Reachable(s3) && s3.PinAt(0, Passed);
  }

  predicate PinOver(ph: PinPhase) { ph.Returned? || ph.Rejected? }

  predicate DrainOver(ph: DrainPhase) { ph.ReturnedNil? || ph.ReturnedErr? }

  /** A step of a call already begun. A waiter goroutine moves once. */
  predicate Progress(s: State, e: Event) {
    && Enabled(s, e)
    && !e.PinLock? && !e.DrainLock? && !e.CloseSignal? && !e.Unpin?
    && (e.WaitReturns? ==> !s.drains[e.d].finished)
  }

  /** Progress that does not wait for any Drain's deadline to fire. */
  ghost predicate CanMove(s: State) { exists e :: Progress(s, e) && !e.DrainExpire? }

  ghost predicate AllOver(s: State) {
    && (forall p | p in s.pins :: PinOver(s.pins[p].phase))
    && (forall d | d in s.drains :: DrainOver(s.drains[d].phase))
  }

  /** The next step of a call that is not waiting for somebody else's lock. */
  function NextOfPin(s: State, p: PinCall): Event
    requires p in s.pins
  {
    match s.pins[p].phase
    case AtGate => if s.zone.done then PinReject(p) else PinPass(p)
    case Passed => PinAdd(p)
    case Added => PinRegister(p)
    case Body(_) => PinFail(p)
    case Leaving(_) => PinRelock(p)
    case Unregistering(_) => PinDelete(p)
    case Unregistered => PinCancel(p)
    case _ => PinDone(p)
  }

  lemma PinCanMove(s: State, p: PinCall)
    requires p in s.pins && !PinOver(s.pins[p].phase)
    requires s.mu == Free || HoldsLock(s.pins[p].phase)
    ensures CanMove(s)
  {
    assert Progress(s, NextOfPin(s, p));
  }

  lemma ForcingCanMove(s: State, d: DrainCall)
    requires IsForcing(s, d)
    ensures CanMove(s)
  {
    if id :| id in s.zone.cancels && id !in s.drains[d].phase.called {
      assert Progress(s, DrainCancel(d, id));
    } else {
      assert Progress(s, DrainReunlock(d));
    }
  }

  function NextOfDrain(s: State, d: DrainCall): Event
    requires d in s.drains
  {
    match s.drains[d].phase
    case Locked => DrainSignal(d)
    case Signalled => DrainUnlock(d)
    case Waiting => if s.drains[d].finished then DrainNil(d) else WaitReturns(d)
    case Expired => DrainRelock(d)
    case _ => DrainErr(d)
  }

  lemma DrainCanMove(s: State, d: DrainCall)
    requires d in s.drains && !DrainOver(s.drains[d].phase)
    requires s.mu == Free || DrainHoldsLock(s.drains[d].phase)
    requires s.drains[d].phase.Waiting? ==> s.zone.inFlight == 0
    ensures CanMove(s)
  {
    if IsForcing(s, d) {
      ForcingCanMove(s, d);
    } else {
      assert Progress(s, NextOfDrain(s, d));
    }
  }

  /** No deadlock, even if no deadline ever fires: while some Pin or Drain has not returned,
      one of the calls already begun can take a step (backend calls return). */
  lemma NoDeadlock(s: State)
    requires Reachable(s) && !AllOver(s)
    ensures CanMove(s)
  {
    ReachableInv(s);
    if s.mu.ByPin? {
      PinCanMove(s, s.mu.p);
    } else if s.mu.ByDrain? {
      DrainCanMove(s, s.mu.d);
    } else if p :| p in s.pins && !PinOver(s.pins[p].phase) {
      PinCanMove(s, p);
    } else {
      SumZero(s.pins, InFlightWeight());
      var d :| d in s.drains && !DrainOver(s.drains[d].phase);
      DrainCanMove(s, d);
    }
  }

  // ----- a measure -----

  function PinWork(ph: PinPhase): nat {
    match ph
    case AtGate => 8
    case Passed => 7
    case Added => 6
    case Body(_) => 5
    case Leaving(_) => 4
    case Unregistering(_) => 3
    case Unregistered => 2
    case Released => 1
    case _ => 0
  }

  /** n is the number of Pins, so that no Drain has more than n cancel functions to call. */
  function DrainWork(n: nat, dr: Drain): nat {
    Bit(!dr.finished) +
    match dr.phase
    case Locked => n + 6
    case Signalled => n + 5
    case Waiting => n + 4
    case Expired => n + 3
    case Forcing(called) => 2 + if |called| <= n then n - |called| else 0
    case Grace => 1
    case _ => 0
  }

  function PinWorkW(): (PinCall, Pin) -> nat { (_: PinCall, c: Pin) => PinWork(c.phase) }

  function DrainWorkW(n: nat): (DrainCall, Drain) -> nat { (_: DrainCall, dr: Drain) => DrainWork(n, dr) }

  ghost function Work(s: State): nat { Sum(s.pins, PinWorkW()) + Sum(s.drains, DrainWorkW(|s.pins|)) }

  /** A Drain in its force-cancel section has called nothing but what is registered. */
  ghost predicate CalledInv(s: State) {
    forall d | IsForcing(s, d) :: s.drains[d].phase.called <= s.zone.cancels.Keys
  }

  lemma StepCalled(s: State, e: Event)
    requires LockInv(s) && CalledInv(s) && Enabled(s, e)
    ensures CalledInv(Apply(s, e))
  {
  }

  lemma {:induction false} RunCalled(s: State, es: seq<Event>, t: State)
    requires LockInv(s) && CalledInv(s) && Run(s, es, t)
    ensures CalledInv(t)
    decreases |es|
  {
    if es != [] {
      StepLock(s, es[0]);
      StepCalled(s, es[0]);
      RunCalled(Apply(s, es[0]), es[1..], t);
    }
  }

  lemma SubsetSize(a: set<nat>, b: set<nat>)
    requires a <= b
    ensures |a| <= |b|
  {
    assert b == a + (b - a);
  }

  lemma DrainStepWork(s: State, e: Event, n: nat)
    requires Progress(s, e) && !IsPinEvent(e)
    requires e.DrainCancel? ==> |s.drains[e.d].phase.called| < n
    ensures var t := Apply(s, e);
      && t.pins == s.pins && t.drains == s.drains[e.d := t.drains[e.d]]
      && DrainWork(n, t.drains[e.d]) < DrainWork(n, s.drains[e.d])
  {
  }

  lemma PinStepWork(s: State, e: Event)
    requires Progress(s, e) && IsPinEvent(e)
    ensures var t := Apply(s, e);
      && t.pins == s.pins[e.p := t.pins[e.p]] && t.drains == s.drains
      && PinWork(t.pins[e.p].phase) < PinWork(s.pins[e.p].phase)
  {
  }

  lemma StepWork(s: State, e: Event)
    requires Inv(s) && CalledInv(s) && Progress(s, e)
    ensures Work(Apply(s, e)) < Work(s)
  {
    var t, n := Apply(s, e), |s.pins|;
    if IsPinEvent(e) {
      PinStepWork(s, e);
      SumUpdate(s.pins, PinWorkW(), e.p, t.pins[e.p]);
      assert t.pins.Keys == s.pins.Keys;
    } else {
      if e.DrainCancel? {
        SumAtMostSize(s.pins, RegisteredWeight());
        SubsetSize(s.drains[e.d].phase.called + {e.id}, s.zone.cancels.Keys);
      }
      DrainStepWork(s, e, n);
      SumUpdate(s.drains, DrainWorkW(n), e.d, t.drains[e.d]);
    }
  }

  ghost predicate ProgressRun(s: State, es: seq<Event>, t: State)
    decreases |es|
  {
    if es == [] then s == t else Progress(s, es[0]) && ProgressRun(Apply(s, es[0]), es[1..], t)
  }

  lemma {:induction false} ProgressIsShort(s: State, es: seq<Event>, t: State)
    requires Inv(s) && CalledInv(s) && ProgressRun(s, es, t)
    ensures |es| + Work(t) <= Work(s) && Run(s, es, t)
    decreases |es|
  {
    if es != [] {
      StepInv(s, es[0]);
      StepCalled(s, es[0]);
      StepWork(s, es[0]);
      ProgressIsShort(Apply(s, es[0]), es[1..], t);
    }
  }

  lemma {:induction false} RunJoins(s: State, es: seq<Event>, t: State, ds: seq<Event>, u: State)
    requires Run(s, es, t) && Run(t, ds, u)
    ensures Run(s, es + ds, u)
    decreases |es|
  {
    if es == [] {
      assert es + ds == ds;
    } else {
      assert (es + ds)[1..] == es[1..] + ds;
      RunJoins(Apply(s, es[0]), es[1..], t, ds, u);
    }
  }

  /** All calls return: the calls begun so far make at most Work(s) further steps in all, in
      any order, and when none is left but perhaps a deadline that never fires, every Pin
      and every Drain has returned. */
  lemma CallsReturn(s: State, es: seq<Event>, t: State)
    requires Reachable(s) && ProgressRun(s, es, t)
    ensures |es| <= Work(s)
    ensures !CanMove(t) ==> AllOver(t)
  {
    var pre :| Run(Init, pre, s);
    InitInv();
    RunInv(Init, pre, s);
    RunCalled(Init, pre, s);
    ProgressIsShort(s, es, t);
    RunJoins(Init, pre, s, es, t);
    if !AllOver(t) {
      NoDeadlock(t);
    }
  }
}

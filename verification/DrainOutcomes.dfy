/** What each Pin and Drain call does in the runs of DrainProtocol: its own steps are those of
    the source in their order, whatever else runs in between, and that order says which
    calls are refused, which Drains return nil, who is cancelled and what ends up pinned. */
module DrainOutcomes {
  import opened DrainGate
  import opened DrainProtocol

  // ----- each call follows its program -----

  /** p's own steps in es. */
  function OfPin(es: seq<Event>, p: PinCall): seq<Event> {
    if es == [] then []
    else
      var e := es[|es| - 1];
      OfPin(es[..|es| - 1], p) + if IsPinEvent(e) && e.p == p then [e] else []
  }

  /** Pin from top to bottom, when the gate is open; ok says how its body ends. */
  function PinProgram(p: PinCall, cid: Cid, ok: bool): seq<Event> {
    [PinLock(p, cid), PinPass(p), PinAdd(p), PinRegister(p), if ok then PinMark(p) else PinFail(p),
     PinRelock(p), PinDelete(p), PinCancel(p), PinDone(p)]
  }

  /** And when it is closed. */
  function PinRefusal(p: PinCall, cid: Cid): seq<Event> { [PinLock(p, cid), PinReject(p)] }

  /** How far into its program a Pin is. */
  function PinSteps(ph: PinPhase): nat {
    match ph
    case AtGate => 1
    case Passed => 2
    case Added => 3
    case Body(_) => 4
    case Leaving(_) => 5
    case Unregistering(_) => 6
    case Unregistered => 7
    case Released => 8
    case Returned => 9
    case Rejected => 2
  }

  /** own is what a Pin with this entry has done. */
  ghost predicate PinDid(own: seq<Event>, p: PinCall, pin: Pin) {
    if pin.phase.Rejected? then own == PinRefusal(p, pin.cid)
    else exists ok :: own == PinProgram(p, pin.cid, ok)[..PinSteps(pin.phase)]
  }

  ghost predicate PinHistory(es: seq<Event>, t: State, p: PinCall) {
    if p in t.pins then PinDid(OfPin(es, p), p, t.pins[p]) else OfPin(es, p) == []
  }

  /** Drain's own steps, without the calls of cancel functions and its waiter goroutine. */
  predicate IsDrainStep(e: Event) {
    e.DrainLock? || e.DrainSignal? || e.DrainUnlock? || e.DrainNil? || e.DrainExpire? || e.DrainRelock?
    || e.DrainReunlock? || e.DrainErr?
  }

  function OfDrain(es: seq<Event>, d: DrainCall): seq<Event> {
    if es == [] then []
    else
      var e := es[|es| - 1];
      OfDrain(es[..|es| - 1], d) + if IsDrainStep(e) && e.d == d then [e] else []
  }

  function DrainInTime(d: DrainCall): seq<Event> { [DrainLock(d), DrainSignal(d), DrainUnlock(d), DrainNil(d)] }

  function DrainTooLate(d: DrainCall): seq<Event> {
    [DrainLock(d), DrainSignal(d), DrainUnlock(d), DrainExpire(d), DrainRelock(d), DrainReunlock(d), DrainErr(d)]
  }

  /** own is what a Drain in this phase has done. */
  ghost predicate DrainDid(own: seq<Event>, d: DrainCall, ph: DrainPhase) {
    match ph
    case Locked => own == DrainInTime(d)[..1]
    case Signalled => own == DrainInTime(d)[..2]
    case Waiting => own == DrainInTime(d)[..3]
    case ReturnedNil => own == DrainInTime(d)
    case Expired => own == DrainTooLate(d)[..4]
    case Forcing(_) => own == DrainTooLate(d)[..5]
    case Grace => own == DrainTooLate(d)[..6]
    case ReturnedErr => own == DrainTooLate(d)
  }

  ghost predicate DrainHistory(es: seq<Event>, t: State, d: DrainCall) {
    if d in t.drains then DrainDid(OfDrain(es, d), d, t.drains[d].phase) else OfDrain(es, d) == []
  }

  lemma {:induction false} LastStep(s: State, es: seq<Event>, t: State) returns (m: State)
    requires Run(s, es, t) && es != []
    ensures Run(s, es[..|es| - 1], m) && Enabled(m, es[|es| - 1]) && t == Apply(m, es[|es| - 1])
    decreases |es|
  {
    if |es| == 1 {
      m := s;
    } else {
      m := LastStep(Apply(s, es[0]), es[1..], t);
      assert es[1..][..|es| - 2] == es[..|es| - 1][1..];
    }
  }

  /** Which way the body goes, once it has gone. */
  predicate BodyOk(e: Event, before: bool) { if e.PinMark? then true else if e.PinFail? then false else before }

  /** A Pin past the gate takes exactly the next step of its program. */
  lemma PinNext(m: State, e: Event, p: PinCall, ok: bool)
    requires Enabled(m, e) && IsPinEvent(e) && e.p == p && !e.PinLock? && !e.PinReject?
    ensures p in m.pins && !m.pins[p].phase.Rejected?
    ensures var pin, pin', ok' := m.pins[p], Apply(m, e).pins[p], BodyOk(e, ok);
      var k := PinSteps(pin.phase);
      && pin'.cid == pin.cid && !pin'.phase.Rejected? && PinSteps(pin'.phase) == k + 1 <= 9
      && e == PinProgram(p, pin.cid, ok')[k]
      && (k >= 5 ==> ok' == ok)
  {
  }

  lemma ProgramUpTo(p: PinCall, cid: Cid, ok: bool, ok': bool, k: nat)
    requires k <= 8 && (k >= 5 ==> ok == ok')
    ensures PinProgram(p, cid, ok)[..k] == PinProgram(p, cid, ok')[..k]
    ensures PinProgram(p, cid, ok')[..k + 1] == PinProgram(p, cid, ok')[..k] + [PinProgram(p, cid, ok')[k]]
  {
  }

  lemma PinOwnStep(own: seq<Event>, m: State, e: Event, p: PinCall)
    requires Enabled(m, e) && IsPinEvent(e) && e.p == p
    requires if p in m.pins then PinDid(own, p, m.pins[p]) else own == []
    ensures p in Apply(m, e).pins && PinDid(own + [e], p, Apply(m, e).pins[p])
  {
    if e.PinLock? {
      assert own + [e] == PinProgram(p, e.cid, true)[..1];
    } else if e.PinReject? {
      assert own + [e] == PinRefusal(p, m.pins[p].cid);
    } else {
      PinNext(m, e, p, true);
      var k, cid := PinSteps(m.pins[p].phase), m.pins[p].cid;
      var ok :| own == PinProgram(p, cid, ok)[..k];
      PinNext(m, e, p, ok);
      hide Apply, Enabled, PinProgram;
      ProgramUpTo(p, cid, ok, BodyOk(e, ok), k);
      assert own + [e] == PinProgram(p, cid, BodyOk(e, ok))[..k + 1];
    }
  }

  lemma PinStep(own: seq<Event>, m: State, e: Event, p: PinCall)
    requires Enabled(m, e) && (if p in m.pins then PinDid(own, p, m.pins[p]) else own == [])
    ensures var t := Apply(m, e); var own' := own + if IsPinEvent(e) && e.p == p then [e] else [];
      if p in t.pins then PinDid(own', p, t.pins[p]) else own' == []
  {
    if IsPinEvent(e) && e.p == p {
      PinOwnStep(own, m, e, p);
    } else {
      hide PinProgram;
      assert own + [] == own;
    }
  }

  /** In every interleaving a Pin's own steps are its program up to where it is: refused when
      the gate was closed, and otherwise check, Add, register, body, delete, cancel, Done. */
  lemma {:induction false} PinFollowsItsProgram(es: seq<Event>, t: State, p: PinCall)
    requires Run(Init, es, t)
    ensures PinHistory(es, t, p)
    decreases |es|
  {
    if es != [] {
      var m := LastStep(Init, es, t);
      PinFollowsItsProgram(es[..|es| - 1], m, p);
      PinStep(OfPin(es[..|es| - 1], p), m, es[|es| - 1], p);
    }
  }

  lemma DrainStep(own: seq<Event>, m: State, e: Event, d: DrainCall)
    requires Enabled(m, e) && (if d in m.drains then DrainDid(own, d, m.drains[d].phase) else own == [])
    ensures var t := Apply(m, e); var own' := own + if IsDrainStep(e) && e.d == d then [e] else [];
      if d in t.drains then DrainDid(own', d, t.drains[d].phase) else own' == []
  {
    assert own + [] == own;
  }

  /** And so are a Drain's: it returns nil from its wait, or goes through the force-cancel
      section because its deadline fired. */
  lemma {:induction false} DrainFollowsItsProgram(es: seq<Event>, t: State, d: DrainCall)
    requires Run(Init, es, t)
    ensures DrainHistory(es, t, d)
    decreases |es|
  {
    if es != [] {
      var m := LastStep(Init, es, t);
      DrainFollowsItsProgram(es[..|es| - 1], m, d);
      DrainStep(OfDrain(es[..|es| - 1], d), m, es[|es| - 1], d);
    }
  }

  lemma {:induction false} InOfDrain(es: seq<Event>, d: DrainCall, e: Event)
    ensures e in OfDrain(es, d) <==> e in es && IsDrainStep(e) && e.d == d
  {
    if es != [] {
      InOfDrain(es[..|es| - 1], d, e);
      assert es == es[..|es| - 1] + [es[|es| - 1]];
    }
  }

  lemma {:induction false} InOfPin(es: seq<Event>, p: PinCall, e: Event)
    ensures e in OfPin(es, p) <==> e in es && IsPinEvent(e) && e.p == p
  {
    if es != [] {
      InOfPin(es[..|es| - 1], p, e);
      assert es == es[..|es| - 1] + [es[|es| - 1]];
    }
  }

  // ----- outcomes -----

  /** A Drain that has returned, returned nil if and only if its deadline never fired. */
  lemma DrainReturnsNilIff(es: seq<Event>, t: State, d: DrainCall)
    requires Run(Init, es, t) && d in t.drains && DrainOver(t.drains[d].phase)
    ensures t.DrainAt(d, ReturnedNil) <==> DrainExpire(d) !in es
    ensures t.DrainAt(d, ReturnedNil) <==> DrainNil(d) in es
  {
    DrainFollowsItsProgram(es, t, d);
    InOfDrain(es, d, DrainExpire(d));
    InOfDrain(es, d, DrainNil(d));
    assert DrainTooLate(d)[3] == DrainExpire(d) && DrainInTime(d)[3] == DrainNil(d);
  }

  lemma WaitsAlone(d: DrainCall) returns (es: seq<Event>, s: State)
    ensures Run(Init, es, s) && s.DrainAt(d, Waiting) && s.zone.inFlight == 0
  {
    es, s := [], Init;
    assert Run(Init, es, s);
    hide Run;
    es, s := Then(es, s, DrainLock(d));
    es, s := Then(es, s, DrainSignal(d));
    es, s := Then(es, s, DrainUnlock(d));
  }

  /** And it does return nil on an idle node, say. */
  lemma DrainCanReturnNil(d: DrainCall)
    ensures exists s :: Reachable(s) && s.DrainAt(d, ReturnedNil)
  {
    hide Run;
    var es, s := WaitsAlone(d);
    es, s := Then(es, s, WaitReturns(d));
    es, s := Then(es, s, DrainNil(d));
    assert Reachable(s) && s.DrainAt(d, ReturnedNil);
  }

  lemma Then(es: seq<Event>, s: State, e: Event) returns (es': seq<Event>, s': State)
    requires Run(Init, es, s) && Enabled(s, e)
    ensures Run(Init, es', s') && es' == es + [e] && s' == Apply(s, e)
  {
    RunSnoc(Init, es, s, e);
    es', s' := es + [e], Apply(s, e);
  }

  ghost predicate Shutdown(es: seq<Event>) { CloseSignal in es || exists d :: DrainSignal(d) in es }

  /** The gate is closed by Drain and by Close, and by nothing else. */
  lemma {:induction false} GateClosedIff(es: seq<Event>, t: State)
    requires Run(Init, es, t)
    ensures t.zone.done <==> Shutdown(es)
    decreases |es|
  {
    if es != [] {
      var n := |es| - 1;
      var m := LastStep(Init, es, t);
      GateClosedIff(es[..n], m);
      assert es == es[..n] + [es[n]];
      forall d ensures DrainSignal(d) in es <==> DrainSignal(d) in es[..n] || es[n] == DrainSignal(d) {
      }
    }
  }

  /** A Pin is refused only once the node is shutting down; one that was refused was never
      counted and pinned nothing, and one that was not ran its whole program. */
  lemma RefusedIff(es: seq<Event>, t: State, p: PinCall)
    requires Run(Init, es, t) && p in t.pins && PinOver(t.pins[p].phase)
    ensures t.PinAt(p, Rejected) <==> PinAdd(p) !in es
    ensures t.PinAt(p, Rejected) ==> Shutdown(es) && PinMark(p) !in es
    ensures t.PinAt(p, Returned) ==> PinCancel(p) in es && PinDone(p) in es
    decreases |es|
  {
    PinFollowsItsProgram(es, t, p);
    InOfPin(es, p, PinAdd(p));
    InOfPin(es, p, PinMark(p));
    InOfPin(es, p, PinCancel(p));
    InOfPin(es, p, PinDone(p));
    hide Run, OfPin;
    if t.PinAt(p, Rejected) {
      WasRefused(es, t, p);
    } else {
      var ok :| OfPin(es, p) == PinProgram(p, t.pins[p].cid, ok)[..9];
      var prog := PinProgram(p, t.pins[p].cid, ok);
      assert prog[2] == PinAdd(p) && prog[7] == PinCancel(p) && prog[8] == PinDone(p);
    }
  }

  lemma WasRefused(es: seq<Event>, t: State, p: PinCall)
    requires Run(Init, es, t) && t.PinAt(p, Rejected)
    ensures Shutdown(es)
  {
    PinFollowsItsProgram(es, t, p);
    InOfPin(es, p, PinReject(p));
    assert PinRefusal(p, t.pins[p].cid)[1] == PinReject(p);
    RefusedAfterShutdown(es, t, p);
  }

  lemma {:induction false} RefusedAfterShutdown(es: seq<Event>, t: State, p: PinCall)
    requires Run(Init, es, t) && PinReject(p) in es
    ensures Shutdown(es)
    decreases |es|
  {
    var n := |es| - 1;
    var m := LastStep(Init, es, t);
    assert es == es[..n] + [es[n]];
    if PinReject(p) in es[..n] {
      RefusedAfterShutdown(es[..n], m, p);
    } else {
      GateClosedIff(es[..n], m);
    }
    if d :| DrainSignal(d) in es[..n] {
      assert DrainSignal(d) in es;
    }
  }

  ghost predicate SomeExpired(es: seq<Event>) { exists d :: DrainExpire(d) in es }

  /** Nobody is cancelled before a deadline fires: until then a Pin whose cancel function has
      been called is one that called it itself, in its cleanup. And that one always does. */
  lemma {:induction false} CancelledOnlyByCleanupOrDeadline(es: seq<Event>, t: State, p: PinCall)
    requires Run(Init, es, t)
    ensures PinCancel(p) in es ==> p in t.cancelled
    ensures p in t.cancelled ==> PinCancel(p) in es || SomeExpired(es)
    decreases |es|
  {
    if es != [] {
      var n := |es| - 1;
      var m := LastStep(Init, es, t);
      CancelledOnlyByCleanupOrDeadline(es[..n], m, p);
      assert es == es[..n] + [es[n]];
      if SomeExpired(es[..n]) {
        var d :| DrainExpire(d) in es[..n];
        assert DrainExpire(d) in es;
      }
      if es[n].DrainCancel? {
        ForcingExpired(es[..n], m, es[n].d);
      }
    }
  }

  lemma ForcingExpired(es: seq<Event>, t: State, d: DrainCall)
    requires Run(Init, es, t) && IsForcing(t, d)
    ensures DrainExpire(d) in es
  {
    DrainFollowsItsProgram(es, t, d);
    InOfDrain(es, d, DrainExpire(d));
    assert DrainTooLate(d)[..5][3] == DrainExpire(d);
  }

  /** es[k] marks c, and no Unpin of c follows. */
  ghost predicate LastMark(es: seq<Event>, t: State, c: Cid, k: nat) {
    && k < |es| && es[k].PinMark? && es[k].p in t.pins && t.pins[es[k].p].cid == c
    && Unpin(c) !in es[k + 1..]
  }

  /** The pin set is exactly what was marked last or kept from before: nothing enters it
      otherwise, in particular not from a Pin that failed or was refused, what entered stays
      until its Unpin, and its Unpin takes it out. */
  lemma {:induction false} PinnedIff(s: State, es: seq<Event>, t: State, c: Cid)
    requires Run(s, es, t)
    ensures c in t.pinned <==> (c in s.pinned && Unpin(c) !in es) || exists k: nat :: LastMark(es, t, c, k)
    decreases |es|
  {
    if es != [] {
      var e, s', rest := es[0], Apply(s, es[0]), es[1..];
      PinnedIff(s', rest, t, c);
      assert es == [e] + rest;
      if k: nat :| LastMark(rest, t, c, k) {
        assert es[k + 2..] == rest[k + 1..];
        assert LastMark(es, t, c, k + 1);
      }
      if k: nat :| LastMark(es, t, c, k) {
        if k > 0 {
          assert rest[k..] == es[k + 1..];
          assert LastMark(rest, t, c, k - 1);
        }
      }
      if e.PinMark? {
        CidKept(s', rest, t, e.p);
        if t.pins[e.p].cid == c && Unpin(c) !in rest {
          assert LastMark(es, t, c, 0);
        }
      }
    }
  }

  /** Nothing in the environment is ruled out: calls come whenever the lock is free, a Pin's body
      may end either way, and a deadline, Close or an Unpin may come at any moment. */
  lemma AnythingMayHappen(s: State, p: PinCall, d: DrainCall, c: Cid)
    ensures s.mu == Free && p !in s.pins ==> Enabled(s, PinLock(p, c))
    ensures s.mu == Free && d !in s.drains ==> Enabled(s, DrainLock(d))
    ensures IsBody(s, p) ==> Enabled(s, PinMark(p)) && Enabled(s, PinFail(p))
    ensures s.DrainAt(d, Waiting) ==> Enabled(s, DrainExpire(d))
    ensures Enabled(s, CloseSignal) && Enabled(s, Unpin(c))
  {
  }
}

/** What the counters of a Run mean in the runs of AutoPinPool: each backend answer ends its item
    under the right heading and is counted there, once. */
module AutoPinOutcomes {
  import opened AutoPinPool
  import opened Basics
  import opened Sums

  lemma {:induction false} LastStep(s: State, es: seq<Event>, t: State) returns (m: State)
    requires Steps(s, es, t) && es != []
    ensures Steps(s, es[..|es| - 1], m) && Enabled(m, es[|es| - 1]) && t == Apply(m, es[|es| - 1])
    decreases |es|
  {
    if |es| == 1 {
      m := s;
    } else {
      m := LastStep(Apply(s, es[0]), es[1..], t);
      assert es[1..][..|es| - 2] == es[..|es| - 1][1..];
    }
  }

  predicate EndedAs(s: State, j: Job, o: Outcome) { j in s.jobs && Over(s.jobs[j], o) }

  /** The answer that puts j under heading o. */
  function Answer(j: Job, o: Outcome): Event {
    match o
    case AlreadyPinned => ProbeYes(j)
    case ProbeError => ProbeFailed(j)
    case PinOk => PinReturned(j, true)
    case PinError => PinReturned(j, false)
  }

  lemma StepAnswers(m: State, e: Event, j: Job, o: Outcome)
    requires ShapeInv(m) && Enabled(m, e)
    ensures EndedAs(Apply(m, e), j, o) <==> EndedAs(m, j, o) || e == Answer(j, o)
  {
  }

  /** The backend's answer decides: an item ends as pinned if and only if Pin returned no error
      for it, as failed if and only if Pin returned one, as already pinned or as a probe
      error if and only if its probe said so. */
  lemma {:induction false} AnswersDecide(i: State, es: seq<Event>, t: State, j: Job, o: Outcome)
    requires IsInit(i) && Steps(i, es, t)
    ensures EndedAs(t, j, o) <==> Answer(j, o) in es
    decreases |es|
  {
    if es != [] {
      var n := |es| - 1;
      var m := LastStep(i, es, t);
      AnswersDecide(i, es[..n], m, j, o);
      InitInv(i);
      StepsInv(i, es[..n], m);
      StepAnswers(m, es[n], j, o);
      hide Steps, Apply, Enabled, EndedAs;
      assert es == es[..n] + [es[n]];
    }
  }

  /** How often a goroutine of r got the answer for heading o. */
  function Answers(es: seq<Event>, r: RunId, o: Outcome): nat {
    if es == [] then 0
    else
      var e := es[|es| - 1];
      Answers(es[..|es| - 1], r, o) + Bit(!IsRunEvent(e) && e.j.run == r && e == Answer(e.j, o))
  }

  lemma EndsOnce(m: State, e: Event, o: Outcome)
    requires ShapeInv(m) && Enabled(m, e) && MovesJob(e)
    ensures var j := JobOf(m, e);
      && Bit(Over(JobAfter(m, e), o)) == Bit(EndedAs(m, j, o)) + Bit(e == Answer(j, o))
      && (IsRunEvent(e) ==> e != Answer(j, o))
  {
  }

  lemma StepEnded(m: State, e: Event, r: RunId, o: Outcome)
    requires ShapeInv(m) && Enabled(m, e)
    ensures Ended(Apply(m, e), r, o) == Ended(m, r, o) + Bit(!IsRunEvent(e) && e.j.run == r && e == Answer(e.j, o))
  {
    if MovesJob(e) {
      EndsOnce(m, e, o);
      hide ShapeInv, JobAfter;
      SumUpdate(m.jobs, OverW(r, o), JobOf(m, e), JobAfter(m, e));
    }
  }

  lemma {:induction false} EndedAreAnswers(i: State, es: seq<Event>, t: State, r: RunId, o: Outcome)
    requires IsInit(i) && Steps(i, es, t)
    ensures Ended(t, r, o) == Answers(es, r, o)
    decreases |es|
  {
    if es == [] {
      SumZero(t.jobs, OverW(r, o));
    } else {
      var n := |es| - 1;
      var m := LastStep(i, es, t);
      EndedAreAnswers(i, es[..n], m, r, o);
      InitInv(i);
      StepsInv(i, es[..n], m);
      StepEnded(m, es[n], r, o);
    }
  }

  lemma {:induction false} RunKeepsItsQueue(i: State, es: seq<Event>, t: State, r: RunId)
    requires Steps(i, es, t)
    ensures t.concurrency == i.concurrency && t.runs.Keys == i.runs.Keys
    ensures r in t.runs ==> t.runs[r].queue == i.runs[r].queue
    ensures r in t.runs ==> (t.runs[r].ctxDone <==> i.runs[r].ctxDone || CtxDone(r) in es)
    decreases |es|
  {
    if es != [] {
      var m := LastStep(i, es, t);
      RunKeepsItsQueue(i, es[..|es| - 1], m, r);
      assert es == es[..|es| - 1] + [es[|es| - 1]];
    }
  }

  /** The report of a Run is what the backend answered: Pinned, Failed and IsPinnedErrors are
      the numbers of those answers to its goroutines, the rest of the scheduled items were
      already pinned, and unless its own context was cancelled all of its queue was
      scheduled. */
  lemma ReportIsTheAnswers(i: State, es: seq<Event>, t: State, r: RunId)
    requires IsInit(i) && Steps(i, es, t) && r in i.runs
    ensures r in t.runs
    ensures var run := t.runs[r];
      && run.pinned == Answers(es, r, PinOk)
      && run.failed == Answers(es, r, PinError)
      && run.probeErrors == Answers(es, r, ProbeError)
      && (run.phase.Returned? ==>
            run.pinned + run.failed + run.probeErrors + Answers(es, r, AlreadyPinned) == run.next <= |i.runs[r].queue|)
      && (run.phase.Returned? && !i.runs[r].ctxDone && CtxDone(r) !in es ==> run.next == |i.runs[r].queue|)
  {
    InitInv(i);
    StepsInv(i, es, t);
    RunKeepsItsQueue(i, es, t, r);
    assert CountersOf(t, r) && Reachable(t);
    EndedAreAnswers(i, es, t, r, PinOk);
    EndedAreAnswers(i, es, t, r, PinError);
    EndedAreAnswers(i, es, t, r, ProbeError);
    EndedAreAnswers(i, es, t, r, AlreadyPinned);
    if t.runs[r].phase.Returned? {
      ReturnedRunAccounts(t, r);
    }
  }

  /** The backend may give any answer, and a context may be cancelled at any moment. */
  lemma AnyAnswerIsPossible(s: State, r: RunId, j: Job, o: Outcome)
    ensures r in s.runs && !s.runs[r].ctxDone && !s.runs[r].phase.Returned? ==> Enabled(s, CtxDone(r))
    ensures j in s.jobs && j.run in s.runs && s.jobs[j].Probing? ==>
      Enabled(s, ProbeNo(j)) && (o.AlreadyPinned? || o.ProbeError? ==> Enabled(s, Answer(j, o)))
    ensures j in s.jobs && j.run in s.runs && s.jobs[j].Pinning? && (o.PinOk? || o.PinError?) ==>
      Enabled(s, Answer(j, o))
  {
  }
}

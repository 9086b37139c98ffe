/** The goroutines of the mesh (ipfsnode_pubsub.go): receive, evict and advertise loops, dials
    started by the receive loop, and Stop waiting on a WaitGroup that can still grow. */
module MeshLifetime {
  import opened Basics
  import opened Sums

  /** A goroutine that holds one WaitGroup count until Done. */
  datatype Loop = Absent | Running | Leaving | Ended

  datatype Recv =
    | Idle                         // in sub.Next
    | Handling                     // in applyHeartbeat
    | Added                        // wg.Add(1) done, dial goroutine not started
    | Closing                      // Next returned an error, deferred Done to come
    | Closed

  /** The one execution of the sync.Once body. */
  datatype Once = Fresh | Entered | Waiting | Waited | Complete

  datatype State = State(
    wg: int, cancelled: bool, recv: Recv, evict: Loop, advertise: Loop,
    dials: map<nat, Loop>, once: Once, returned: set<nat>)

  datatype Event =
    | Message | NoDial | AddDial | StartDial(k: nat) | RecvExit | RecvDone
    | EvictExit | EvictDone | AdvertiseExit | AdvertiseDone
    | DialEnds(k: nat) | DialDone(k: nat)
    | StopEnter | StopCancel | WaitReturns | TopicClose | StopReturns(caller: nat)

  /** startMesh has returned: its Adds are done. */
  function Init(advertiseOff: bool): State {
    State(if advertiseOff then 2 else 3, false, Idle, Running,
          if advertiseOff then Absent else Running, map[], Fresh, {})
  }

  /** Next may hand out a message even after cancellation, so the loop can still be dialling
      while Stop waits. */
  predicate Enabled(s: State, e: Event) {
    match e
    case Message => s.recv.Idle?
    case NoDial => s.recv.Handling?
    case AddDial => s.recv.Handling?
    case StartDial(k) => s.recv.Added? && k !in s.dials
    case RecvExit => s.recv.Idle? && s.cancelled
    case RecvDone => s.recv.Closing?
    case EvictExit => s.evict.Running? && s.cancelled
    case EvictDone => s.evict.Leaving?
    case AdvertiseExit => s.advertise.Running? && s.cancelled
    case AdvertiseDone => s.advertise.Leaving?
    case DialEnds(k) => k in s.dials && s.dials[k].Running?
    case DialDone(k) => k in s.dials && s.dials[k].Leaving?
    case StopEnter => s.once.Fresh?
    case StopCancel => s.once.Entered?
    case WaitReturns => s.once.Waiting? && s.wg == 0
    case TopicClose => s.once.Waited?
    case StopReturns(_) => s.once.Complete?
  }

  function Apply(s: State, e: Event): State
    requires Enabled(s, e)
  {
    match e
    case Message => s.(recv := Handling)
    case NoDial => s.(recv := Idle)
    case AddDial => s.(recv := Added, wg := s.wg + 1)
    case StartDial(k) => s.(recv := Idle, dials := s.dials[k := Running])
    case RecvExit => s.(recv := Closing)
    case RecvDone => s.(recv := Closed, wg := s.wg - 1)
    case EvictExit => s.(evict := Leaving)
    case EvictDone => s.(evict := Ended, wg := s.wg - 1)
    case AdvertiseExit => s.(advertise := Leaving)
    case AdvertiseDone => s.(advertise := Ended, wg := s.wg - 1)
    case DialEnds(k) => s.(dials := s.dials[k := Leaving])
    case DialDone(k) => s.(dials := s.dials[k := Ended], wg := s.wg - 1)
    case StopEnter => s.(once := Entered)
    case StopCancel => s.(once := Waiting, cancelled := true)
    case WaitReturns => s.(once := Waited)
    case TopicClose => s.(once := Complete)
    case StopReturns(caller) => s.(returned := s.returned + {caller})
  }

  ghost predicate Run(s: State, es: seq<Event>, t: State)
    decreases |es|
  {
    if es == [] then s == t else Enabled(s, es[0]) && Run(Apply(s, es[0]), es[1..], t)
  }

  predicate Counted(l: Loop) { l.Running? || l.Leaving? }

  function LiveW(): (nat, Loop) -> nat { (_: nat, l: Loop) => Bit(Counted(l)) }

  /** Nothing runs and nothing is about to. */
  ghost predicate Quiet(s: State) {
    && s.wg == 0 && s.recv.Closed? && !Counted(s.evict) && !Counted(s.advertise)
    && forall k | k in s.dials :: !Counted(s.dials[k])
  }

  ghost predicate Inv(s: State) {
    && s.wg == Bit(!s.recv.Closed?) + Bit(s.recv.Added?) + Bit(Counted(s.evict)) + Bit(Counted(s.advertise))
               + Sum(s.dials, LiveW())
    && (s.once.Waiting? || s.once.Waited? || s.once.Complete? ==> s.cancelled)
    && (s.once.Waited? || s.once.Complete? ==> Quiet(s))
    && (s.returned != {} ==> s.once.Complete?)
  }

  lemma NothingCounted(s: State)
    requires Inv(s) && s.wg == 0
    ensures Quiet(s)
  {
    forall k | k in s.dials ensures !Counted(s.dials[k]) {
      SumAtLeast(s.dials, LiveW(), k);
    }
  }

  lemma StepInv(s: State, e: Event)
    requires Inv(s) && Enabled(s, e)
    ensures Inv(Apply(s, e))
  {
    match e
    case StartDial(k) => SumUpdate(s.dials, LiveW(), k, Running);
    case DialEnds(k) => SumUpdate(s.dials, LiveW(), k, Leaving);
    case DialDone(k) => SumUpdate(s.dials, LiveW(), k, Ended);
    case WaitReturns => NothingCounted(s);
    case _ =>
  }

  lemma {:induction false} RunInv(s: State, es: seq<Event>, t: State)
    requires Inv(s) && Run(s, es, t)
    ensures Inv(t)
    decreases |es|
  {
    if es != [] {
      StepInv(s, es[0]);
      RunInv(Apply(s, es[0]), es[1..], t);
    }
  }

  ghost predicate Reachable(s: State) { exists off, es :: Run(Init(off), es, s) }

  lemma ReachableInv(s: State)
    requires Reachable(s)
    ensures Inv(s)
  {
    var off, es :| Run(Init(off), es, s);
    SumZero(Init(off).dials, LiveW());
    RunInv(Init(off), es, s);
  }

  /** The count equals the goroutines alive or announced, so it is never negative, and a dial
      is only ever added while the receive loop's own count is held: never from zero. */
  lemma AddsHappenUnderACount(s: State)
    requires Reachable(s)
    ensures s.wg >= 0
    ensures Enabled(s, AddDial) ==> s.wg >= 1
  {
    ReachableInv(s);
  }

  lemma {:induction false} QuietRun(s: State, es: seq<Event>, t: State)
    requires Quiet(s) && Run(s, es, t)
    ensures Quiet(t) && forall i | 0 <= i < |es| :: !es[i].AddDial? && !es[i].StartDial?
    decreases |es|
  {
    if es != [] {
      assert Quiet(Apply(s, es[0]));
      QuietRun(Apply(s, es[0]), es[1..], t);
      forall i | 0 <= i < |es| ensures !es[i].AddDial? && !es[i].StartDial? {
        if i > 0 { assert es[i] == es[1..][i - 1]; }
      }
    }
  }

  /** Once Stop's Wait has returned, and so once any Stop call has, no loop or dial is alive
      and in no continuation is one started. */
  lemma StopMeansStopped(s: State, es: seq<Event>, t: State)
    requires Reachable(s) && (s.once.Waited? || s.returned != {})
    requires Run(s, es, t)
    ensures Quiet(s) && Quiet(t)
    ensures forall i | 0 <= i < |es| :: !es[i].AddDial? && !es[i].StartDial?
  {
    ReachableInv(s);
    QuietRun(s, es, t);
  }

  /** The loops run for as long as nobody calls Stop: before its cancel none has ended. */
  lemma {:induction false} LoopsRunUntilStop(off: bool, es: seq<Event>, t: State)
    requires Run(Init(off), es, t)
    ensures t.cancelled <==> StopCancel in es
    ensures !t.cancelled ==> !t.recv.Closing? && !t.recv.Closed? && t.evict.Running?
    ensures !t.cancelled ==> t.advertise == if off then Absent else Running
    decreases |es|
  {
    if es != [] {
      var m := LastStep(Init(off), es, t);
      LoopsRunUntilStop(off, es[..|es| - 1], m);
      assert es == es[..|es| - 1] + [es[|es| - 1]];
    }
  }

  lemma {:induction false} LastStep(s: State, es: seq<Event>, t: State) returns (m: State)
    requires Run(s, es, t) && es != []
    ensures Run(s, es[..|es| - 1], m) && Enabled(m, es[|es| - 1]) && t == Apply(m, es[|es| - 1])
    decreases |es|
  {
    if |es| == 1 {
      m := s;
    } else {
      m := LastStep(Apply(s, es[0]), es[1..], t);
      assert es[1..][..|es| - 2] == es[..|es| - 1][1..];
    }
  }

  /** Dials announced so far. */
  function Announced(es: seq<Event>): nat {
    if es == [] then 0 else Announced(es[..|es| - 1]) + Bit(es[|es| - 1].AddDial?)
  }

  lemma DialsGrow(m: State, e: Event)
    requires Enabled(m, e)
    ensures var t := Apply(m, e);
      |t.dials| + Bit(t.recv.Added?) == |m.dials| + Bit(m.recv.Added?) + Bit(e.AddDial?)
  {
    if e.StartDial? {
      assert Apply(m, e).dials.Keys == m.dials.Keys + {e.k};
    } else if e.DialEnds? || e.DialDone? {
      assert Apply(m, e).dials.Keys == m.dials.Keys;
    }
  }

  /** No dial is lost: each one announced has been started, but for the one about to be. */
  lemma {:induction false} EveryDialStarts(off: bool, es: seq<Event>, t: State)
    requires Run(Init(off), es, t)
    ensures |t.dials| + Bit(t.recv.Added?) == Announced(es)
    decreases |es|
  {
    if es != [] {
      var m := LastStep(Init(off), es, t);
      EveryDialStarts(off, es[..|es| - 1], m);
      DialsGrow(m, es[|es| - 1]);
    }
  }

  /** And a started one is over if and only if it has called Done. */
  lemma {:induction false} DialIsOverIff(off: bool, es: seq<Event>, t: State, k: nat)
    requires Run(Init(off), es, t)
    ensures k in t.dials <==> StartDial(k) in es
    ensures k in t.dials && t.dials[k].Ended? <==> DialDone(k) in es
    decreases |es|
  {
    if es != [] {
      var m := LastStep(Init(off), es, t);
      DialIsOverIff(off, es[..|es| - 1], m, k);
      assert es == es[..|es| - 1] + [es[|es| - 1]];
    }
  }

  /** A message may come and may lead to a dial whenever the loop is ready for it, and Stop may be
      called at any moment. */
  lemma AnythingMayHappen(s: State)
    ensures s.recv.Idle? ==> Enabled(s, Message)
    ensures s.recv.Handling? ==> Enabled(s, AddDial) && Enabled(s, NoDial)
    ensures s.once.Fresh? ==> Enabled(s, StopEnter)
  {
  }

  /** A late dial is possible: the loop can add one while Stop is already waiting. */
  lemma DialWhileStopWaits()
    ensures exists s :: Reachable(s) && s.once.Waiting? && Enabled(s, AddDial)
  {
    var es := [StopEnter, StopCancel, Message];
    var s0 := Init(true);
    var s1 := Apply(s0, StopEnter);
    var s2 := Apply(s1, StopCancel);
    var s3 := Apply(s2, Message);
    assert es[1..] == [StopCancel, Message] && es[1..][1..] == [Message] && es[1..][1..][1..] == [];
    assert Run(s3, [], s3);
    assert Run(s2, [Message], s3);
    assert Run(s1, [StopCancel, Message], s3);
    assert Run(s0, es, s3);
  }

  /** A step of the mesh or of the Stop body itself, with no further message coming in. */
  predicate Progress(s: State, e: Event) { Enabled(s, e) && !e.Message? && !e.StopReturns? }

  ghost predicate CanMove(s: State) { exists e :: Progress(s, e) }

  /** Once Stop has been called, something can move without a further message until its body
      is complete. */
  lemma StopIsNotStuck(s: State)
    requires Reachable(s) && !s.once.Fresh? && !s.once.Complete?
    ensures CanMove(s)
  {
    ReachableInv(s);
    if s.once.Entered? {
      assert Progress(s, StopCancel);
    } else if s.once.Waited? {
      assert Progress(s, TopicClose);
    } else if s.wg == 0 {
      assert Progress(s, WaitReturns);
    } else if k :| k in s.dials && Counted(s.dials[k]) {
      assert Progress(s, if s.dials[k].Running? then DialEnds(k) else DialDone(k));
    } else {
      SumZero(s.dials, LiveW());
      if Counted(s.evict) {
        assert Progress(s, if s.evict.Running? then EvictExit else EvictDone);
      } else if Counted(s.advertise) {
        assert Progress(s, if s.advertise.Running? then AdvertiseExit else AdvertiseDone);
      } else if s.recv.Added? {
        FreshDial(s.dials);
        var k :| k !in s.dials;
        assert Progress(s, StartDial(k));
      } else {
        assert Progress(s, if s.recv.Idle? then RecvExit else if s.recv.Handling? then NoDial else RecvDone);
      }
    }
  }

  function RecvWork(r: Recv): nat {
    match r
    case Handling => 6
    case Added => 5
    case Idle => 2
    case Closing => 1
    case Closed => 0
  }

  function LoopWork(l: Loop): nat { if l.Running? then 2 else if l.Leaving? then 1 else 0 }

  function OnceWork(o: Once): nat {
    match o
    case Fresh => 4
    case Entered => 3
    case Waiting => 2
    case Waited => 1
    case Complete => 0
  }

  function LoopWorkW(): (nat, Loop) -> nat { (_: nat, l: Loop) => LoopWork(l) }

  ghost function Work(s: State): nat {
    RecvWork(s.recv) + LoopWork(s.evict) + LoopWork(s.advertise) + OnceWork(s.once) + Sum(s.dials, LoopWorkW())
  }

  lemma StepWork(s: State, e: Event)
    requires Progress(s, e)
    ensures Work(Apply(s, e)) < Work(s)
  {
    match e
    case StartDial(k) => SumUpdate(s.dials, LoopWorkW(), k, Running);
    case DialEnds(k) => SumUpdate(s.dials, LoopWorkW(), k, Leaving);
    case DialDone(k) => SumUpdate(s.dials, LoopWorkW(), k, Ended);
    case _ =>
  }

  ghost predicate ProgressRun(s: State, es: seq<Event>, t: State)
    decreases |es|
  {
    if es == [] then s == t else Progress(s, es[0]) && ProgressRun(Apply(s, es[0]), es[1..], t)
  }

  lemma {:induction false} ProgressIsShort(s: State, es: seq<Event>, t: State)
    requires ProgressRun(s, es, t)
    ensures |es| + Work(t) <= Work(s) && Run(s, es, t)
    ensures !s.once.Fresh? ==> !t.once.Fresh?
    decreases |es|
  {
    if es != [] {
      StepWork(s, es[0]);
      ProgressIsShort(Apply(s, es[0]), es[1..], t);
    }
  }

  lemma {:induction false} RunJoins(s: State, es: seq<Event>, t: State, ds: seq<Event>, u: State)
    requires Run(s, es, t) && Run(t, ds, u)
    ensures Run(s, es + ds, u)
    decreases |es|
  {
    if es == [] {
      assert es + ds == ds;
    } else {
      assert (es + ds)[1..] == es[1..] + ds;
      RunJoins(Apply(s, es[0]), es[1..], t, ds, u);
    }
  }

  /** Stop returns: once it has been called and messages have ceased, at most Work(s) steps
      are left in any order, and when none is left every Stop call can return. */
  lemma StopReturnsSoon(s: State, es: seq<Event>, t: State, caller: nat)
    requires Reachable(s) && !s.once.Fresh? && ProgressRun(s, es, t)
    ensures |es| <= Work(s)
    ensures !CanMove(t) ==> Enabled(t, StopReturns(caller)) && Quiet(t)
    ensures !CanMove(t) ==> caller in Apply(t, StopReturns(caller)).returned
  {
    ProgressIsShort(s, es, t);
    var off, pre :| Run(Init(off), pre, s);
    RunJoins(Init(off), pre, s, es, t);
    assert Reachable(t);
    ReachableInv(t);
    if !t.once.Complete? {
      StopIsNotStuck(t);
    }
  }

  lemma {:induction false} FreshDial(dials: map<nat, Loop>)
    ensures exists k: nat :: k !in dials
  {
    var n := Above(dials.Keys);
    assert n !in dials;
  }

  lemma {:induction false} Above(ks: set<nat>) returns (n: nat)
    ensures forall k | k in ks :: k < n
    decreases ks
  {
    n := 0;
    if k :| k in ks {
      var m := Above(ks - {k});
      n := if k < m then m else k + 1;
      forall j | j in ks ensures j < n {
        if j != k { assert j in ks - {k}; }
      }
    }
  }
}

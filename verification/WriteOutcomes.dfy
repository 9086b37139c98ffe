/** What each atomicWriteFile call returns in the runs of SharedTmp, and why. */
module WriteOutcomes {
  import opened Basics
  import opened SharedTmp

  lemma {:induction false} LastStep<T(!new)>(s: State<T>, es: seq<Event<T>>, t: State<T>) returns (m: State<T>)
    requires Run(s, es, t) && es != []
    ensures Run(s, es[..|es| - 1], m) && Enabled(m, es[|es| - 1]) && t == Apply(m, es[|es| - 1])
    decreases |es|
  {
    if |es| == 1 {
      m := s;
    } else {
      m := LastStep(Apply(s, es[0]), es[1..], t);
      assert es[1..][..|es| - 2] == es[..|es| - 1][1..];
    }
  }

  /** A step of call o, other than one write of many. */
  predicate StepOf<T>(e: Event<T>, o: CallId) {
    (e.Begin? || e.OpenTmp? || e.OpenErr? || (Moves(e) && !e.Put?)) && e.o == o
  }

  predicate FailureOf<T>(e: Event<T>, o: CallId) {
    match e
    case OpenErr(q) => q == o
    case PutErr(q) => q == o
    case Sync(q, good) => q == o && !good
    case Close(q, good) => q == o && !good
    case RenameErr(q) => q == o
    case _ => false
  }

  function Own<T>(es: seq<Event<T>>, o: CallId): seq<Event<T>> {
    if es == [] then []
    else Own(es[..|es| - 1], o) + if StepOf(es[|es| - 1], o) then [es[|es| - 1]] else []
  }

  /** atomicWriteFile from top to bottom when nothing fails. */
  function Program<T>(o: CallId, data: seq<T>): seq<Event<T>> {
    [Begin(o, data), OpenTmp(o), PutAll(o), Sync(o, true), Close(o, true), Rename(o)]
  }

  predicate Smooth<T>(c: Call<T>) { c.Ready? || Live(c) || (c.Returned? && c.isNil) }

  function Done<T>(c: Call<T>): nat
    requires Smooth(c)
  {
    match c
    case Ready(_) => 1
    case Returned(_) => 6
    case Open(_, _, _, stage, _) =>
      match stage
      case ToWrite => 2
      case ToSync => 3
      case ToClose => 4
      case ToRename => 5
  }

  ghost predicate NoFailure<T>(es: seq<Event<T>>, o: CallId) { forall i | 0 <= i < |es| :: !FailureOf(es[i], o) }

  ghost predicate History<T(!new)>(es: seq<Event<T>>, c: Call<T>, o: CallId) {
    if Smooth(c) then NoFailure(es, o) && exists data :: data != [] && Own(es, o) == Program(o, data)[..Done(c)]
    else !NoFailure(es, o)
  }

  ghost predicate Uninterrupted<T>(es: seq<Event<T>>) { forall i | 0 <= i < |es| :: !es[i].Kill? && !es[i].Crash? }

  lemma SmoothStep<T(!new)>(m: State<T>, e: Event<T>, o: CallId)
    requires Bounded(m) && Enabled(m, e) && !e.Kill? && !e.Crash? && o in m.calls
    ensures o in Apply(m, e).calls
    ensures Smooth(Apply(m, e).calls[o]) <==> Smooth(m.calls[o]) && !FailureOf(e, o)
    ensures !StepOf(e, o) && Smooth(m.calls[o]) ==> Done(Apply(m, e).calls[o]) == Done(m.calls[o])
    ensures StepOf(e, o) && Smooth(Apply(m, e).calls[o]) ==>
      Done(Apply(m, e).calls[o]) == Done(m.calls[o]) + 1 <= 6
      && forall data: seq<T> :: e == Program(o, data)[Done(m.calls[o])]
  {
  }

  lemma HistoryStep<T(!new)>(es: seq<Event<T>>, m: State<T>, e: Event<T>, o: CallId)
    requires Bounded(m) && Enabled(m, e) && !e.Kill? && !e.Crash? && o in m.calls && History(es, m.calls[o], o)
    ensures o in Apply(m, e).calls && History(es + [e], Apply(m, e).calls[o], o)
  {
    SmoothStep(m, e, o);
    var c, c' := m.calls[o], Apply(m, e).calls[o];
    assert NoFailure(es + [e], o) <==> NoFailure(es, o) && !FailureOf(e, o) by {
      assert (es + [e])[|es|] == e && forall i | 0 <= i < |es| :: (es + [e])[i] == es[i];
    }
    if Smooth(c') {
      var data :| data != [] && Own(es, o) == Program(o, data)[..Done(c)];
      hide Enabled, Apply, Smooth, Live;
      OwnSnoc(es, e, o);
      if StepOf(e, o) {
        assert Program(o, data)[..Done(c)] + [e] == Program(o, data)[..Done(c) + 1];
      }
      assert Own(es + [e], o) == Program(o, data)[..Done(c')];
    }
  }

  lemma OwnSnoc<T>(es: seq<Event<T>>, e: Event<T>, o: CallId)
    ensures Own(es + [e], o) == Own(es, o) + if StepOf(e, o) then [e] else []
  {
    assert (es + [e])[..|es|] == es;
  }

  lemma {:induction false} NotBegun<T(!new)>(s: State<T>, es: seq<Event<T>>, t: State<T>, o: CallId)
    requires Run(s, es, t) && Uninterrupted(es) && o !in t.calls
    ensures Own(es, o) == [] && NoFailure(es, o)
    decreases |es|
  {
    if es != [] {
      var m := LastStep(s, es, t);
      NotBegun(s, es[..|es| - 1], m, o);
      forall i | 0 <= i < |es| ensures !FailureOf(es[i], o) {
        if i < |es| - 1 { assert es[i] == es[..|es| - 1][i]; }
      }
    }
  }

  lemma {:induction false} CallHistory<T(!new)>(s: State<T>, es: seq<Event<T>>, t: State<T>, o: CallId)
    requires Bounded(s) && o !in s.calls && Run(s, es, t) && Uninterrupted(es) && o in t.calls
    ensures History(es, t.calls[o], o)
    decreases |es|
  {
    var n := |es| - 1;
    var m := LastStep(s, es, t);
    assert es == es[..n] + [es[n]];
    if o in m.calls {
      CallHistory(s, es[..n], m, o);
      RunBounded(s, es[..n], m);
      HistoryStep(es[..n], m, es[n], o);
    } else {
      NotBegun(s, es[..n], m, o);
      OwnSnoc(es[..n], es[n], o);
      assert Own(es, o) == Program(o, es[n].data)[..1];
      forall i | 0 <= i < |es| ensures !FailureOf(es[i], o) {
        if i < n { assert es[i] == es[..n][i]; }
      }
    }
  }

  /** However calls overlap, a call that has returned, returned nil if and only if none of its own
      steps failed; it has then opened, written everything, synced, closed and renamed, in
      that order. */
  lemma ReturnsNilIff<T(!new)>(s: State<T>, es: seq<Event<T>>, t: State<T>, o: CallId)
    requires Bounded(s) && o !in s.calls && Run(s, es, t) && Uninterrupted(es) && o in t.calls && t.calls[o].Returned?
    ensures t.calls[o].isNil <==> NoFailure(es, o)
    ensures t.calls[o].isNil ==> exists data :: data != [] && Own(es, o) == Program(o, data)
  {
    CallHistory(s, es, t, o);
    if t.calls[o].isNil {
      var data :| data != [] && Own(es, o) == Program(o, data)[..6];
      assert Program(o, data)[..6] == Program(o, data);
    }
  }
}

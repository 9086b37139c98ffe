/** What Pins, Unpins and restarts do to the pin set over the runs of PinLifecycle: what is in
    memory, why, and when it is there for good. */
module PinOutcomes {
  import opened AtomicFile
  import opened Basics
  import opened Cids
  import opened GatewayGuard
  import opened PinLifecycle
  import opened PinSet
  import SharedTmp

  lemma {:induction false} LastStep(links: Cid -> set<Cid>, s: State, es: seq<Event>, t: State) returns (m: State)
    requires Run(links, s, es, t) && es != []
    ensures Run(links, s, es[..|es| - 1], m) && Enabled(links, m, es[|es| - 1])
    ensures t == Apply(links, m, es[|es| - 1])
    decreases |es|
  {
    if |es| == 1 {
      m := s;
    } else {
      m := LastStep(links, Apply(links, s, es[0]), es[1..], t);
      assert es[1..][..|es| - 2] == es[..|es| - 1][1..];
    }
  }

  /** The process neither dies nor restarts. */
  ghost predicate StaysUp(es: seq<Event>) { forall i | 0 <= i < |es| :: !es[i].Kill? && !es[i].Crash? && !es[i].Load? }

  ghost predicate NoUnpin(es: seq<Event>, c: Cid) { forall i | 0 <= i < |es| :: !(es[i].StartUnpin? && es[i].c == c) }

  // ----- the block store -----

  /** The store holds what was there and what was imported since; nothing else ever changes it,
      not an Unpin and not a crash. */
  lemma {:induction false} StoreIff(links: Cid -> set<Cid>, s: State, es: seq<Event>, t: State, b: Cid)
    requires Run(links, s, es, t)
    ensures b in t.store <==> b in s.store || exists i :: 0 <= i < |es| && es[i].StoreBlocks? && b in es[i].bs
    decreases |es|
  {
    if es != [] {
      var n := |es| - 1;
      var m := LastStep(links, s, es, t);
      StoreIff(links, s, es[..n], m, b);
      if i :| 0 <= i < n && es[..n][i].StoreBlocks? && b in es[..n][i].bs {
        assert es[i] == es[..n][i];
      }
      if i :| 0 <= i < |es| && es[i].StoreBlocks? && b in es[i].bs {
        assert i < n ==> es[..n][i] == es[i];
      }
    }
  }

  // ----- the pin set in memory -----

  /** es[k] marks c, and no Unpin of c starts after it. */
  ghost predicate LastMark(es: seq<Event>, c: Cid, k: nat) {
    k < |es| && es[k].Mark? && es[k].c == c && NoUnpin(es[k + 1..], c)
  }

  lemma NoUnpinSnoc(es: seq<Event>, e: Event, c: Cid)
    ensures NoUnpin(es + [e], c) <==> NoUnpin(es, c) && !(e.StartUnpin? && e.c == c)
  {
    assert (es + [e])[|es|] == e && forall i | 0 <= i < |es| :: (es + [e])[i] == es[i];
  }

  lemma LastMarkSnoc(es: seq<Event>, e: Event, c: Cid, k: nat)
    ensures LastMark(es + [e], c, k) <==>
      if k < |es| then LastMark(es, c, k) && !(e.StartUnpin? && e.c == c) else k == |es| && e.Mark? && e.c == c
  {
    if k < |es| {
      assert (es + [e])[k + 1..] == es[k + 1..] + [e];
      NoUnpinSnoc(es[k + 1..], e, c);
    } else if k == |es| {
      assert (es + [e])[k + 1..] == [];
    }
  }

  /** While the process runs, a CID is pinned if and only if a Pin of it has succeeded, or it was
      pinned before, and no Unpin of it has started since. */
  lemma {:induction false} MemoryFollowsMarks(links: Cid -> set<Cid>, s: State, es: seq<Event>, t: State, c: Cid)
    requires Run(links, s, es, t) && StaysUp(es)
    ensures c in t.pins <==> (c in s.pins && NoUnpin(es, c)) || exists k: nat :: LastMark(es, c, k)
    decreases |es|
  {
    if es != [] {
      var n := |es| - 1;
      var before, e := es[..n], es[n];
      var m := LastStep(links, s, es, t);
      assert es == before + [e];
      forall i | 0 <= i < n ensures !before[i].Kill? && !before[i].Crash? && !before[i].Load? {
        assert before[i] == es[i];
      }
      MemoryFollowsMarks(links, s, before, m, c);
      NoUnpinSnoc(before, e, c);
      if k: nat :| LastMark(before, c, k) {
        LastMarkSnoc(before, e, c, k);
      }
      if k: nat :| LastMark(es, c, k) {
        LastMarkSnoc(before, e, c, k);
      }
      LastMarkSnoc(before, e, c, n);
      MemoryStep(links, m, e, c);
    }
  }

  lemma MemoryStep(links: Cid -> set<Cid>, m: State, e: Event, c: Cid)
    requires Enabled(links, m, e) && !e.Kill? && !e.Crash? && !e.Load?
    ensures c in Apply(links, m, e).pins <==>
      (e.Mark? && e.c == c) || (c in m.pins && !(e.StartUnpin? && e.c == c))
  {
    hide Complete, Guard, Elements, SharedTmp.Enabled, SharedTmp.Apply;
  }

  ghost predicate NoAnswer(es: seq<Event>, q: RequestId) { forall i | 0 <= i < |es| :: es[i] != Answered(q) }

  /** es[k] lets q through the guard for a path rooted at root, and no answer to q follows. */
  ghost predicate LastPass(es: seq<Event>, q: RequestId, root: Cid, k: nat) {
    && k < |es| && es[k].Pass? && es[k].q == q && "/ipfs/" <= es[k].path && RootOf(es[k].path) == root
    && NoAnswer(es[k + 1..], q)
  }

  lemma LastPassSnoc(es: seq<Event>, e: Event, q: RequestId, root: Cid, k: nat)
    ensures NoAnswer(es + [e], q) <==> NoAnswer(es, q) && e != Answered(q)
    ensures LastPass(es + [e], q, root, k) <==>
      if k < |es| then LastPass(es, q, root, k) && e != Answered(q) else k == |es| && Passes(e, q, root)
  {
    assert (es + [e])[|es|] == e && forall i | 0 <= i < |es| :: (es + [e])[i] == es[i];
    hide RootOf;
    if k < |es| {
      var rest := es[k + 1..];
      assert (es + [e])[k + 1..] == rest + [e];
      assert (rest + [e])[|rest|] == e && forall i | 0 <= i < |rest| :: (rest + [e])[i] == rest[i];
    } else if k == |es| {
      assert (es + [e])[k + 1..] == [];
    }
  }

  predicate Passes(e: Event, q: RequestId, root: Cid) {
    e.Pass? && e.q == q && "/ipfs/" <= e.path && RootOf(e.path) == root
  }

  /** A request is being served, for the root it asked for, from its passing the guard until it
      is answered. */
  lemma {:induction false} ServingIff(links: Cid -> set<Cid>, s: State, es: seq<Event>, t: State,
                                      q: RequestId, root: Cid)
    requires Run(links, s, es, t) && StaysUp(es)
    ensures ServedFor(t, q, root) <==>
      (ServedFor(s, q, root) && NoAnswer(es, q)) || exists k: nat :: LastPass(es, q, root, k)
    decreases |es|
  {
    if es != [] {
      var n := |es| - 1;
      var before, e := es[..n], es[n];
      var m := LastStep(links, s, es, t);
      assert es == before + [e];
      forall i | 0 <= i < n ensures !before[i].Kill? && !before[i].Crash? && !before[i].Load? {
        assert before[i] == es[i];
      }
      ServingIff(links, s, before, m, q, root);
      ServingStep(links, m, e, q, root);
      hide Run, RootOf, Enabled, Apply, LastPass, NoAnswer, Passes;
      if k: nat :| LastPass(before, q, root, k) {
        LastPassSnoc(before, e, q, root, k);
        assert k < |before| by { LastPassInRange(before, q, root, k); }
      }
      if k: nat :| LastPass(es, q, root, k) {
        LastPassSnoc(before, e, q, root, k);
      }
      LastPassSnoc(before, e, q, root, n);
    }
  }

  lemma LastPassInRange(es: seq<Event>, q: RequestId, root: Cid, k: nat)
    requires LastPass(es, q, root, k)
    ensures k < |es|
  {
  }

  predicate ServedFor(s: State, q: RequestId, root: Cid) { q in s.serving && s.serving[q] == root }

  lemma ServingStep(links: Cid -> set<Cid>, m: State, e: Event, q: RequestId, root: Cid)
    requires Enabled(links, m, e) && !e.Kill? && !e.Crash?
    ensures ServedFor(Apply(links, m, e), q, root) <==>
      Passes(e, q, root) || (ServedFor(m, q, root) && e != Answered(q))
  {
    hide Complete, Guard, Elements, SharedTmp.Enabled, SharedTmp.Apply;
  }

  /** Nothing in the environment is ruled out: while the node is up calls and requests come,
      every leg of a fetch may succeed or fail, imports happen and the process may die. */
  lemma AnythingMayHappen(links: Cid -> set<Cid>, s: State, o: OpId, c: Cid, bs: set<Cid>)
    ensures Enabled(links, s, StoreBlocks(bs))
    ensures s.up ==> Enabled(links, s, Kill)
    ensures !s.up ==> Enabled(links, s, Load)
    ensures s.up && o !in s.ops ==> Enabled(links, s, StartPin(o, c)) && Enabled(links, s, StartUnpin(o, c))
    ensures s.Is(o, Fetching(c)) ==> Enabled(links, s, BitswapErr(o))
    ensures s.Is(o, Falling(c)) ==> Enabled(links, s, CarOk(o)) && Enabled(links, s, CarErr(o))
    ensures s.Is(o, Rewalk(c)) ==> Enabled(links, s, WalkErr(o))
    ensures s.Is(o, Rewalk(c)) && Complete(links, s.store, c) ==> Enabled(links, s, WalkOk(o))
    ensures s.Is(o, Fetched(c)) ==> Enabled(links, s, Mark(o, c))
  {
  }

  // ----- each op follows its program -----

  predicate StepOf(e: Event, o: OpId) { (OfFetch(e) || e.StartPin? || e.StartUnpin? || e.Snapshot?) && e.o == o }

  function Own(es: seq<Event>, o: OpId): seq<Event> {
    if es == [] then []
    else Own(es[..|es| - 1], o) + if StepOf(es[|es| - 1], o) then [es[|es| - 1]] else []
  }

  /** The two ways to a complete DAG: bitswap, or a gateway's CAR that a walk then confirms. */
  function Walked(o: OpId, c: Cid, viaCAR: bool): seq<Event> {
    if viaCAR then [StartPin(o, c), BitswapErr(o), CarOk(o), WalkOk(o)] else [StartPin(o, c), BitswapOk(o)]
  }

  /** own is what an op at this point has done since it started. */
  ghost predicate Did(own: seq<Event>, o: OpId, op: Op) {
    match op
    case Fetching(c) => own == [StartPin(o, c)]
    case Falling(c) => own == [StartPin(o, c), BitswapErr(o)]
    case Rewalk(c) => own == [StartPin(o, c), BitswapErr(o), CarOk(o)]
    case Fetched(c) => exists viaCAR :: own == Walked(o, c, viaCAR)
    case ToSave => Changed(own, o)
    case Saving => |own| > 0 && own[|own| - 1].Snapshot? && Changed(own[..|own| - 1], o)
    case Over => exists c ::
      own == [StartPin(o, c), BitswapErr(o), CarErr(o)] || own == [StartPin(o, c), BitswapErr(o), CarOk(o), WalkErr(o)]
  }

  /** The op has changed the pin set: a Pin that fetched all, or an Unpin. */
  ghost predicate Changed(own: seq<Event>, o: OpId) {
    || (exists c :: own == [StartUnpin(o, c)])
    || (exists c, viaCAR :: own == Walked(o, c, viaCAR) + [Mark(o, c)])
  }

  lemma DidStep(links: Cid -> set<Cid>, own: seq<Event>, m: State, e: Event, o: OpId)
    requires Enabled(links, m, e) && !e.Kill? && !e.Crash?
    requires if o in m.ops then Did(own, o, m.ops[o]) else own == []
    ensures var t := Apply(links, m, e); var own' := own + if StepOf(e, o) then [e] else [];
      if o in t.ops then Did(own', o, t.ops[o]) else own' == []
  {
    hide Complete, Guard, Elements, SharedTmp.Enabled, SharedTmp.Apply;
    if StepOf(e, o) {
      if e.Snapshot? {
        assert (own + [e])[..|own|] == own;
      } else if e.BitswapOk? {
        assert own + [e] == Walked(o, m.ops[o].c, false);
      } else if e.WalkOk? {
        assert own + [e] == Walked(o, m.ops[o].c, true);
      }
    } else {
      assert own + [] == own;
    }
  }

  /** Whatever else runs, each op's own steps are those of the source in order: a Pin marks its
      CID only after a walk of its whole DAG succeeded, by bitswap or else after a gateway's
      CAR, it fails only if that failed as well, and only a change is saved. */
  lemma {:induction false} OpFollowsItsProgram(links: Cid -> set<Cid>, s: State, es: seq<Event>, t: State, o: OpId)
    requires o !in s.ops && Run(links, s, es, t) && forall i | 0 <= i < |es| :: !es[i].Kill? && !es[i].Crash?
    ensures if o in t.ops then Did(Own(es, o), o, t.ops[o]) else Own(es, o) == []
    decreases |es|
  {
    if es != [] {
      var n := |es| - 1;
      var m := LastStep(links, s, es, t);
      forall i | 0 <= i < n ensures !es[..n][i].Kill? && !es[..n][i].Crash? {
        assert es[..n][i] == es[i];
      }
      OpFollowsItsProgram(links, s, es[..n], m, o);
      DidStep(links, Own(es[..n], o), m, es[n], o);
    }
  }

  /** And the steps are there to be taken: a CID whose whole DAG is stored gets pinned, and the
      gateway then serves it. */
  lemma CompleteDagGetsPinned(links: Cid -> set<Cid>, s: State, o: OpId, c: Cid, path: string)
    requires s.up && o !in s.ops && Complete(links, s.store, c) && ValidCID(c) && RootedAt(path, c)
    ensures var es := [StartPin(o, c), BitswapOk(o), Mark(o, c)];
      exists t :: Run(links, s, es, t) && t.pins == s.pins + {c} && Guard(path, t.pins) == Serve
  {
    var s1 := Apply(links, s, StartPin(o, c));
    var s2 := Apply(links, s1, BitswapOk(o));
    var t := Apply(links, s2, Mark(o, c));
    var es := [StartPin(o, c), BitswapOk(o), Mark(o, c)];
    assert es[1..] == [BitswapOk(o), Mark(o, c)] && es[1..][1..] == [Mark(o, c)] && es[1..][1..][1..] == [];
    assert Run(links, t, [], t);
    assert Run(links, s2, [Mark(o, c)], t);
    assert Run(links, s1, [BitswapOk(o), Mark(o, c)], t);
    assert Run(links, s, es, t);
    RootDecides(path, c, t.pins);
  }
}

/** When a pin is there for good: saved, on disk, and safe from snapshots taken before it. */
module PinDurability {
  import opened AtomicFile
  import opened Basics
  import opened PinLifecycle
  import opened PinOutcomes
  import opened PinSet
  import SharedTmp

  function Listed(data: Data): set<Cid> { if Decode(data).Some? then Elements(Decode(data).value) else {} }

  /** The save may still be published: it is waiting to open .tmp, or .tmp is its to rename. */
  predicate MayPublish(s: SharedTmp.State<Token>, o: OpId) {
    o in s.calls && (s.calls[o].Ready? || (SharedTmp.Live(s.calls[o]) && s.fs.tmp.Some?))
  }

  predicate Pending(s: State, o: OpId) { MayPublish(s.saves, o) }

  /** No snapshot from before c was pinned, or from after its Unpin, is still to be published. */
  ghost predicate NoneStale(s: State, c: Cid) { forall o | Pending(s, o) :: c in Listed(s.saves.calls[o].data) }

  predicate OnDisk(s: State, c: Cid) { c in Loaded(s.PinFile()) && c in Loaded(s.saves.fs.View().disk) }

  predicate Held(s: State, c: Cid) { OnDisk(s, c) && (s.up ==> c in s.pins) }

  // ----- one step -----

  ghost predicate FileInv(s: State) { SharedTmp.Sole(s.saves) && SharedTmp.Whole(s.saves) && IdInv(s) }

  /** The file events that publish: a rename, the directory reaching the disk, a crash. */
  predicate Publishes(f: FileEvent) { f.Rename? || f.Persist? || f.Crash? }

  /** Any other leaves what is published as it reads. */
  lemma OthersPublishNothing(s: SharedTmp.State<Token>, f: FileEvent)
    requires SharedTmp.Sole(s) && SharedTmp.Whole(s) && SharedTmp.Enabled(s, f) && (f.OpenTmp? ==> s.NoneLive())
    requires !Publishes(f)
    ensures var v, w := s.fs.View(), SharedTmp.Apply(s, f).fs.View(); w.path == v.path && w.disk == v.disk
  {
    SharedTmp.StepView(s, f);
  }

  lemma StepOnDisk(links: Cid -> set<Cid>, s: State, e: Event, c: Cid)
    requires FileInv(s) && OnDisk(s, c) && NoneStale(s, c)
    requires Enabled(links, s, e) && (Opens(e) ==> s.saves.NoneLive())
    ensures OnDisk(Apply(links, s, e), c)
  {
    var f := FilesOf(e);
    if f.Some? {
      if !Publishes(f.value) {
        OthersPublishNothing(s.saves, f.value);
      } else if f.value.Rename? {
        SharedTmp.StepWhole(s.saves, f.value);
        SharedTmp.StepView(s.saves, f.value);
        assert Pending(s, f.value.o);
      } else {
        SharedTmp.StepView(s.saves, f.value);
      }
    }
  }

  lemma FilePending(s: SharedTmp.State<Token>, f: FileEvent, o: OpId)
    requires SharedTmp.Sole(s) && SharedTmp.Enabled(s, f) && (f.OpenTmp? ==> s.NoneLive())
    requires MayPublish(SharedTmp.Apply(s, f), o)
    ensures if f.Begin? && f.o == o then SharedTmp.Apply(s, f).calls[o].data == f.data
            else MayPublish(s, o) && SharedTmp.Apply(s, f).calls[o].data == s.calls[o].data
  {
    hide SharedTmp.Overlay;
  }

  /** A step makes no save pending but the one whose snapshot it takes. */
  lemma StepPending(links: Cid -> set<Cid>, s: State, e: Event, o: OpId)
    requires FileInv(s) && Enabled(links, s, e) && (Opens(e) ==> s.saves.NoneLive())
    requires Pending(Apply(links, s, e), o)
    ensures if e.Snapshot? && e.o == o then Apply(links, s, e).saves.calls[o].data == Encode(e.cids)
            else Pending(s, o) && Apply(links, s, e).saves.calls[o].data == s.saves.calls[o].data
  {
    hide Complete, Elements, Encode, SharedTmp.Apply, SharedTmp.Enabled, SharedTmp.Sole, SharedTmp.Whole, MayPublish;
    if FilesOf(e).Some? {
      FilePending(s.saves, FilesOf(e).value, o);
    }
  }

  lemma StepHeld(links: Cid -> set<Cid>, s: State, e: Event, c: Cid)
    requires FileInv(s) && Held(s, c) && NoneStale(s, c)
    requires Enabled(links, s, e) && (Opens(e) ==> s.saves.NoneLive()) && !(e.StartUnpin? && e.c == c)
    ensures Held(Apply(links, s, e), c) && NoneStale(Apply(links, s, e), c)
  {
    StepOnDisk(links, s, e, c);
    var t := Apply(links, s, e);
    assert t.up ==> c in t.pins by {
      if !e.Kill? && !e.Crash? && !e.Load? {
        MemoryStep(links, s, e, c);
      }
    }
    forall o | Pending(t, o) ensures c in Listed(t.saves.calls[o].data) {
      StepPending(links, s, e, o);
      if e.Snapshot? && e.o == o {
        EncodeDecode(e.cids);
      }
    }
  }

  lemma StepFileInv(links: Cid -> set<Cid>, s: State, e: Event)
    requires FileInv(s) && Enabled(links, s, e) && (Opens(e) ==> s.saves.NoneLive())
    ensures FileInv(Apply(links, s, e))
  {
    hide SharedTmp.Sole, SharedTmp.Whole, IdInv;
    StepFiles(links, s, e);
    StepIds(links, s, e);
  }

  lemma {:induction false} RunHeld(links: Cid -> set<Cid>, s: State, es: seq<Event>, t: State, c: Cid)
    requires FileInv(s) && Held(s, c) && NoneStale(s, c)
    requires Run(links, s, es, t) && OpensAlone(links, s, es) && NoUnpin(es, c)
    ensures FileInv(t) && Held(t, c) && NoneStale(t, c)
    decreases |es|
  {
    if es != [] {
      hide FileInv, Held, NoneStale, Enabled, Apply;
      StepFileInv(links, s, es[0]);
      StepHeld(links, s, es[0], c);
      forall i | 0 <= i < |es| - 1 ensures !(es[1..][i].StartUnpin? && es[1..][i].c == c) {
        assert es[1..][i] == es[i + 1];
      }
      RunHeld(links, Apply(links, s, es[0]), es[1..], t, c);
    }
  }

  lemma AloneFileInv(links: Cid -> set<Cid>, s: State)
    requires ReachableAlone(links, s)
    ensures FileInv(s)
  {
    AloneInv(links, s);
    var es :| Run(links, Empty, es, s) && OpensAlone(links, Empty, es);
    RunIds(links, Empty, es, s);
  }

  // ----- what a stale save does -----

  /** A live save goes on to its rename, or gives up there. */
  lemma GoesOn(links: Cid -> set<Cid>, s: State, a: OpId) returns (es: seq<Event>, t: State)
    requires FileInv(s) && a in s.saves.calls && SharedTmp.Live(s.saves.calls[a])
    ensures Run(links, s, es, t) && OpensAlone(links, s, es) && NoUnpins(es) && FileInv(t)
    ensures t.saves.AtStage(a, SharedTmp.ToRename) && t.saves.calls[a].data == s.saves.calls[a].data
    ensures t.saves.fs.tmp == s.saves.fs.tmp && t == s.(saves := t.saves)
    ensures forall o | o in s.saves.calls && o != a :: o in t.saves.calls && t.saves.calls[o] == s.saves.calls[o]
  {
    assert SharedTmp.Run(s.saves, [], s.saves);
    var fs, u := SharedTmp.GoesOn(s.saves, [], s.saves, a);
    FilesOnly(links, s, fs, u);
    es, t := InFiles(fs), s.(saves := u);
    RunAlone(links, s, es, t);
    assert IdInv(t);
  }

  ghost predicate NoUnpins(es: seq<Event>) { forall i | 0 <= i < |es| :: !es[i].StartUnpin? }

  lemma Then(links: Cid -> set<Cid>, s: State, es: seq<Event>, t: State, e: Event) returns (es': seq<Event>, t': State)
    requires Run(links, s, es, t) && OpensAlone(links, s, es) && NoUnpins(es) && FileInv(t)
    requires Enabled(links, t, e) && (Opens(e) ==> t.saves.NoneLive()) && !e.StartUnpin?
    ensures t' == Apply(links, t, e) && FileInv(t')
    ensures Run(links, s, es', t') && OpensAlone(links, s, es') && NoUnpins(es')
  {
    StepFileInv(links, t, e);
    hide Run, OpensAlone, FileInv, Enabled, Apply;
    RunThen(links, s, es, t, e);
    es', t' := es + [e], Apply(links, t, e);
  }

  lemma {:induction false} Joins(links: Cid -> set<Cid>, s: State, es: seq<Event>, t: State, ds: seq<Event>, u: State)
    requires Run(links, s, es, t) && OpensAlone(links, s, es)
    requires Run(links, t, ds, u) && OpensAlone(links, t, ds)
    ensures Run(links, s, es + ds, u) && OpensAlone(links, s, es + ds)
    decreases |es|
  {
    if es == [] {
      assert es + ds == ds;
    } else {
      assert (es + ds)[1..] == es[1..] + ds;
      Joins(links, Apply(links, s, es[0]), es[1..], t, ds, u);
    }
  }

  /** A live save whose .tmp is still there publishes what it took. */
  lemma Publish(links: Cid -> set<Cid>, s: State, o: OpId) returns (es: seq<Event>, t: State)
    requires FileInv(s) && o in s.saves.calls && SharedTmp.Live(s.saves.calls[o]) && s.saves.fs.tmp.Some?
    ensures Run(links, s, es, t) && OpensAlone(links, s, es) && NoUnpins(es) && FileInv(t)
    ensures t.PinFile() == Some(File(s.saves.calls[o].data, true)) && t == s.(saves := t.saves)
    ensures forall q | q in s.saves.calls && q != o :: q in t.saves.calls && t.saves.calls[q] == s.saves.calls[q]
  {
    es, t := GoesOn(links, s, o);
    SharedTmp.StepWhole(t.saves, SharedTmp.Rename(o));
    es, t := Then(links, s, es, t, InFile(SharedTmp.Rename(o)));
  }

  /** Whoever is at .tmp can fail and get out of the way. */
  lemma MakeWay(links: Cid -> set<Cid>, s: State, o: OpId) returns (es: seq<Event>, t: State)
    requires FileInv(s) && o in s.saves.calls && s.saves.calls[o].Ready?
    ensures Run(links, s, es, t) && OpensAlone(links, s, es) && NoUnpins(es) && FileInv(t)
    ensures t.saves.NoneLive() && o in t.saves.calls && t.saves.calls[o] == s.saves.calls[o]
  {
    if a :| a in s.saves.calls && SharedTmp.Live(s.saves.calls[a]) {
      es, t := GoesOn(links, s, a);
      es, t := Then(links, s, es, t, InFile(SharedTmp.RenameErr(a)));
    } else {
      es, t := [], s;
    }
  }

  /** Then the waiting one opens. */
  lemma MakeWayAndOpen(links: Cid -> set<Cid>, s: State, o: OpId) returns (es: seq<Event>, t: State)
    requires FileInv(s) && o in s.saves.calls && s.saves.calls[o].Ready?
    ensures Run(links, s, es, t) && OpensAlone(links, s, es) && NoUnpins(es) && FileInv(t)
    ensures o in t.saves.calls && SharedTmp.Live(t.saves.calls[o]) && t.saves.fs.tmp.Some?
    ensures t.saves.calls[o].data == s.saves.calls[o].data
  {
    es, t := MakeWay(links, s, o);
    es, t := Then(links, s, es, t, InFile(SharedTmp.OpenTmp(o)));
  }

  /** A pending save can publish its snapshot, however old it is. */
  lemma PendingCanPublish(links: Cid -> set<Cid>, s: State, o: OpId) returns (es: seq<Event>, t: State)
    requires FileInv(s) && Pending(s, o)
    ensures Run(links, s, es, t) && OpensAlone(links, s, es) && NoUnpins(es)
    ensures t.PinFile() == Some(File(s.saves.calls[o].data, true))
  {
    if s.saves.calls[o].Ready? {
      hide Run, OpensAlone, FileInv;
      var ds, m := MakeWayAndOpen(links, s, o);
      var fs, u := Publish(links, m, o);
      Joins(links, s, ds, m, fs, u);
      es, t := ds + fs, u;
    } else {
      es, t := Publish(links, s, o);
    }
  }

  // ----- main results -----

  /** c stays pinned and in pins.json whatever follows, crashes and restarts included, as long as
      saves open alone and no Unpin of c starts. */
  ghost predicate StaysPinned(links: Cid -> set<Cid>, s: State, c: Cid) {
    forall es, t | Run(links, s, es, t) && OpensAlone(links, s, es) && NoUnpin(es, c) :: Held(t, c)
  }

  /** Exactly when a saved pin is there for good: if and only if no save is pending whose
      snapshot lacks it. Snapshots are taken in one order and may be written in another, so
      a save from before the Pin can still overwrite the one from after it. */
  lemma SavedPinStaysIff(links: Cid -> set<Cid>, s: State, c: Cid)
    requires ReachableAlone(links, s) && Held(s, c)
    ensures StaysPinned(links, s, c) <==> NoneStale(s, c)
  {
    AloneFileInv(links, s);
    if NoneStale(s, c) {
      forall es, t | Run(links, s, es, t) && OpensAlone(links, s, es) && NoUnpin(es, c) ensures Held(t, c) {
        RunHeld(links, s, es, t, c);
      }
    } else {
      var o :| Pending(s, o) && c !in Listed(s.saves.calls[o].data);
      hide FileInv, Run, OpensAlone;
      var es, t := PendingCanPublish(links, s, o);
      assert NoUnpin(es, c);
      assert !Held(t, c);
    }
  }

  /** A call keeps the snapshot it was given. */
  lemma {:induction false} KeepsItsData(links: Cid -> set<Cid>, s: State, es: seq<Event>, t: State, o: OpId, data: Data)
    requires Run(links, s, es, t) && forall i | 0 <= i < |es| :: !es[i].Kill? && !es[i].Crash?
    requires o in s.saves.calls && (s.saves.calls[o].Ready? || s.saves.calls[o].Open? ==> s.saves.calls[o].data == data)
    ensures o in t.saves.calls && (t.saves.calls[o].Ready? || t.saves.calls[o].Open? ==> t.saves.calls[o].data == data)
    decreases |es|
  {
    if es != [] {
      KeepsData(links, s, es[0], o);
      hide Enabled, Apply;
      forall i | 0 <= i < |es| - 1 ensures !es[1..][i].Kill? && !es[1..][i].Crash? {
        assert es[1..][i] == es[i + 1];
      }
      KeepsItsData(links, Apply(links, s, es[0]), es[1..], t, o, data);
    }
  }

  lemma KeepsData(links: Cid -> set<Cid>, s: State, e: Event, o: OpId)
    requires Enabled(links, s, e) && !e.Kill? && !e.Crash? && o in s.saves.calls
    ensures o in Apply(links, s, e).saves.calls
    ensures var c, c' := s.saves.calls[o], Apply(links, s, e).saves.calls[o];
      c'.Ready? || c'.Open? ==> (c.Ready? || c.Open?) && c'.data == c.data
  {
    hide Complete, Elements, Encode, SharedTmp.Overlay;
  }

  lemma RenameThenPersist(links: Cid -> set<Cid>, t: State, o: OpId, cids: seq<Cid>, c: Cid) returns (u: State, v: State)
    requires FileInv(t) && Enabled(links, t, InFile(SharedTmp.Rename(o)))
    requires t.saves.calls[o].data == Encode(cids) && c in cids
    ensures u == Apply(links, t, InFile(SharedTmp.Rename(o))) && v == Apply(links, u, InFile(SharedTmp.Persist))
    ensures FileInv(v) && OnDisk(v, c) && v.up == t.up && v.pins == t.pins
  {
    EncodeDecode(cids);
    SharedTmp.StepWhole(t.saves, SharedTmp.Rename(o));
    StepFileInv(links, t, InFile(SharedTmp.Rename(o)));
    u := Apply(links, t, InFile(SharedTmp.Rename(o)));
    StepFileInv(links, u, InFile(SharedTmp.Persist));
    v := Apply(links, u, InFile(SharedTmp.Persist));
  }

  lemma SnapshotTaken(links: Cid -> set<Cid>, s: State, o: OpId, cids: seq<Cid>, es: seq<Event>, t: State, c: Cid)
    requires FileInv(s) && Enabled(links, s, Snapshot(o, cids)) && c in s.pins
    requires Run(links, Apply(links, s, Snapshot(o, cids)), es, t)
    requires OpensAlone(links, Apply(links, s, Snapshot(o, cids)), es)
    requires StaysUp(es) && NoUnpin(es, c)
    ensures FileInv(t) && c in cids && c in t.pins
    ensures o in t.saves.calls && (t.saves.calls[o].Open? ==> t.saves.calls[o].data == Encode(cids))
  {
    var s1 := Apply(links, s, Snapshot(o, cids));
    StepFileInv(links, s, Snapshot(o, cids));
    MemoryStep(links, s, Snapshot(o, cids), c);
    assert o in s1.saves.calls && s1.saves.calls[o] == SharedTmp.Ready(Encode(cids)) && c in Elements(cids);
    hide Enabled, Apply, FileInv;
    KeepsItsData(links, s1, es, t, o, Encode(cids));
    RunFileInv(links, s1, es, t);
    MemoryFollowsMarks(links, s1, es, t, c);
  }

  lemma {:induction false} RunFileInv(links: Cid -> set<Cid>, s: State, es: seq<Event>, t: State)
    requires FileInv(s) && Run(links, s, es, t) && OpensAlone(links, s, es)
    ensures FileInv(t)
    decreases |es|
  {
    if es != [] {
      StepFileInv(links, s, es[0]);
      RunFileInv(links, Apply(links, s, es[0]), es[1..], t);
    }
  }

  /** A pin is there for good once a save whose snapshot was taken after it has been renamed,
      the directory entry has reached the disk, and no older snapshot is pending: then,
      whatever follows, crashes and restarts included, it is in pins.json, and in memory
      whenever the node is up, until an Unpin of it starts. */
  lemma MarkedPinSurvives(links: Cid -> set<Cid>, s: State, o: OpId, cids: seq<Cid>, es: seq<Event>, t: State,
                          c: Cid, ds: seq<Event>, w: State)
    requires ReachableAlone(links, s) && Enabled(links, s, Snapshot(o, cids)) && c in s.pins
    requires Run(links, Apply(links, s, Snapshot(o, cids)), es, t)
    requires OpensAlone(links, Apply(links, s, Snapshot(o, cids)), es)
    requires StaysUp(es) && NoUnpin(es, c)
    requires Enabled(links, t, InFile(SharedTmp.Rename(o)))
    requires var v := Apply(links, Apply(links, t, InFile(SharedTmp.Rename(o))), InFile(SharedTmp.Persist));
      NoneStale(v, c) && Run(links, v, ds, w) && OpensAlone(links, v, ds) && NoUnpin(ds, c)
    ensures Held(w, c)
  {
    AloneFileInv(links, s);
    hide Enabled, Apply, FileInv, OnDisk, Run, OpensAlone, NoneStale;
    SnapshotTaken(links, s, o, cids, es, t, c);
    var u, v := RenameThenPersist(links, t, o, cids, c);
    RunHeld(links, v, ds, w, c);
  }

  // ----- the condition matters -----

  lemma OneToSave(links: Cid -> set<Cid>) returns (es: seq<Event>, s: State)
    ensures Run(links, Empty, es, s) && OpensAlone(links, Empty, es)
    ensures s == Empty.(up := true, ops := map[0 := ToSave])
  {
    es, s := [], Empty;
    assert Run(links, Empty, es, s) && OpensAlone(links, Empty, es);
    hide Run, OpensAlone, Complete;
    es, s := PinLifecycle.Then(links, Empty, es, s, Load);
    es, s := PinLifecycle.Then(links, Empty, es, s, StartUnpin(0, ""));
  }

  /** An Unpin has taken its snapshot, of an empty pin set, and not written it yet. */
  lemma OldSnapshot(links: Cid -> set<Cid>) returns (es: seq<Event>, s: State)
    ensures Run(links, Empty, es, s) && OpensAlone(links, Empty, es)
    ensures s.up && s.pins == {} && s.ops == map[0 := Saving] && s.store == {}
    ensures s.saves.calls == map[0 := SharedTmp.Ready(Encode([]))] && s.saves.fs == Empty.saves.fs
  {
    es, s := OneToSave(links);
    hide Run, OpensAlone, Complete, Encode;
    assert Elements([]) == {};
    es, s := PinLifecycle.Then(links, Empty, es, s, Snapshot(0, []));
  }

  /** Meanwhile a Pin of c succeeds. */
  lemma NewPin(links: Cid -> set<Cid>, bs: set<Cid>, c: Cid) returns (es: seq<Event>, s: State)
    requires Complete(links, bs, c)
    ensures Run(links, Empty, es, s) && OpensAlone(links, Empty, es)
    ensures s.up && s.pins == {c} && s.Is(1, ToSave)
    ensures s.saves.calls == map[0 := SharedTmp.Ready(Encode([]))] && s.saves.fs == Empty.saves.fs
  {
    es, s := OldSnapshot(links);
    hide Run, OpensAlone, FileInv, Complete, Encode;
    es, s := PinLifecycle.Then(links, Empty, es, s, StoreBlocks(bs));
    assert s.store == bs;
    es, s := PinLifecycle.Then(links, Empty, es, s, StartPin(1, c));
    es, s := PinLifecycle.Then(links, Empty, es, s, BitswapOk(1));
    es, s := PinLifecycle.Then(links, Empty, es, s, Mark(1, c));
  }

  lemma FromEmpty(links: Cid -> set<Cid>, es: seq<Event>, s: State)
    requires Run(links, Empty, es, s) && OpensAlone(links, Empty, es)
    ensures FileInv(s) && ReachableAlone(links, s)
  {
    RunFileInv(links, Empty, es, s);
  }

  lemma NewSnapshot(links: Cid -> set<Cid>, bs: set<Cid>, c: Cid) returns (es: seq<Event>, s: State)
    requires Complete(links, bs, c)
    ensures Run(links, Empty, es, s) && OpensAlone(links, Empty, es)
    ensures s.up && s.pins == {c} && s.saves.fs == Empty.saves.fs
    ensures s.saves.calls == map[0 := SharedTmp.Ready(Encode([])), 1 := SharedTmp.Ready(Encode([c]))]
  {
    es, s := NewPin(links, bs, c);
    hide Run, OpensAlone, FileInv, Complete, Encode;
    assert Elements([c]) == {c};
    es, s := PinLifecycle.Then(links, Empty, es, s, Snapshot(1, [c]));
  }

  lemma NewSave(links: Cid -> set<Cid>, bs: set<Cid>, c: Cid) returns (es: seq<Event>, s: State)
    requires Complete(links, bs, c)
    ensures Run(links, Empty, es, s) && OpensAlone(links, Empty, es) && FileInv(s)
    ensures s.up && s.pins == {c} && s.saves.fs.tmp.Some?
    ensures 1 in s.saves.calls && SharedTmp.Live(s.saves.calls[1]) && s.saves.calls[1].data == Encode([c])
    ensures 0 in s.saves.calls && s.saves.calls[0] == SharedTmp.Ready(Encode([]))
  {
    es, s := NewSnapshot(links, bs, c);
    hide Run, OpensAlone, FileInv, Complete, Encode;
    es, s := PinLifecycle.Then(links, Empty, es, s, InFile(SharedTmp.OpenTmp(1)));
    FromEmpty(links, es, s);
  }

  lemma SavedOver(links: Cid -> set<Cid>, bs: set<Cid>, c: Cid) returns (es: seq<Event>, s: State)
    requires Complete(links, bs, c)
    ensures Run(links, Empty, es, s) && OpensAlone(links, Empty, es)
    ensures s.up && s.pins == {c} && 0 in s.saves.calls && s.saves.calls[0] == SharedTmp.Ready(Encode([]))
    ensures s.PinFile() == s.saves.fs.View().disk == Some(File(Encode([c]), true))
  {
    es, s := NewSave(links, bs, c);
    hide Run, OpensAlone, FileInv, Complete, Encode;
    var ds, t := Publish(links, s, 1);
    Joins(links, Empty, es, s, ds, t);
    es, s := PinLifecycle.Then(links, Empty, es + ds, t, InFile(SharedTmp.Persist));
  }

  /** It does happen: for any CID whose DAG can be fetched there is a state in which it is pinned,
      saved and on disk, and yet an older snapshot without it is still to be written. */
  lemma StaleSaveArises(links: Cid -> set<Cid>, bs: set<Cid>, c: Cid)
    requires Complete(links, bs, c)
    ensures exists s :: ReachableAlone(links, s) && s.up && Held(s, c) && !NoneStale(s, c)
  {
    var es, s := SavedOver(links, bs, c);
    EncodeDecode([c]);
    EncodeDecode([]);
    assert Pending(s, 0) && c !in Listed(s.saves.calls[0].data);
    assert ReachableAlone(links, s) && Held(s, c);
  }
}

/** The life of pinned content across Pins, Unpins, saves, crashes and restarts
    (ipfsnode.go, atomicfile.go, ipfsnode_gateway.go), any interleaving. savePins takes a
    snapshot under the lock and writes it outside, so saves overlap as SharedTmp has it.
    Blocks, once stored, survive a crash. */
module PinLifecycle {
  import opened AtomicFile
  import opened Basics
  import opened Cids
  import opened GatewayGuard
  import opened PinSet
  import SharedTmp

  type OpId = nat
  type RequestId = nat
  type Data = seq<Token>
  type FileEvent = SharedTmp.Event<Token>

  // ----- DAGs -----

  ghost predicate IsPath(links: Cid -> set<Cid>, p: seq<Cid>) {
    |p| > 0 && forall i | 0 <= i < |p| - 1 :: p[i + 1] in links(p[i])
  }

  /** Every block reachable from root is stored. FetchGraph returns nil only then. */
  ghost predicate Complete(links: Cid -> set<Cid>, store: set<Cid>, root: Cid) {
    forall p: seq<Cid> | IsPath(links, p) && p[0] == root :: p[|p| - 1] in store
  }

  lemma CompleteGrows(links: Cid -> set<Cid>, store: set<Cid>, store': set<Cid>, root: Cid)
    requires Complete(links, store, root) && store <= store'
    ensures Complete(links, store', root)
  {
  }

  /** One Pin or Unpin call. */
  datatype Op =
    | Fetching(c: Cid)                   // bitswap leg
    | Falling(c: Cid)                    // bitswap failed, walking the gateways
    | Rewalk(c: Cid)                     // a gateway's CAR imported, offline walk to come
    | Fetched(c: Cid)                    // a walk of the whole graph succeeded
    | ToSave                             // pins changed, snapshot not taken
    | Saving                             // in atomicWriteFile, or back from it
    | Over

  /** saves holds the file system and the atomicWriteFile calls, each under its op's id. */
  datatype State = State(
    up: bool, store: set<Cid>, pins: set<Cid>, saves: SharedTmp.State<Token>,
    ops: map<OpId, Op>, serving: map<RequestId, Cid>)
  {
    function To(o: OpId, op: Op): State { this.(ops := ops[o := op]) }

    predicate Is(o: OpId, op: Op) { o in ops && ops[o] == op }

    /** pins.json as an open would see it. */
    function PinFile(): Option<File<Token>> { saves.fs.View().path }
  }

  const Empty :=
    State(false, {}, {}, SharedTmp.State(SharedTmp.Inodes(Nul, [], None, None, None), map[], {}), map[], map[])

  datatype Event =
    | StoreBlocks(bs: set<Cid>)          // any import: bitswap, a CAR, a CAR that fails later
    | StartPin(o: OpId, c: Cid) | BitswapOk(o: OpId) | BitswapErr(o: OpId)
    | CarOk(o: OpId) | CarErr(o: OpId) | WalkOk(o: OpId) | WalkErr(o: OpId) | Mark(o: OpId, c: Cid)
    | StartUnpin(o: OpId, c: Cid)
    | Snapshot(o: OpId, cids: seq<Cid>)  // encoded and handed to atomicWriteFile
    | InFile(f: FileEvent)               // a step of atomicWriteFile, or the directory reaching the disk
    | Kill | Crash(after: SharedTmp.Inodes<Token>) | Load
    | Pass(q: RequestId, path: string)   // gatewayGuard lets a request under /ipfs/ through
    | Answered(q: RequestId)

  /** Events of a fetch already begun. */
  predicate OfFetch(e: Event) {
    e.BitswapOk? || e.BitswapErr? || e.CarOk? || e.CarErr? || e.WalkOk? || e.WalkErr? || e.Mark?
  }

  /** What an event does to the files, if anything. */
  function FilesOf(e: Event): Option<FileEvent> {
    match e
    case Snapshot(o, cids) => Some(SharedTmp.Begin(o, Encode(cids)))
    case InFile(f) => Some(f)
    case Kill => Some(SharedTmp.Kill)
    case Crash(after) => Some(SharedTmp.Crash(after))
    case _ => None
  }

  ghost predicate Enabled(links: Cid -> set<Cid>, s: State, e: Event) {
    && (FilesOf(e).Some? ==> SharedTmp.Enabled(s.saves, FilesOf(e).value))
    && if OfFetch(e) then
      && e.o in s.ops
      && var op := s.ops[e.o];
      match e
      case BitswapOk(o) => op.Fetching? && Complete(links, s.store, op.c)
      case BitswapErr(o) => op.Fetching?
      case CarOk(o) => op.Falling?
      case CarErr(o) => op.Falling?
      case WalkOk(o) => op.Rewalk? && Complete(links, s.store, op.c)
      case WalkErr(o) => op.Rewalk?
      case Mark(o, c) => op == Fetched(c)
    else
      match e
      case StartPin(o, _) => s.up && o !in s.ops
      case StartUnpin(o, _) => s.up && o !in s.ops
      case Snapshot(o, cids) => s.Is(o, ToSave) && Elements(cids) == s.pins
      case InFile(f) => !f.Begin? && !f.Kill? && !f.Crash?
      case Load => !s.up
      case Pass(q, path) => s.up && q !in s.serving && "/ipfs/" <= path && Guard(path, s.pins) == Serve
      case Answered(q) => q in s.serving
      case Kill => s.up
      case _ => true
  }

  ghost function Apply(links: Cid -> set<Cid>, s: State, e: Event): State
    requires Enabled(links, s, e)
  {
    var saves := if FilesOf(e).Some? then SharedTmp.Apply(s.saves, FilesOf(e).value) else s.saves;
    match e
    case BitswapOk(o) => s.To(o, Fetched(s.ops[o].c))
    case BitswapErr(o) => s.To(o, Falling(s.ops[o].c))
    case CarOk(o) => s.To(o, Rewalk(s.ops[o].c))
    case CarErr(o) => s.To(o, Over)
    case WalkOk(o) => s.To(o, Fetched(s.ops[o].c))
    case WalkErr(o) => s.To(o, Over)
    case Mark(o, c) => s.To(o, ToSave).(pins := s.pins + {c})
    case StoreBlocks(bs) => s.(store := s.store + bs)
    case StartPin(o, c) => s.To(o, Fetching(c))
    case StartUnpin(o, c) => s.To(o, ToSave).(pins := s.pins - {c})
    case Snapshot(o, cids) => s.To(o, Saving).(saves := saves)
    case InFile(f) => s.(saves := saves)
    case Kill => State(false, s.store, {}, saves, map[], map[])
    case Crash(_) => State(false, s.store, {}, saves, map[], map[])
    case Load => s.(up := true, pins := Loaded(s.PinFile()))
    case Pass(q, path) => s.(serving := s.serving[q := RootOf(path)])
    case Answered(q) => s.(serving := s.serving - {q})
  }

  ghost predicate Run(links: Cid -> set<Cid>, s: State, es: seq<Event>, t: State)
    decreases |es|
  {
    if es == [] then s == t
    else Enabled(links, s, es[0]) && Run(links, Apply(links, s, es[0]), es[1..], t)
  }

  predicate Opens(e: Event) { e.InFile? && e.f.OpenTmp? }

  /** No save opens .tmp while another may still rename it. */
  ghost predicate OpensAlone(links: Cid -> set<Cid>, s: State, es: seq<Event>)
    decreases |es|
  {
    es == [] ||
    (Enabled(links, s, es[0]) && (Opens(es[0]) ==> s.saves.NoneLive())
     && OpensAlone(links, Apply(links, s, es[0]), es[1..]))
  }

  /** pins.json is missing, does not parse, or is a whole snapshot. */
  predicate Loadable(s: State) {
    s.PinFile().Some? && Decode(s.PinFile().value.data).Some? ==> s.PinFile().value.data in s.saves.snaps
  }

  /** No restart loads a damaged file that happens to parse. */
  ghost predicate LoadsSound(links: Cid -> set<Cid>, s: State, es: seq<Event>)
    decreases |es|
  {
    es == [] ||
    (Enabled(links, s, es[0]) && (es[0].Load? ==> Loadable(s)) && LoadsSound(links, Apply(links, s, es[0]), es[1..]))
  }

  // ----- the invariant -----

  ghost predicate AllComplete(links: Cid -> set<Cid>, store: set<Cid>, cs: set<Cid>) {
    forall c | c in cs :: Complete(links, store, c)
  }

  /** A file content that reads as a list, all of whose entries have their whole DAG stored. */
  ghost predicate GoodData(links: Cid -> set<Cid>, store: set<Cid>, data: Data) {
    Decode(data).Some? && AllComplete(links, store, Elements(Decode(data).value))
  }

  ghost predicate Inv(links: Cid -> set<Cid>, s: State) {
    && AllComplete(links, s.store, s.pins)
    && (forall o | o in s.ops && s.ops[o].Fetched? :: Complete(links, s.store, s.ops[o].c))
    && (forall q | q in s.serving :: Complete(links, s.store, s.serving[q]))
    && (forall d | d in s.saves.snaps :: GoodData(links, s.store, d))
  }

  /** A save is under way only for an op in atomicWriteFile, so a snapshot is never held up, and
      there are ops, pins and requests only while the process runs. */
  ghost predicate IdInv(s: State) {
    && (!s.up ==> s.ops == map[] && s.pins == {} && s.serving == map[])
    && forall o | o in s.saves.calls :: s.Is(o, Saving)
  }

  lemma StepIds(links: Cid -> set<Cid>, s: State, e: Event)
    requires IdInv(s) && Enabled(links, s, e)
    ensures IdInv(Apply(links, s, e))
  {
    hide Complete, Elements, Encode, Guard;
  }

  lemma StepStore(links: Cid -> set<Cid>, s: State, bs: set<Cid>)
    requires Inv(links, s)
    ensures Inv(links, s.(store := s.store + bs))
  {
    forall c | Complete(links, s.store, c) ensures Complete(links, s.store + bs, c) {
      CompleteGrows(links, s.store, s.store + bs, c);
    }
  }

  /** What counts as a snapshot: those taken, and nothing else ever. */
  lemma StepSnaps(links: Cid -> set<Cid>, s: State, e: Event)
    requires Enabled(links, s, e)
    ensures Apply(links, s, e).saves.snaps == s.saves.snaps + if e.Snapshot? then {Encode(e.cids)} else {}
  {
  }

  lemma StepFetch(links: Cid -> set<Cid>, s: State, e: Event)
    requires Inv(links, s) && OfFetch(e) && Enabled(links, s, e)
    ensures Inv(links, Apply(links, s, e))
  {
    hide Complete, GoodData;
  }

  lemma StepInv(links: Cid -> set<Cid>, s: State, e: Event)
    requires Inv(links, s) && Enabled(links, s, e) && (e.Load? ==> Loadable(s))
    ensures Inv(links, Apply(links, s, e))
  {
    if OfFetch(e) {
      StepFetch(links, s, e);
    } else if e.StoreBlocks? {
      StepStore(links, s, e.bs);
    } else {
      StepSnaps(links, s, e);
      hide Complete, Decode, SharedTmp.Enabled, SharedTmp.Apply;
      if e.Snapshot? {
        EncodeDecode(e.cids);
      }
    }
  }

  lemma StepFiles(links: Cid -> set<Cid>, s: State, e: Event)
    requires SharedTmp.Sole(s.saves) && SharedTmp.Whole(s.saves)
    requires Enabled(links, s, e) && (Opens(e) ==> s.saves.NoneLive())
    ensures SharedTmp.Sole(Apply(links, s, e).saves) && SharedTmp.Whole(Apply(links, s, e).saves)
  {
    hide SharedTmp.Sole, SharedTmp.Whole;
    if FilesOf(e).Some? {
      SharedTmp.StepSole(s.saves, FilesOf(e).value);
      SharedTmp.StepWhole(s.saves, FilesOf(e).value);
    }
  }

  lemma {:induction false} RunSound(links: Cid -> set<Cid>, s: State, es: seq<Event>, t: State)
    requires Inv(links, s) && Run(links, s, es, t) && LoadsSound(links, s, es)
    ensures Inv(links, t)
    decreases |es|
  {
    if es != [] {
      StepInv(links, s, es[0]);
      RunSound(links, Apply(links, s, es[0]), es[1..], t);
    }
  }

  /** Opening alone, every load finds a whole snapshot or nothing. */
  lemma {:induction false} RunAlone(links: Cid -> set<Cid>, s: State, es: seq<Event>, t: State)
    requires SharedTmp.Sole(s.saves) && SharedTmp.Whole(s.saves)
    requires Run(links, s, es, t) && OpensAlone(links, s, es)
    ensures SharedTmp.Sole(t.saves) && SharedTmp.Whole(t.saves) && LoadsSound(links, s, es)
    decreases |es|
  {
    if es != [] {
      StepFiles(links, s, es[0]);
      RunAlone(links, Apply(links, s, es[0]), es[1..], t);
    }
  }

  lemma {:induction false} RunIds(links: Cid -> set<Cid>, s: State, es: seq<Event>, t: State)
    requires SharedTmp.Bounded(s.saves) && IdInv(s) && Run(links, s, es, t)
    ensures SharedTmp.Bounded(t.saves) && IdInv(t)
    decreases |es|
  {
    if es != [] {
      StepIds(links, s, es[0]);
      if FilesOf(es[0]).Some? {
        SharedTmp.StepBounded(s.saves, FilesOf(es[0]).value);
      }
      RunIds(links, Apply(links, s, es[0]), es[1..], t);
    }
  }

  // ----- main results -----

  ghost predicate Reachable(links: Cid -> set<Cid>, s: State) { exists es :: Run(links, Empty, es, s) }

  /** Reached with saves overlapping in any way, but no damaged file taken for a list. */
  ghost predicate ReachableSound(links: Cid -> set<Cid>, s: State) {
    exists es :: Run(links, Empty, es, s) && LoadsSound(links, Empty, es)
  }

  ghost predicate ReachableAlone(links: Cid -> set<Cid>, s: State) {
    exists es :: Run(links, Empty, es, s) && OpensAlone(links, Empty, es)
  }

  lemma SoundInv(links: Cid -> set<Cid>, s: State)
    requires ReachableSound(links, s)
    ensures Inv(links, s)
  {
    var es :| Run(links, Empty, es, s) && LoadsSound(links, Empty, es);
    RunSound(links, Empty, es, s);
  }

  lemma AloneInv(links: Cid -> set<Cid>, s: State)
    requires ReachableAlone(links, s)
    ensures Inv(links, s) && SharedTmp.Sole(s.saves) && SharedTmp.Whole(s.saves)
  {
    var es :| Run(links, Empty, es, s) && OpensAlone(links, Empty, es);
    RunAlone(links, Empty, es, s);
    RunSound(links, Empty, es, s);
  }

  /** However saves overlap: at every moment every CID in the in-memory pin set has its whole
      DAG in the block store, as long as no restart has taken a damaged file for a list. */
  lemma MemoryIsComplete(links: Cid -> set<Cid>, s: State, c: Cid)
    requires ReachableSound(links, s) && c in s.pins
    ensures Complete(links, s.store, c)
  {
    SoundInv(links, s);
  }

  lemma {:induction false} StoreGrows(links: Cid -> set<Cid>, s: State, es: seq<Event>, t: State)
    requires Run(links, s, es, t)
    ensures s.store <= t.store
    decreases |es|
  {
    if es != [] {
      StoreGrows(links, Apply(links, s, es[0]), es[1..], t);
    }
  }

  /** And a request that passed the guard was for a pinned root whose whole DAG is there
      whenever it is served, also when an Unpin has run in between. */
  lemma PassedRequestIsServed(links: Cid -> set<Cid>, s: State, q: RequestId, path: string, es: seq<Event>, t: State)
    requires ReachableSound(links, s) && Enabled(links, s, Pass(q, path))
    requires Run(links, Apply(links, s, Pass(q, path)), es, t)
    ensures exists c :: RootedAt(path, c) && ValidCID(c) && c in s.pins && Complete(links, t.store, c)
  {
    SoundInv(links, s);
    StoreGrows(links, Apply(links, s, Pass(q, path)), es, t);
    RootedAtRoot(path);
    CompleteGrows(links, s.store, t.store, RootOf(path));
  }

  /** Every request being served is such a request. */
  lemma ServedIsComplete(links: Cid -> set<Cid>, s: State, q: RequestId)
    requires ReachableSound(links, s) && q in s.serving
    ensures Complete(links, s.store, s.serving[q])
  {
    SoundInv(links, s);
  }

  /** With saves that open alone no restart ever does, and pins.json lists only complete
      DAGs as well. */
  lemma PinnedIsComplete(links: Cid -> set<Cid>, s: State, c: Cid)
    requires ReachableAlone(links, s) && (c in s.pins || c in Loaded(s.PinFile()))
    ensures Complete(links, s.store, c)
  {
    AloneInv(links, s);
  }

  /** If the machine stops at that moment, pins.json is afterwards missing or a whole list,
      never a partial file, and each CID a restart loads from it has its whole DAG. */
  lemma CrashLeavesACompletePinSet(links: Cid -> set<Cid>, s: State, after: SharedTmp.Inodes<Token>)
    requires ReachableAlone(links, s) && Enabled(links, s, Crash(after))
    ensures after.View().path.Some? ==> Decode(after.View().path.value.data).Some?
    ensures AllComplete(links, s.store, Loaded(after.View().path))
  {
    AloneInv(links, s);
  }

  /** What a rename publishes is exactly the snapshot its call took, on disk in full, whatever
      other calls have done to the pin set since. */
  lemma RenamePublishesSnapshot(links: Cid -> set<Cid>, s: State, o: OpId)
    requires ReachableAlone(links, s) && Enabled(links, s, InFile(SharedTmp.Rename(o)))
    ensures Apply(links, s, InFile(SharedTmp.Rename(o))).PinFile() == Some(File(s.saves.calls[o].data, true))
  {
    AloneInv(links, s);
    SharedTmp.StepWhole(s.saves, SharedTmp.Rename(o));
  }

  lemma ReachableIds(links: Cid -> set<Cid>, s: State)
    requires Reachable(links, s)
    ensures SharedTmp.Bounded(s.saves) && IdInv(s)
  {
    var es :| Run(links, Empty, es, s);
    RunIds(links, Empty, es, s);
  }

  /** Nothing holds a save up: whatever the other saves are doing, one that is due can take its
      snapshot, in any order of the map, and then open .tmp. */
  lemma SavesAreNotHeldUp(links: Cid -> set<Cid>, s: State, o: OpId, cids: seq<Cid>)
    requires Reachable(links, s) && s.Is(o, ToSave) && Elements(cids) == s.pins
    ensures Enabled(links, s, Snapshot(o, cids))
    ensures Enabled(links, Apply(links, s, Snapshot(o, cids)), InFile(SharedTmp.OpenTmp(o)))
  {
    ReachableIds(links, s);
  }

  function InFiles(es: seq<FileEvent>): seq<Event> { seq(|es|, i requires 0 <= i < |es| => InFile(es[i])) }

  lemma {:induction false} FilesOnly(links: Cid -> set<Cid>, s: State, es: seq<FileEvent>, t: SharedTmp.State<Token>)
    requires SharedTmp.Run(s.saves, es, t) && SharedTmp.OnlyMoves(es)
    ensures Run(links, s, InFiles(es), s.(saves := t)) && OpensAlone(links, s, InFiles(es))
    decreases |es|
  {
    if es != [] {
      assert es[0] in es;
      assert InFiles(es)[1..] == InFiles(es[1..]);
      FilesOnly(links, s.(saves := SharedTmp.Apply(s.saves, es[0])), es[1..], t);
    }
  }

  lemma {:induction false} RunThen(links: Cid -> set<Cid>, s: State, es: seq<Event>, t: State, e: Event)
    requires Run(links, s, es, t) && OpensAlone(links, s, es) && Enabled(links, t, e) && (Opens(e) ==> t.saves.NoneLive())
    ensures Run(links, s, es + [e], Apply(links, t, e)) && OpensAlone(links, s, es + [e])
    decreases |es|
  {
    if es == [] {
      var u := Apply(links, t, e);
      assert ([] + [e])[1..] == [];
      assert Run(links, u, [], u) && OpensAlone(links, u, []);
    } else {
      assert (es + [e])[1..] == es[1..] + [e];
      RunThen(links, Apply(links, s, es[0]), es[1..], t, e);
    }
  }

  lemma TwoToSave(links: Cid -> set<Cid>) returns (es: seq<Event>, s: State)
    ensures Run(links, Empty, es, s) && OpensAlone(links, Empty, es)
    ensures s == Empty.(up := true, ops := map[0 := ToSave, 1 := ToSave])
  {
    es, s := [], Empty;
    assert Run(links, Empty, es, s) && OpensAlone(links, Empty, es);
    hide Run, OpensAlone, Complete, Guard;
    es, s := Then(links, Empty, es, s, Load);
    es, s := Then(links, Empty, es, s, StartUnpin(0, ""));
    es, s := Then(links, Empty, es, s, StartUnpin(1, ""));
  }

  lemma TakeSnapshot(links: Cid -> set<Cid>, s: State, es: seq<Event>, t: State, o: OpId)
    returns (es': seq<Event>, t': State)
    requires Run(links, s, es, t) && OpensAlone(links, s, es)
    requires t.Is(o, ToSave) && o !in t.saves.calls && t.pins == {}
    ensures Run(links, s, es', t') && OpensAlone(links, s, es')
    ensures t'.saves.calls == t.saves.calls[o := SharedTmp.Ready(Encode([]))] && t'.saves.fs == t.saves.fs
    ensures t'.pins == {} && t'.ops == t.ops[o := Saving]
  {
    hide Run, OpensAlone, Complete, Guard;
    assert Elements([]) == {};
    es', t' := Then(links, s, es, t, Snapshot(o, []));
  }

  ghost predicate Overlap(links: Cid -> set<Cid>, s: State, a: OpId, b: OpId) {
    a in s.saves.calls && SharedTmp.Live(s.saves.calls[a]) && Enabled(links, s, InFile(SharedTmp.OpenTmp(b)))
  }

  /** The situation does arise: two Unpins, say, are enough. */
  lemma SavesDoOverlap(links: Cid -> set<Cid>)
    ensures exists s, a, b :: ReachableAlone(links, s) && Overlap(links, s, a, b)
  {
    hide Run, OpensAlone, Complete, Guard, Encode, Elements;
    var es, s := TwoToSave(links);
    es, s := TakeSnapshot(links, Empty, es, s, 0);
    es, s := TakeSnapshot(links, Empty, es, s, 1);
    es, s := Then(links, Empty, es, s, InFile(SharedTmp.OpenTmp(0)));
    assert ReachableAlone(links, s) && Overlap(links, s, 0, 1);
  }

  /** A partial file where pins.json should be. */
  predicate Torn(s: State) { s.PinFile().Some? && Decode(s.PinFile().value.data).None? }

  /** Two saves are enough to lose the pin set: if one opens .tmp while another may still
      rename it, there is a run of these two, then a crash, after which pins.json is a
      partial file and the restarted node has no pins. The store is as it was. */
  lemma OverlapCanLoseThePinSet(links: Cid -> set<Cid>, s: State, a: OpId, b: OpId)
    returns (es: seq<Event>, t: State)
    requires Reachable(links, s) && Overlap(links, s, a, b)
    ensures var s0 := Apply(links, s, InFile(SharedTmp.OpenTmp(b)));
      Run(links, s0, es, t) && OpensAlone(links, s0, es)
    ensures Torn(t) && t.up && t.pins == {} && t.store == s.store
  {
    ReachableIds(links, s);
    var s0 := Apply(links, s, InFile(SharedTmp.OpenTmp(b)));
    var fs, u := SharedTmp.Tear(s.saves, a, b);
    FilesOnly(links, s0, fs, u);
    es, t := Lose(links, s0, InFiles(fs), s0.(saves := u));
  }

  /** An unsynced pins.json, then the directory on disk, a crash and a restart. */
  lemma Lose(links: Cid -> set<Cid>, s: State, es: seq<Event>, t: State) returns (es': seq<Event>, u: State)
    requires Run(links, s, es, t) && OpensAlone(links, s, es)
    requires t.PinFile().Some? && !t.PinFile().value.synced
    ensures Run(links, s, es', u) && OpensAlone(links, s, es')
    ensures Torn(u) && u.up && u.pins == {} && u.store == t.store
  {
    hide Run, OpensAlone, Complete, Elements, Encode, Guard;
    es', u := Then(links, s, es, t, InFile(SharedTmp.Persist));
    es', u := CrashNow(links, s, es', u);
    es', u := Then(links, s, es', u, Load);
  }

  /** What an unsynced file on disk can become in a crash: empty. */
  lemma CrashNow(links: Cid -> set<Cid>, s: State, es: seq<Event>, t: State) returns (es': seq<Event>, u: State)
    requires Run(links, s, es, t) && OpensAlone(links, s, es)
    requires var disk := t.saves.fs.View().disk; disk.Some? && !disk.value.synced
    ensures Run(links, s, es', u) && OpensAlone(links, s, es')
    ensures !u.up && u.store == t.store && u.PinFile() == Some(AtomicFile.File([], true))
  {
    hide Run, OpensAlone, Complete, Elements, Encode, Guard;
    var after := SharedTmp.Inodes(Nul, [AtomicFile.File([], true)], Some(0), Some(0), None);
    assert t.saves.fs.View().CrashesTo(after.View());
    es', u := Then(links, s, es, t, Crash(after));
  }

  lemma Then(links: Cid -> set<Cid>, s: State, es: seq<Event>, t: State, e: Event) returns (es': seq<Event>, t': State)
    requires Run(links, s, es, t) && OpensAlone(links, s, es) && Enabled(links, t, e) && (Opens(e) ==> t.saves.NoneLive())
    ensures es' == es + [e] && t' == Apply(links, t, e)
    ensures Run(links, s, es', t') && OpensAlone(links, s, es')
  {
    RunThen(links, s, es, t, e);
    es', t' := es + [e], Apply(links, t, e);
  }

  lemma AloneIsReadable(links: Cid -> set<Cid>, s: State)
    requires Inv(links, s) && SharedTmp.Sole(s.saves) && SharedTmp.Whole(s.saves)
    ensures StaysReadable(links, s)
  {
    forall es, t | Run(links, s, es, t) && OpensAlone(links, s, es) ensures !Torn(t) {
      RunAlone(links, s, es, t);
      RunSound(links, s, es, t);
    }
  }

  ghost predicate StaysReadable(links: Cid -> set<Cid>, s: State) {
    forall es, t | Run(links, s, es, t) && OpensAlone(links, s, es) :: !Torn(t)
  }

  /** Exactly when a save may open .tmp: pins.json reads as a list in every continuation that
      adds no overlap, crashes and restarts included, if and only if no other save is
      between its open and its rename. */
  lemma PinFileStaysReadableIff(links: Cid -> set<Cid>, s: State, b: OpId)
    requires ReachableAlone(links, s) && Enabled(links, s, InFile(SharedTmp.OpenTmp(b)))
    ensures StaysReadable(links, Apply(links, s, InFile(SharedTmp.OpenTmp(b)))) <==> s.saves.NoneLive()
  {
    AloneInv(links, s);
    var s0 := Apply(links, s, InFile(SharedTmp.OpenTmp(b)));
    if s.saves.NoneLive() {
      StepInv(links, s, InFile(SharedTmp.OpenTmp(b)));
      StepFiles(links, s, InFile(SharedTmp.OpenTmp(b)));
      AloneIsReadable(links, s0);
    } else {
      var a :| a in s.saves.calls && SharedTmp.Live(s.saves.calls[a]);
      var es, t := OverlapCanLoseThePinSet(links, s, a, b);
      assert Run(links, s0, es, t) && OpensAlone(links, s0, es) && Torn(t);
    }
  }
}

/** Any number of atomicWriteFile calls on one path at once (atomicfile.go): they share the one
    .tmp name, and each writes through its own descriptor, at its own offset, into whatever
    file that name meant when it was opened. Also exactly when that is safe. */
module SharedTmp {
  import opened AtomicFile
  import opened Basics

  type CallId = nat
  type Ino = nat

  /** chunk written at off; a gap reads as hole. */
  function Overlay<T>(data: seq<T>, off: nat, chunk: seq<T>, hole: T): seq<T> {
    var gap := if |data| < off then seq(off - |data|, _ => hole) else [];
    var padded := data + gap;
    var end := off + |chunk|;
    padded[..off] + chunk + (if end < |padded| then padded[end..] else [])
  }

  /** What it leaves where: the chunk in its place, everything else as it was, holes between. */
  lemma OverlayAt<T>(data: seq<T>, off: nat, chunk: seq<T>, hole: T, i: nat)
    ensures var r := Overlay(data, off, chunk, hole); var end := off + |chunk|;
      && |r| == (if end > |data| then end else |data|)
      && (i < |r| ==> r[i] == if off <= i < end then chunk[i - off] else if i < |data| then data[i] else hole)
  {
  }

  /** The files, numbered as they were created, and which of them three directory entries
      name: path and tmp as open sees them now, and path as a crash would find it. */
  datatype Inodes<T> = Inodes(hole: T, files: seq<File<T>>, path: Option<Ino>, disk: Option<Ino>, tmp: Option<Ino>) {

    predicate Has(i: Option<Ino>) { i.Some? ==> i.value < |files| }

    /** .tmp is not a second name of a published file. */
    predicate Valid() { Has(path) && Has(disk) && Has(tmp) && (tmp.Some? ==> tmp != path && tmp != disk) }

    function Content(i: Option<Ino>): Option<File<T>> {
      if i.Some? && i.value < |files| then Some(files[i.value]) else None
    }

    /** What the names show, as one caller at a time sees the file system. */
    function View(): Fs<T> { Fs(Content(path), Content(disk), Content(tmp)) }

    /** O_CREATE|O_TRUNC: an existing .tmp is emptied in place, under its writer's feet. */
    function OpenTrunc(): Inodes<T>
      requires Has(tmp)
    {
      if tmp.Some? then this.(files := files[tmp.value := File([], false)])
      else this.(files := files + [File([], false)], tmp := Some(|files|))
    }

    function Write(i: Ino, off: nat, chunk: seq<T>): Inodes<T>
      requires i < |files|
    {
      this.(files := files[i := File(Overlay(files[i].data, off, chunk, hole), false)])
    }

    function Sync(i: Ino): Inodes<T>
      requires i < |files|
    {
      this.(files := files[i := files[i].(synced := true)])
    }

    function Rename(): Inodes<T> { this.(path := tmp, tmp := None) }

    function Remove(): Inodes<T> { this.(tmp := None) }

    function Persist(): Inodes<T> { this.(disk := path) }
  }

  datatype Stage = ToWrite | ToSync | ToClose | ToRename

  /** One call. ok: no error so far; sync and close are attempted either way. */
  datatype Call<T> =
    | Ready(data: seq<T>)
    | Open(data: seq<T>, ino: Ino, off: nat, stage: Stage, ok: bool)
    | ToRemove
    | Returned(isNil: bool)

  /** The call may still rename. */
  predicate Live<T>(c: Call<T>) { c.Open? && c.ok }

  /** snaps: every data some call was given, the files there at the start included. */
  datatype State<T(==)> = State(fs: Inodes<T>, calls: map<CallId, Call<T>>, snaps: set<seq<T>>) {

    function To(o: CallId, c: Call<T>): State<T> { this.(calls := calls[o := c]) }

    predicate AtStage(o: CallId, stage: Stage) { o in calls && calls[o].Open? && calls[o].stage == stage }

    ghost predicate NoneLive() { forall o | o in calls :: !Live(calls[o]) }
  }

  datatype Event<T> =
    | Begin(o: CallId, data: seq<T>)
    | OpenTmp(o: CallId) | OpenErr(o: CallId)
    | Put(o: CallId, n: nat) | PutAll(o: CallId) | PutErr(o: CallId)
    | Sync(o: CallId, good: bool) | Close(o: CallId, good: bool)
    | Rename(o: CallId) | RenameErr(o: CallId) | Remove(o: CallId, good: bool)
    | Persist
    | Kill                              // the process dies, the machine does not
    | Crash(after: Inodes<T>)

  /** The data of a call is some JSON text, so never empty. Put is one write(2); PutAll ends
      f.Write with everything written, PutErr with less. Nothing keeps one call waiting for
      another; the bounds on file numbers always hold (Bounded). */
  ghost predicate Enabled<T(!new)>(s: State<T>, e: Event<T>) {
    match e
    case Begin(o, data) => o !in s.calls && data != []
    case OpenTmp(o) => o in s.calls && s.calls[o].Ready? && s.fs.Has(s.fs.tmp)
    case OpenErr(o) => o in s.calls && s.calls[o].Ready?
    case Put(o, n) =>
      s.AtStage(o, ToWrite) && 0 < n && s.calls[o].off + n <= |s.calls[o].data| && s.calls[o].ino < |s.fs.files|
    case PutAll(o) => s.AtStage(o, ToWrite) && s.calls[o].off == |s.calls[o].data|
    case PutErr(o) => s.AtStage(o, ToWrite)
    case Sync(o, _) => s.AtStage(o, ToSync) && s.calls[o].ino < |s.fs.files|
    case Close(o, _) => s.AtStage(o, ToClose)
    case Rename(o) => s.AtStage(o, ToRename) && s.fs.tmp.Some?
    case RenameErr(o) => s.AtStage(o, ToRename)
    case Remove(o, _) => o in s.calls && s.calls[o].ToRemove?
    case Crash(after) => after.Valid() && s.fs.View().CrashesTo(after.View())
    case _ => true
  }

  ghost function Apply<T(!new)>(s: State<T>, e: Event<T>): State<T>
    requires Enabled(s, e)
  {
    match e
    case Begin(o, data) => s.To(o, Ready(data)).(snaps := s.snaps + {data})
    case OpenTmp(o) =>
      var fs := s.fs.OpenTrunc();
      s.To(o, Open(s.calls[o].data, fs.tmp.value, 0, ToWrite, true)).(fs := fs)
    case OpenErr(o) => s.To(o, Returned(false))
    case Put(o, n) =>
      var c := s.calls[o];
      s.To(o, c.(off := c.off + n)).(fs := s.fs.Write(c.ino, c.off, c.data[c.off..c.off + n]))
    case PutAll(o) => s.To(o, s.calls[o].(stage := ToSync))
    case PutErr(o) => s.To(o, s.calls[o].(stage := ToSync, ok := false))
    case Sync(o, good) =>
      s.To(o, s.calls[o].(stage := ToClose, ok := s.calls[o].ok && good))
        .(fs := if good then s.fs.Sync(s.calls[o].ino) else s.fs)
    case Close(o, good) => s.To(o, if s.calls[o].ok && good then s.calls[o].(stage := ToRename) else ToRemove)
    case Rename(o) => s.To(o, Returned(true)).(fs := s.fs.Rename())
    case RenameErr(o) => s.To(o, ToRemove)
    case Remove(o, good) => s.To(o, Returned(false)).(fs := if good then s.fs.Remove() else s.fs)
    case Persist => s.(fs := s.fs.Persist())
    case Kill => s.(calls := map[])
    case Crash(after) => s.(fs := after, calls := map[])
  }

  ghost predicate Run<T(!new)>(s: State<T>, es: seq<Event<T>>, t: State<T>)
    decreases |es|
  {
    if es == [] then s == t else Enabled(s, es[0]) && Run(Apply(s, es[0]), es[1..], t)
  }

  /** No call opens .tmp while another may still rename it. */
  ghost predicate OpensAlone<T(!new)>(s: State<T>, es: seq<Event<T>>)
    decreases |es|
  {
    es == [] ||
    (Enabled(s, es[0]) && (es[0].OpenTmp? ==> s.NoneLive()) && OpensAlone(Apply(s, es[0]), es[1..]))
  }

  // ----- what holds whatever overlaps -----

  predicate CallInv<T>(s: State<T>, c: Call<T>) {
    && (c.Ready? ==> c.data in s.snaps && c.data != [])
    && (c.Open? ==>
          && c.data in s.snaps && c.data != [] && c.ino < |s.fs.files| && c.off <= |c.data|
          && (c.stage.ToWrite? || c.stage.ToRename? ==> c.ok))
  }

  ghost predicate Bounded<T>(s: State<T>) { s.fs.Valid() && forall o | o in s.calls :: CallInv(s, s.calls[o]) }

  lemma StepBounded<T(!new)>(s: State<T>, e: Event<T>)
    requires Bounded(s) && Enabled(s, e)
    ensures Bounded(Apply(s, e))
  {
  }

  /** Every call may fail wherever the source checks for an error, and the process or the
      machine may stop at any moment. */
  lemma AnythingMayFail<T(!new)>(s: State<T>, o: CallId, after: Inodes<T>)
    requires Bounded(s)
    ensures Enabled(s, Persist) && Enabled(s, Kill)
    ensures after.Valid() && s.fs.View().CrashesTo(after.View()) ==> Enabled(s, Crash(after))
    ensures o in s.calls && s.calls[o].Ready? ==> Enabled(s, OpenTmp(o)) && Enabled(s, OpenErr(o))
    ensures s.AtStage(o, ToWrite) ==> Enabled(s, PutErr(o))
    ensures s.AtStage(o, ToSync) ==> Enabled(s, Sync(o, true)) && Enabled(s, Sync(o, false))
    ensures s.AtStage(o, ToClose) ==> Enabled(s, Close(o, true)) && Enabled(s, Close(o, false))
    ensures s.AtStage(o, ToRename) ==> Enabled(s, RenameErr(o)) && (s.fs.tmp.Some? ==> Enabled(s, Rename(o)))
    ensures o in s.calls && s.calls[o].ToRemove? ==> Enabled(s, Remove(o, true)) && Enabled(s, Remove(o, false))
  {
  }

  // ----- a sole writer -----

  /** What .tmp and the published entries are to the one call that may still rename. */
  predicate Owns<T>(s: State<T>, c: Call<T>)
    requires c.Open? && c.ino < |s.fs.files| && c.off <= |c.data|
  {
    && s.fs.path != Some(c.ino) && s.fs.disk != Some(c.ino)
    && (s.fs.tmp.Some? ==> s.fs.tmp == Some(c.ino))
    && s.fs.files[c.ino].data == c.data[..c.off]
    && (!c.stage.ToWrite? ==> c.off == |c.data|)
    && (c.stage.ToClose? || c.stage.ToRename? ==> s.fs.files[c.ino].synced)
  }

  ghost predicate Sole<T>(s: State<T>) {
    && Bounded(s)
    && (forall o | o in s.calls && Live(s.calls[o]) :: Owns(s, s.calls[o]))
    && (forall a, b | a in s.calls && b in s.calls && Live(s.calls[a]) && Live(s.calls[b]) :: a == b)
  }

  /** A complete file that a crash cannot damage, or none. */
  predicate Good<T>(s: State<T>, f: Option<File<T>>) { f.Some? ==> f.value.synced && f.value.data in s.snaps }

  predicate Whole<T>(s: State<T>) { Good(s, s.fs.View().path) && Good(s, s.fs.View().disk) }

  /** One write at the caller's own offset extends what it has written so far. */
  lemma OverlayExtends<T>(data: seq<T>, off: nat, n: nat, hole: T)
    requires off + n <= |data|
    ensures Overlay(data[..off], off, data[off..off + n], hole) == data[..off + n]
  {
    assert data[..off] + [] == data[..off];
  }

  lemma StepOwns<T(!new)>(s: State<T>, e: Event<T>, o: CallId)
    requires Sole(s) && Enabled(s, e) && (e.OpenTmp? ==> s.NoneLive())
    requires Bounded(Apply(s, e)) && o in Apply(s, e).calls && Live(Apply(s, e).calls[o])
    ensures Owns(Apply(s, e), Apply(s, e).calls[o])
  {
    hide Overlay;
    if e.Put? {
      var c := s.calls[e.o];
      assert Live(c);
      OverlayExtends(c.data, c.off, e.n, s.fs.hole);
    }
  }

  lemma StepSole<T(!new)>(s: State<T>, e: Event<T>)
    requires Sole(s) && Enabled(s, e) && (e.OpenTmp? ==> s.NoneLive())
    ensures Sole(Apply(s, e))
  {
    hide Overlay;
    StepBounded(s, e);
    var t := Apply(s, e);
    forall o | o in t.calls && Live(t.calls[o]) ensures Owns(t, t.calls[o]) {
      StepOwns(s, e, o);
    }
  }

  /** With a sole writer no step damages what is published, and a rename publishes its own
      call's data. */
  lemma StepWhole<T(!new)>(s: State<T>, e: Event<T>)
    requires Sole(s) && Enabled(s, e) && (e.OpenTmp? ==> s.NoneLive())
    ensures Whole(s) ==> Whole(Apply(s, e))
    ensures e.Rename? ==> Apply(s, e).fs.View().path == Some(File(s.calls[e.o].data, true))
  {
    hide Overlay;
    if e.Rename? {
      var c := s.calls[e.o];
      assert Live(c) && c.data[..|c.data|] == c.data;
    } else if e.Put? {
      assert Live(s.calls[e.o]);
    }
  }

  /** A sole writer sees the file system of AtomicFile: each step does to what the names show
      exactly what the operation of that model does, unless .tmp was removed meanwhile. */
  lemma StepView<T(!new)>(s: State<T>, e: Event<T>)
    requires Sole(s) && Whole(s) && Enabled(s, e) && (e.OpenTmp? ==> s.NoneLive())
    ensures var v, w := s.fs.View(), Apply(s, e).fs.View();
      match e
      case OpenTmp(_) => w == v.OpenTrunc()
      case Put(o, n) =>
        w == if v.tmp.Some? then v.Append(s.calls[o].data[s.calls[o].off..s.calls[o].off + n]) else v
      case Sync(o, good) => w == v || (good && v.tmp.Some? && w == v.Sync())
      case Rename(_) => w == v.Rename()
      case Remove(_, good) => w == if good then v.Remove() else v
      case Persist => w == v.Persist()
      case Crash(_) => v.CrashesTo(w)
      case _ => w == v
  {
    hide Overlay;
    if e.Put? {
      var c := s.calls[e.o];
      assert Live(c);
      OverlayExtends(c.data, c.off, e.n, s.fs.hole);
      assert c.data[..c.off] + c.data[c.off..c.off + e.n] == c.data[..c.off + e.n];
    }
  }

  lemma {:induction false} RunBounded<T(!new)>(s: State<T>, es: seq<Event<T>>, t: State<T>)
    requires Bounded(s) && Run(s, es, t)
    ensures Bounded(t)
    decreases |es|
  {
    if es != [] {
      StepBounded(s, es[0]);
      RunBounded(Apply(s, es[0]), es[1..], t);
    }
  }

  lemma {:induction false} RunAlone<T(!new)>(s: State<T>, es: seq<Event<T>>, t: State<T>)
    requires Sole(s) && Run(s, es, t) && OpensAlone(s, es)
    ensures Sole(t) && (Whole(s) ==> Whole(t))
    decreases |es|
  {
    if es != [] {
      StepSole(s, es[0]);
      StepWhole(s, es[0]);
      RunAlone(Apply(s, es[0]), es[1..], t);
    }
  }

  // ----- main results -----

  /** No call yet, and whatever is published is whole. */
  ghost predicate Start<T>(s: State<T>) { s.calls == map[] && s.fs.Valid() && Whole(s) }

  ghost predicate Reachable<T(!new)>(s: State<T>) { exists i, es :: Start(i) && Run(i, es, s) }

  ghost predicate ReachableAlone<T(!new)>(s: State<T>) {
    exists i, es :: Start(i) && Run(i, es, s) && OpensAlone(i, es)
  }

  /** While no call opens .tmp under another, the canonical path is missing or whole and on
      disk, at every moment and after a crash at any moment. */
  lemma AloneIsWhole<T(!new)>(s: State<T>)
    requires ReachableAlone(s)
    ensures Sole(s) && Whole(s)
  {
    var i, es :| Start(i) && Run(i, es, s) && OpensAlone(i, es);
    RunAlone(i, es, s);
  }

  /** Events of calls that have opened .tmp already. */
  predicate Moves<T>(e: Event<T>) {
    e.Put? || e.PutAll? || e.PutErr? || e.Sync? || e.Close? || e.Rename? || e.RenameErr? || e.Remove?
  }

  ghost predicate OnlyMoves<T>(es: seq<Event<T>>) { forall e | e in es :: Moves(e) }

  lemma {:induction false} MovesOpenNothing<T(!new)>(s: State<T>, es: seq<Event<T>>, t: State<T>)
    requires Run(s, es, t) && OnlyMoves(es)
    ensures OpensAlone(s, es)
    decreases |es|
  {
    if es != [] {
      assert es[0] in es;
      MovesOpenNothing(Apply(s, es[0]), es[1..], t);
    }
  }

  lemma {:induction false} RunThen<T(!new)>(s: State<T>, es: seq<Event<T>>, t: State<T>, e: Event<T>)
    requires Run(s, es, t) && Enabled(t, e)
    ensures Run(s, es + [e], Apply(t, e))
    decreases |es|
  {
    if es == [] {
      assert ([] + [e])[1..] == [];
      assert Run(Apply(t, e), [], Apply(t, e));
    } else {
      assert (es + [e])[1..] == es[1..] + [e];
      RunThen(Apply(s, es[0]), es[1..], t, e);
    }
  }

  /** The next step of a call that has no errors on its way to the rename. */
  function NextOf<T>(s: State<T>, a: CallId): Event<T>
    requires a in s.calls && Live(s.calls[a]) && !s.calls[a].stage.ToRename? && s.calls[a].off <= |s.calls[a].data|
  {
    var c := s.calls[a];
    match c.stage
    case ToWrite => if c.off < |c.data| then Put(a, |c.data| - c.off) else PutAll(a)
    case ToSync => Sync(a, true)
    case _ => Close(a, true)
  }

  function Left<T>(c: Call<T>): nat
    requires c.Open?
  {
    match c.stage
    case ToWrite => if c.off < |c.data| then 4 else 3
    case ToSync => 2
    case ToClose => 1
    case ToRename => 0
  }

  /** A live call can go on to its rename while everything else stands still. */
  lemma {:induction false} GoesOn<T(!new)>(i: State<T>, es: seq<Event<T>>, s: State<T>, a: CallId)
    returns (es': seq<Event<T>>, t: State<T>)
    requires Run(i, es, s) && OnlyMoves(es) && Bounded(s) && a in s.calls && Live(s.calls[a])
    ensures Run(i, es', t) && OnlyMoves(es') && Bounded(t)
    ensures t.AtStage(a, ToRename) && t.fs.tmp == s.fs.tmp && t.calls[a].data == s.calls[a].data
    ensures t.calls.Keys == s.calls.Keys && forall o | o in s.calls && o != a :: t.calls[o] == s.calls[o]
    decreases Left(s.calls[a])
  {
    hide Overlay, Run;
    if s.calls[a].stage.ToRename? {
      es', t := es, s;
    } else {
      var e := NextOf(s, a);
      assert Enabled(s, e) && Moves(e);
      StepBounded(s, e);
      RunThen(i, es, s, e);
      es', t := GoesOn(i, es + [e], Apply(s, e), a);
    }
  }

  /** From any overlap to a torn file, by two calls alone: b has opened .tmp while a could
      still rename it, a goes on and renames, and b writes into what is now published. */
  lemma Tear<T(!new)>(s: State<T>, a: CallId, b: CallId) returns (es: seq<Event<T>>, t: State<T>)
    requires Bounded(s) && a in s.calls && Live(s.calls[a]) && Enabled(s, OpenTmp(b))
    ensures Run(Apply(s, OpenTmp(b)), es, t) && OnlyMoves(es)
    ensures t.fs.View().path.Some? && !t.fs.View().path.value.synced && !Whole(t)
  {
    var s0 := Apply(s, OpenTmp(b));
    assert Run(s0, [], s0);
    hide Overlay, Run;
    StepBounded(s, OpenTmp(b));
    var s1: State<T>;
    es, s1 := GoesOn(s0, [], s0, a);
    RunThen(s0, es, s1, Rename(a));
    var s2 := Apply(s1, Rename(a));
    StepBounded(s1, Rename(a));
    assert Enabled(s2, Put(b, 1));
    RunThen(s0, es + [Rename(a)], s2, Put(b, 1));
    es, t := es + [Rename(a)] + [Put(b, 1)], Apply(s2, Put(b, 1));
  }

  /** Whole in every continuation that adds no overlap. */
  ghost predicate StaysWhole<T(!new)>(s: State<T>) {
    forall es, t | Run(s, es, t) && OpensAlone(s, es) :: Whole(t)
  }

  /** Exactly when a call may open .tmp. Nothing has overlapped so far, and whatever comes
      adds no further overlap, crashes included: then the published file stays whole in every
      continuation if and only if no other call is between its open and its rename. A call
      that has failed and is about to remove .tmp does no harm. */
  lemma OpenIsSafeIff<T(!new)>(s: State<T>, b: CallId)
    requires ReachableAlone(s) && Enabled(s, OpenTmp(b))
    ensures StaysWhole(Apply(s, OpenTmp(b))) <==> s.NoneLive()
  {
    AloneIsWhole(s);
    var s0 := Apply(s, OpenTmp(b));
    if s.NoneLive() {
      StepSole(s, OpenTmp(b));
      StepWhole(s, OpenTmp(b));
      forall es, t | Run(s0, es, t) && OpensAlone(s0, es) ensures Whole(t) {
        RunAlone(s0, es, t);
      }
    } else {
      var a :| a in s.calls && Live(s.calls[a]);
      var es, t := Tear(s, a, b);
      MovesOpenNothing(s0, es, t);
    }
  }

  lemma RenameHeals<T(!new)>(t: State<T>, o: CallId)
    requires Sole(t) && Enabled(t, Rename(o))
    ensures var u := Apply(t, Rename(o));
      u.fs.View().path == Some(File(t.calls[o].data, true)) && Whole(Apply(u, Persist))
  {
    StepWhole(t, Rename(o));
  }

  /** Why the condition is about the opening: an overlap can outlive its danger. When no call
      has bytes left to write and .tmp is complete and synced, any number of calls may still
      be about to rename it. */
  lemma {:induction false} LateOverlapPasses<T(!new)>(s: State<T>, es: seq<Event<T>>, t: State<T>)
    requires Bounded(s) && Whole(s) && Good(s, s.fs.View().tmp)
    requires forall o | o in s.calls && s.calls[o].Open? :: !s.calls[o].stage.ToWrite?
    requires Run(s, es, t) && OnlyMoves(es)
    ensures Whole(t)
    decreases |es|
  {
    if es != [] {
      hide Overlay;
      assert es[0] in es;
      StepBounded(s, es[0]);
      LateOverlapPasses(Apply(s, es[0]), es[1..], t);
    }
  }

  /** What overlaps cannot spoil: once no call is left that may still rename, whatever has
      been torn before, the next rename of calls that open alone publishes its own call's
      data complete and synced, and once that entry is on disk all is whole again. */
  lemma NextSoleSaveHeals<T(!new)>(s: State<T>, es: seq<Event<T>>, t: State<T>, o: CallId)
    requires Reachable(s) && s.NoneLive()
    requires Run(s, es, t) && OpensAlone(s, es) && Enabled(t, Rename(o))
    ensures var u := Apply(t, Rename(o));
      u.fs.View().path == Some(File(t.calls[o].data, true)) && Whole(Apply(u, Persist))
  {
    var i, ds :| Start(i) && Run(i, ds, s);
    RunBounded(i, ds, s);
    RunAlone(s, es, t);
    RenameHeals(t, o);
  }
}

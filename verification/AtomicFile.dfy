/** atomicWriteFile (atomicfile.go) over a small file system: one canonical path, its .tmp
    sibling, and what a crash would leave. Data is generic; a write may stop anywhere. */
module AtomicFile {
  import opened Basics

  /** synced: the data is on disk. A crash replaces the data of an unsynced file by anything. */
  datatype File<T> = File(data: seq<T>, synced: bool)

  /** path and tmp are what open sees now; disk is the directory entry of path that a crash
      goes back to, which catches up with path at a moment of the system's choosing. */
  datatype Fs<T> = Fs(path: Option<File<T>>, disk: Option<File<T>>, tmp: Option<File<T>>) {

    function OpenTrunc(): Fs<T> { this.(tmp := Some(File([], false))) }

    function Append(chunk: seq<T>): Fs<T>
      requires tmp.Some?
    {
      this.(tmp := Some(File(tmp.value.data + chunk, false)))
    }

    function Sync(): Fs<T>
      requires tmp.Some?
    {
      this.(tmp := Some(tmp.value.(synced := true)))
    }

    function Rename(): Fs<T>
      requires tmp.Some?
    {
      this.(path := tmp, tmp := None)
    }

    function Remove(): Fs<T> { this.(tmp := None) }

    function Persist(): Fs<T> { this.(disk := path) }

    /** after is a possible file system after a crash: the entry on disk, with its data if
        synced and anything otherwise, and any .tmp at all. */
    ghost predicate CrashesTo(after: Fs<T>) {
      && after.disk == after.path
      && (disk == None ==> after.path == None)
      && (disk.Some? ==> after.path.Some? && (disk.value.synced ==> after.path == disk))
    }
  }

  /** A file a crash cannot damage. */
  ghost predicate Stable<T>(f: Option<File<T>>) { f.Some? ==> f.value.synced }

  /** Whatever a crash leaves here, the canonical path holds one of these. */
  ghost predicate CrashGives<T(!new)>(fs: Fs<T>, allowed: set<Option<File<T>>>) {
    forall after: Fs<T> | fs.CrashesTo(after) :: after.path in allowed
  }

  lemma StableCrash<T(!new)>(fs: Fs<T>, allowed: set<Option<File<T>>>)
    requires fs.disk in allowed && Stable(fs.disk)
    ensures CrashGives(fs, allowed)
  {
  }

  /** The running system. trace records every state the file system goes through, failures how
      many calls have failed, leftovers how many removals have; each call may fail, and the
      directory entry may reach the disk at any moment. */
  class Disk<T(!new)> {
    var fs: Fs<T>
    ghost var trace: seq<Fs<T>>
    ghost var failures: nat
    ghost var leftovers: nat

    constructor (fs: Fs<T>)
      ensures this.fs == fs && trace == [fs] && failures == leftovers == 0
    {
      this.fs, this.trace, this.failures, this.leftovers := fs, [fs], 0, 0;
    }

    /** One step to `next`, with the system catching up or not before and after it. */
    method Move(next: Fs<T>)
      modifies this`fs, this`trace
      ensures fs == next || fs == next.Persist()
      ensures trace == old(trace) + [next, fs]
    {
      fs := next;
      var persist := *;
      if persist {
        fs := fs.Persist();
      }
      trace := trace + [next, fs];
    }

    method OpenTrunc() returns (ok: bool)
      modifies this`fs, this`trace, this`failures
      ensures failures == old(failures) + Bit(!ok)
      ensures Advanced(old(fs), old(trace), fs, trace)
      ensures fs.tmp == if ok then Some(File([], false)) else old(fs).tmp
    {
      ok := *;
      failures := failures + Bit(!ok);
      Move(if ok then fs.OpenTrunc() else fs);
    }

    /** A failing write may have written any part of the data. */
    method Write(data: seq<T>) returns (ok: bool)
      requires fs.tmp.Some?
      modifies this`fs, this`trace, this`failures
      ensures failures == old(failures) + Bit(!ok)
      ensures Advanced(old(fs), old(trace), fs, trace)
      ensures fs.tmp.Some? && (ok ==> fs.tmp.value.data == old(fs).tmp.value.data + data)
    {
      ok := *;
      failures := failures + Bit(!ok);
      var part: nat :| part <= |data|;
      Move(fs.Append(if ok then data else data[..part]));
    }

    method Sync() returns (ok: bool)
      requires fs.tmp.Some?
      modifies this`fs, this`trace, this`failures
      ensures failures == old(failures) + Bit(!ok)
      ensures Advanced(old(fs), old(trace), fs, trace)
      ensures fs.tmp.Some? && fs.tmp.value.data == old(fs).tmp.value.data && (ok ==> fs.tmp.value.synced)
    {
      ok := *;
      failures := failures + Bit(!ok);
      Move(if ok then fs.Sync() else fs);
    }

    method Close() returns (ok: bool)
      modifies this`fs, this`trace, this`failures
      ensures failures == old(failures) + Bit(!ok)
      ensures Advanced(old(fs), old(trace), fs, trace) && fs.tmp == old(fs).tmp
    {
      ok := *;
      failures := failures + Bit(!ok);
      Move(fs);
    }

    /** os.Remove: on failure the .tmp stays, which nobody minds. */
    method Remove()
      modifies this`fs, this`trace, this`leftovers
      ensures leftovers == old(leftovers) || leftovers == old(leftovers) + 1
      ensures Advanced(old(fs), old(trace), fs, trace)
      ensures leftovers == old(leftovers) ==> fs.tmp == None
    {
      var ok := *;
      leftovers := leftovers + Bit(!ok);
      Move(if ok then fs.Remove() else fs);
    }

    /** The only call that changes the canonical path. */
    method Rename() returns (ok: bool)
      requires fs.tmp.Some?
      modifies this`fs, this`trace, this`failures
      ensures failures == old(failures) + Bit(!ok)
      ensures !ok ==> Advanced(old(fs), old(trace), fs, trace)
      ensures ok ==> fs.path == old(fs).tmp && fs.tmp == None
      ensures ok ==> Extends(old(trace), trace, {old(fs).disk, old(fs).tmp}) && fs.disk in {old(fs).disk, old(fs).tmp}
    {
      ok := *;
      failures := failures + Bit(!ok);
      Move(if ok then fs.Rename() else fs);
    }
  }

  /** trace' continues trace, and in what it adds the entry on disk is one of `entries`. */
  ghost predicate Extends<T>(trace: seq<Fs<T>>, trace': seq<Fs<T>>, entries: set<Option<File<T>>>) {
    trace <= trace' && forall i | |trace| <= i < |trace'| :: trace'[i].disk in entries
  }

  /** Only .tmp changed and path may have reached the disk, in every state in between too. */
  ghost predicate Advanced<T>(fs: Fs<T>, trace: seq<Fs<T>>, fs': Fs<T>, trace': seq<Fs<T>>) {
    fs'.path == fs.path && fs'.disk in {fs.disk, fs.path} && Extends(trace, trace', {fs.disk, fs.path})
  }

  lemma AdvancedTwice<T>(a: Fs<T>, ta: seq<Fs<T>>, b: Fs<T>, tb: seq<Fs<T>>, c: Fs<T>, tc: seq<Fs<T>>)
    requires Advanced(a, ta, b, tb) && Advanced(b, tb, c, tc)
    ensures Advanced(a, ta, c, tc)
  {
    forall i | |ta| <= i < |tc| ensures tc[i].disk in {a.disk, a.path} {
      if i < |tb| { assert tc[i] == tb[i]; }
    }
  }

  datatype WriteResult = Written | Failed

  /** atomicWriteFile, as a call that no other call on the same path overlaps sees it (see
      SharedTmp for several): nil is returned if and only if no step has failed and means the
      path holds exactly the new data, an error that it holds what it held, and a crash at
      any point, whatever was left in .tmp before, leaves one of the complete old files or
      the complete new one. */
  method AtomicWriteFile<T(!new)>(d: Disk<T>, data: seq<T>) returns (r: WriteResult)
    modifies d
    ensures r.Written? <==> d.failures == old(d.failures)
    ensures r.Written? ==> d.fs.path == Some(File(data, true))
    ensures r.Failed? ==> d.fs.path == old(d.fs).path
    // No .tmp of this call is left behind unless it could not be removed.
    ensures r.Written? ==> d.fs.tmp == None
    ensures r.Failed? && d.leftovers == old(d.leftovers) ==> d.fs.tmp == None || d.fs.tmp == old(d.fs).tmp
    ensures var entries := {old(d.fs).path, old(d.fs).disk, Some(File(data, true))};
      && Extends(old(d.trace), d.trace, entries) && d.fs.disk in entries
      && (Stable(old(d.fs).path) && Stable(old(d.fs).disk) ==>
            forall i | |old(d.trace)| <= i < |d.trace| :: CrashGives(d.trace[i], entries))
  {
    ghost var fs0, t0 := d.fs, d.trace;
    ghost var entries := {d.fs.path, d.fs.disk, Some(File(data, true))};
    var ok := d.OpenTrunc();
    ghost var fs1, t1 := d.fs, d.trace;
    if ok {
      var writeOk := d.Write(data);
      AdvancedTwice(fs0, t0, fs1, t1, d.fs, d.trace);
      ghost var fs2, t2 := d.fs, d.trace;
      var syncOk := d.Sync();
      AdvancedTwice(fs0, t0, fs2, t2, d.fs, d.trace);
      ghost var fs3, t3 := d.fs, d.trace;
      var closeOk := d.Close();
      AdvancedTwice(fs0, t0, fs3, t3, d.fs, d.trace);
      ghost var fs4, t4 := d.fs, d.trace;
      ok := writeOk && syncOk && closeOk;
      if ok {
        assert [] + data == data;
        ok := d.Rename();
        if !ok {
          AdvancedTwice(fs0, t0, fs4, t4, d.fs, d.trace);
        }
      }
      if !ok {
        ghost var fs5, t5 := d.fs, d.trace;
        d.Remove();
        AdvancedTwice(fs0, t0, fs5, t5, d.fs, d.trace);
      } else {
        RenamedTrace(t0, t4, d.trace, entries);
      }
    }
    forall i | |t0| <= i < |d.trace| && Stable(fs0.path) && Stable(fs0.disk)
      ensures CrashGives(d.trace[i], entries)
    {
      StableCrash(d.trace[i], entries);
    }
    return if ok then Written else Failed;
  }

  lemma RenamedTrace<T>(t0: seq<Fs<T>>, t4: seq<Fs<T>>, t: seq<Fs<T>>, entries: set<Option<File<T>>>)
    requires t0 <= t4 <= t
    requires forall i | |t0| <= i < |t4| :: t4[i].disk in entries
    requires forall i | |t4| <= i < |t| :: t[i].disk in entries
    ensures Extends(t0, t, entries)
  {
    forall i | |t0| <= i < |t| ensures t[i].disk in entries {
      if i < |t4| { assert t[i] == t4[i]; }
    }
  }
}

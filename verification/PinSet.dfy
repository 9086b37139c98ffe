/** The pin set of EmbeddedNode and its file pins.json (ipfsnode.go), for one caller at a
    time: memory, the encoded list, and what a restart reads back. */
module PinSet {
  import opened AtomicFile
  import opened Basics
  import opened Cids
  import opened GatewayGuard

  type Cid = string

  /** pins.json as a JSON list, reduced to what matters: its elements, the closing bracket
      that a cut-off file lacks, and the zero bytes of a gap nobody wrote. */
  datatype Token = Elem(c: Cid) | End | Nul

  function Encode(cids: seq<Cid>): (data: seq<Token>)
    ensures |data| == |cids| + 1
  {
    seq(|cids|, i requires 0 <= i < |cids| => Elem(cids[i])) + [End]
  }

  /** json.Unmarshal into a list of strings. */
  function Decode(data: seq<Token>): Option<seq<Cid>> {
    if |data| > 0 && data[|data| - 1] == End && forall i | 0 <= i < |data| - 1 :: data[i].Elem?
    then Some(seq(|data| - 1, i requires 0 <= i < |data| - 1 => data[i].c))
    else None
  }

  /** The file round-trips, and no proper prefix of it reads as a list. */
  lemma EncodeDecode(cids: seq<Cid>)
    ensures Decode(Encode(cids)) == Some(cids)
    ensures forall n | 0 <= n <= |cids| :: Decode(Encode(cids)[..n]) == None
  {
    assert Decode(Encode(cids)).value == cids;
    forall n | 0 <= n <= |cids| ensures Decode(Encode(cids)[..n]) == None {
      if n > 0 { assert Encode(cids)[..n][n - 1] == Elem(cids[n - 1]); }
    }
  }

  function Elements(cids: seq<Cid>): set<Cid> { set c | c in cids }

  /** What loadPins reads: nothing when the file is missing or does not parse. */
  function Loaded(f: Option<File<Token>>): set<Cid> {
    if f.Some? && Decode(f.value.data).Some? then Elements(Decode(f.value.data).value) else {}
  }

  class PinSet {
    var pins: set<Cid>
    const disk: Disk<Token>

    constructor (disk: Disk<Token>)
      ensures pins == {} && this.disk == disk
    {
      this.pins, this.disk := {}, disk;
    }

    /** loadPins adds what the file lists; an unreadable file adds nothing. */
    method LoadPins()
      modifies this`pins
      ensures pins == old(pins) + Loaded(disk.fs.path)
    {
      if disk.fs.path.None? {
        return;
      }
      var parsed := Decode(disk.fs.path.value.data);
      if parsed.None? {
        return;
      }
      var cids := parsed.value;
      for i := 0 to |cids|
        invariant pins == old(pins) + Elements(cids[..i])
      {
        assert cids[..i + 1] == cids[..i] + [cids[i]];
        pins := pins + {cids[i]};
      }
      assert cids[..|cids|] == cids;
    }

    /** savePins: snapshot in map order, encode, write. The error is only logged. */
    method SavePins() returns (r: WriteResult)
      modifies disk
      ensures r.Written? <==> disk.failures == old(disk.failures)
      ensures r.Written? ==> Loaded(disk.fs.path) == pins && Stable(disk.fs.path)
      ensures r.Failed? ==> disk.fs.path == old(disk.fs).path
    {
      var cids: seq<Cid> := [];
      var left := pins;
      while left != {}
        invariant left <= pins && Elements(cids) == pins - left
        decreases left
      {
        var c :| c in left;
        assert Elements(cids + [c]) == Elements(cids) + {c};
        cids, left := cids + [c], left - {c};
      }
      EncodeDecode(cids);
      r := AtomicWriteFile(disk, Encode(cids));
    }

    method MarkPinned(c: Cid) returns (r: WriteResult)
      modifies this`pins, disk
      ensures pins == old(pins) + {c}
      ensures r.Written? <==> disk.failures == old(disk.failures)
      ensures r.Written? ==> Loaded(disk.fs.path) == pins && Stable(disk.fs.path)
      ensures r.Failed? ==> disk.fs.path == old(disk.fs).path
    {
      pins := pins + {c};
      r := SavePins();
    }

    /** Unpin forgets the CID; no block is touched. A malformed CID is refused. */
    method Unpin(c: Cid) returns (ok: bool, r: WriteResult)
      modifies this`pins, disk
      ensures ok <==> ValidCID(c)
      ensures !ok ==> pins == old(pins) && disk.fs == old(disk.fs)
      ensures ok ==> (r.Written? <==> disk.failures == old(disk.failures))
      ensures ok ==> pins == old(pins) - {c} && (r.Written? ==> Loaded(disk.fs.path) == pins && Stable(disk.fs.path))
      ensures r.Failed? ==> disk.fs.path == old(disk.fs).path
    {
      if !ValidCID(c) {
        return false, Failed;
      }
      pins := pins - {c};
      r := SavePins();
      ok := true;
    }

    /** What the gateway would do with a request for c: yes means it is served. */
    method IsPinned(c: Cid) returns (r: Option<bool>)
      ensures r.None? <==> !ValidCID(c)
      ensures r == Some(true) <==> ValidCID(c) && c in pins
      ensures r.Some? ==> forall path | RootedAt(path, c) :: r.value <==> Guard(path, pins) == Serve
    {
      if !ValidCID(c) {
        return None;
      }
      forall path | RootedAt(path, c) ensures c in pins <==> Guard(path, pins) == Serve {
        RootDecides(path, c, pins);
      }
      return Some(c in pins);
    }
  }

  /** One process marks a CID and dies; the next one loads. If the save had returned nil and
      the directory entry had reached the disk, the new pin set is the old one exactly. */
  method RestartRestores(before: PinSet, c: Cid, after: Fs<Token>) returns (r: WriteResult, restored: set<Cid>)
    modifies before, before.disk
    ensures before.pins == old(before.pins) + {c}
    ensures r.Written? <==> before.disk.failures == old(before.disk.failures)
    ensures (var fs := before.disk.fs; r.Written? && fs.disk == fs.path && fs.CrashesTo(after)) ==>
      restored == before.pins
  {
    r := before.MarkPinned(c);
    var disk := new Disk<Token>(after);
    var node := new PinSet(disk);
    node.LoadPins();
    restored := node.pins;
  }
}

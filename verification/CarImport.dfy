/** The CAR import of ipfsnode_fetch.go: a limit reader of maxPinBytes+1, a byte counter, a
    block reader that may read ahead, and a 256-block buffer reused in place. Only sizes
    and block order matter here; a section stands for a block whose hash checked. */
module CarImport {

  type Block = nat

  datatype Section = Section(size: nat, block: Block)

  datatype ReadErr = Nil | EOF | Broken

  /** A response body: a header, complete sections, then rest bytes that are not a section
      (cut short or malformed), and then end of stream or a transport error. headerOk is
      false when the leading header bytes do not parse as a CAR header. */
  datatype Stream = Stream(headerOk: bool, header: nat, sections: seq<Section>, rest: nat, broken: bool) {

    ghost predicate Valid() { header > 0 && forall i | 0 <= i < |sections| :: sections[i].size > 0 }

    ghost function Blocks(): seq<Block> { seq(|sections|, i requires 0 <= i < |sections| => sections[i].block) }

    function Length(): nat { header + Sizes(sections) + rest }

    /** Nothing but a header and complete sections, then a real end of stream. */
    ghost predicate WellFormed() { headerOk && rest == 0 && !broken }
  }

  function Sizes(ss: seq<Section>): nat {
    if ss == [] then 0 else Sizes(ss[..|ss| - 1]) + ss[|ss| - 1].size
  }

  lemma {:induction false} SizesSplit(a: seq<Section>, b: seq<Section>)
    ensures Sizes(a + b) == Sizes(a) + Sizes(b)
    decreases |b|
  {
    if b == [] {
      assert a + b == a;
    } else {
      assert (a + b)[..|a + b| - 1] == a + b[..|b| - 1];
      SizesSplit(a, b[..|b| - 1]);
    }
  }

  lemma SizesNext(ss: seq<Section>, i: nat)
    requires i < |ss|
    ensures Sizes(ss[..i + 1]) == Sizes(ss[..i]) + ss[i].size
    ensures Sizes(ss[..i + 1]) <= Sizes(ss)
  {
    assert ss[..i + 1][..i] == ss[..i];
    SizesSplit(ss[..i + 1], ss[i + 1..]);
    assert ss == ss[..i + 1] + ss[i + 1..];
  }

  lemma SizesPrefix(ss: seq<Section>, i: nat, j: nat)
    requires i <= j <= |ss|
    ensures Sizes(ss[..i]) <= Sizes(ss[..j])
  {
    SizesSplit(ss[..i], ss[i..j]);
    assert ss[..j] == ss[..i] + ss[i..j];
  }

  /** byteCountReader over io.LimitReader(body, maxPinBytes+1). left is the limit reader's
      remaining allowance, n the counter, and the body has delivered n bytes. */
  class CountingReader {
    const max: nat
    const length: nat
    const broken: bool
    var left: int
    var n: nat

    ghost predicate Valid()
      reads this
    {
      n + left == max + 1 && 0 <= left && n <= length
    }

    constructor (max: nat, length: nat, broken: bool)
      ensures Valid() && n == 0
      ensures this.max == max && this.length == length && this.broken == broken
    {
      this.max, this.length, this.broken := max, length, broken;
      left, n := max + 1, 0;
    }

    /** Read into a buffer of k bytes. The limit reader answers EOF by itself once its
        allowance is used up; before that the body delivers some bytes, or ends. The last
        bytes may come together with the end or the error, as io.Reader allows. */
    method Read(k: nat) returns (got: nat, err: ReadErr)
      requires Valid() && k > 0
      modifies this`left, this`n
      ensures Valid() && n == old(n) + got && got <= k
      ensures err == Nil ==> got > 0
      ensures err == EOF ==> n == max + 1 || (n == length && !broken)
      ensures err == Broken ==> n == length && broken
    {
      if left <= 0 {
        return 0, EOF;
      }
      var want := if k < left then k else left;
      if n == length {
        return 0, if broken then Broken else EOF;
      }
      var avail := if want < length - n then want else length - n;
      got :| 1 <= got <= avail;
      n := n + got;
      left := left - got;
      var together := *;
      err := if n == length && together then (if broken then Broken else EOF) else Nil;
    }
  }

  datatype Next = GotBlock(block: Block) | CleanEOF | ParseError

  /** carv2.BlockReader as a frame reader: it pulls at least the bytes of the next section,
      possibly more, and reports a clean EOF only when the reader below is at EOF on a
      section boundary. */
  class BlockReader {
    const src: CountingReader
    ghost const stream: Stream
    const sections: seq<Section>
    const rest: nat
    var pos: nat          // sections handed out
    var buffered: nat     // bytes read from src and not consumed yet

    ghost predicate Valid()
      reads this, src
    {
      && src.Valid() && stream.Valid()
      && src.length == stream.Length() && src.broken == stream.broken
      && sections == stream.sections && rest == stream.rest
      && pos <= |sections|
      && stream.header + Sizes(sections[..pos]) + buffered == src.n
    }

    constructor (src: CountingReader, stream: Stream)
      requires src.Valid() && stream.Valid() && src.length == stream.Length() && src.broken == stream.broken
      requires src.n >= stream.header
      ensures Valid() && pos == 0 && this.src == src && this.stream == stream
    {
      this.src, this.stream, this.sections, this.rest := src, stream, stream.sections, stream.rest;
      pos, buffered := 0, src.n - stream.header;
    }

    /** Read until at least k bytes are buffered, or the source ends. An end that comes with
        enough bytes is not reported yet; the source will say it again. */
    method Fill(k: nat) returns (err: ReadErr)
      requires Valid()
      modifies this`buffered, src`left, src`n
      ensures Valid() && src.n >= old(src.n)
      ensures err == Nil ==> buffered >= k
      ensures err != Nil ==> buffered < k
      ensures err == EOF ==> src.n == src.max + 1 || (src.n == src.length && !src.broken)
      ensures err == Broken ==> src.n == src.length && src.broken
    {
      err := Nil;
      while buffered < k && err == Nil
        invariant Valid() && src.n >= old(src.n)
        invariant err != Nil ==> buffered < k
        invariant err == EOF ==> src.n == src.max + 1 || (src.n == src.length && !src.broken)
        invariant err == Broken ==> src.n == src.length && src.broken
        decreases src.left, err == Nil
      {
        var size: nat :| k - buffered <= size;
        var got, e := src.Read(size);
        buffered := buffered + got;
        err := if buffered < k then e else Nil;
      }
    }

    method Next() returns (r: Next)
      requires Valid()
      modifies this, src`left, src`n
      ensures Valid() && src.n >= old(src.n)
      ensures r.GotBlock? ==> old(pos) < |sections| && pos == old(pos) + 1 && r.block == sections[old(pos)].block
      ensures !r.GotBlock? ==> pos == old(pos)
      ensures r.CleanEOF? ==> src.n == src.max + 1 || (src.n == src.length && !src.broken && pos == |sections| && rest == 0)
      ensures r.ParseError? ==>
        src.n == src.max + 1 || (pos == |sections| && (rest > 0 || (src.broken && src.n == src.length)))
    {
      if pos < |sections| {
        SizesNext(sections, pos);
        var size := sections[pos].size;
        var err := Fill(size);
        if err == Nil {
          var b := sections[pos].block;
          buffered := buffered - size;
          pos := pos + 1;
          return GotBlock(b);
        }
        return if err == EOF && buffered == 0 then CleanEOF else ParseError;
      }
      assert sections[..pos] == sections;
      var err := Fill(1);
      return if err == EOF then CleanEOF else ParseError;
    }
  }

  const BATCH := 256

  /** The batches a stream of blocks is stored in: full ones, and one short one at the end. */
  ghost function Chunks(bs: seq<Block>): seq<seq<Block>>
    decreases |bs|
  {
    if |bs| == 0 then [] else if |bs| <= BATCH then [bs] else [bs[..BATCH]] + Chunks(bs[BATCH..])
  }

  ghost function Flatten(bbs: seq<seq<Block>>): seq<Block> {
    if bbs == [] then [] else bbs[0] + Flatten(bbs[1..])
  }

  /** Batching loses and repeats nothing. */
  lemma {:induction false} ChunksFlatten(bs: seq<Block>)
    ensures Flatten(Chunks(bs)) == bs
    decreases |bs|
  {
    if |bs| > BATCH {
      ChunksFlatten(bs[BATCH..]);
      assert bs == bs[..BATCH] + bs[BATCH..];
    } else if |bs| > 0 {
      assert Chunks(bs)[1..] == [];
    }
  }

  /** Every batch has 1 to 256 blocks and only the last can be short, by exactly what the
      total leaves over. */
  lemma {:induction false} ChunkSizes(bs: seq<Block>)
    ensures var cs := Chunks(bs);
      && (forall i | 0 <= i < |cs| :: 1 <= |cs[i]| <= 256 && (i < |cs| - 1 || |bs| % 256 == 0 ==> |cs[i]| == 256))
      && |cs| == (|bs| + 255) / 256
    decreases |bs|
  {
    if |bs| > BATCH {
      ChunkSizes(bs[BATCH..]);
    }
  }

  lemma {:induction false} ChunksSnoc(a: seq<Block>, b: seq<Block>)
    requires |a| % BATCH == 0 && 0 < |b| <= BATCH
    ensures Chunks(a + b) == Chunks(a) + [b]
    decreases |a|
  {
    if |a| == 0 {
      assert a + b == b;
    } else {
      assert (a + b)[..BATCH] == a[..BATCH] && (a + b)[BATCH..] == a[BATCH..] + b;
      ChunksSnoc(a[BATCH..], b);
      if |a| == BATCH { assert a[..BATCH] == a && a[BATCH..] == []; }
    }
  }

  /** flatfs behind PutMany. A call stores its whole batch, or fails and has stored some of
      it: batches records that too, as the last entry. */
  class BlockStore {
    var batches: seq<seq<Block>>
    var failed: bool

    constructor ()
      ensures batches == [] && !failed
    {
      batches, failed := [], false;
    }

    method PutMany(batch: seq<Block>) returns (ok: bool, ghost part: seq<Block>)
      modifies this
      ensures ok ==> part == batch && failed == old(failed)
      ensures !ok ==> failed && forall b | b in part :: b in batch
      ensures batches == old(batches) + [part]
    {
      ok := *;
      var stored := batch;
      if !ok {
        failed, stored := true, [];
        for i := 0 to |batch|
          invariant forall b | b in stored :: b in batch
        {
          var written := *;
          if written {
            stored := stored + [batch[i]];
          }
        }
      }
      batches, part := batches + [stored], stored;
    }
  }

  /** The batch slice and where it is flushed to: an array filled from the front and emptied
      by resetting its length. got is every block appended so far. */
  class Batcher {
    const store: BlockStore
    const buf: array<Block>
    var len: nat
    ghost const base: seq<seq<Block>>
    ghost var got: seq<Block>

    /** Blocks of got already in the store. */
    ghost function Stored(): int
      reads this
    {
      |got| - len
    }

    ghost predicate Valid()
      reads this, store, buf
    {
      && len <= buf.Length == BATCH
      && len <= |got| && Stored() % BATCH == 0
      && store.batches == base + Chunks(got[..Stored()])
      && buf[..len] == got[Stored()..]
    }

    constructor (store: BlockStore)
      ensures Valid() && this.store == store && fresh(buf) && got == [] && len == 0
      ensures base == store.batches
    {
      this.store, this.base := store, store.batches;
      buf := new Block[BATCH];
      len, got := 0, [];
    }

    method Append(b: Block)
      requires Valid() && len < BATCH
      modifies this`len, this`got, buf
      ensures Valid() && got == old(got) + [b] && len == old(len) + 1 && Stored() == old(Stored())
    {
      buf[len] := b;
      len := len + 1;
      got := got + [b];
      assert got[..Stored()] == old(got)[..old(Stored())];
    }

    /** flush: one PutMany for a non-empty batch; the same array is then filled again. part is
        what a failed one has left in the store. */
    method Flush() returns (ok: bool, ghost part: seq<Block>)
      requires Valid()
      modifies this`len, store
      ensures store.failed == (old(store.failed) || !ok)
      ensures ok ==> len == 0 && store.batches == base + Chunks(got)
      ensures !ok ==> len == old(len) && store.batches == old(store.batches) + [part]
      ensures !ok ==> forall b | b in part :: b in got[Stored()..]
    {
      part := [];
      if len == 0 {
        assert got[..Stored()] == got;
        return true, [];
      }
      ok, part := store.PutMany(buf[..len]);
      if ok {
        ChunksSnoc(got[..Stored()], buf[..len]);
        assert got == got[..Stored()] + got[Stored()..];
        len := 0;
      }
    }

    /** One block: append it, and flush a batch that is full now. */
    method Add(b: Block) returns (ok: bool, ghost part: seq<Block>)
      requires Valid() && len < BATCH
      modifies this`len, this`got, buf, store
      ensures got == old(got) + [b] && store.failed == (old(store.failed) || !ok)
      ensures ok ==> Valid() && len < BATCH
      ensures !ok ==> store.batches == old(store.batches) + [part] && |got| == old(Stored()) + BATCH
      ensures !ok ==> forall b | b in part :: b in got[old(Stored())..]
    {
      ok, part := true, [];
      Append(b);
      if len >= BATCH {
        ok, part := Flush();
        assert got[..|got|] == got;
      }
    }
  }

  datatype Result = Imported | BadStatus | BadHeader | CapExceeded | BadBlock(at: nat) | PutFailed | NoBlocks

  /** How one turn of the import loop ends: next turn, the break at end of stream, or a return. */
  datatype Turn = Again | AtEnd | Return(r: Result)

  /** The failures that return from inside the loop, and what each says about the stream. */
  ghost predicate FailsWith(br: BlockReader, store: BlockStore, r: Result)
    reads br.src, store
  {
    match r
    case CapExceeded => br.src.length > br.src.max
    case BadBlock(at) =>
      && at == |br.sections| && br.stream.Length() - br.rest <= br.src.max
      && (br.rest > 0 || (br.src.broken && br.src.length <= br.src.max))
    case PutFailed => store.failed
    case _ => false
  }

  /** What an import that ends with r has left in the store beyond its full batches: nothing,
      or after a failed PutMany some of the blocks of the next batch. */
  ghost predicate LeftOver(bs: seq<Block>, stored: nat, tail: seq<seq<Block>>, r: Result)
    requires stored <= |bs|
  {
    if r.PutFailed? then
      var end := if stored + BATCH <= |bs| then stored + BATCH else |bs|;
      |tail| == 1 && forall b | b in tail[0] :: b in bs[stored..end]
    else tail == []
  }

  /** The body of the import loop. */
  method ImportOne(br: BlockReader, batch: Batcher) returns (t: Turn, ghost tail: seq<seq<Block>>)
    requires br.Valid() && batch.Valid() && batch.len < BATCH
    requires batch.got == br.stream.Blocks()[..br.pos]
    modifies br, br.src, batch, batch.buf, batch.store
    ensures br.Valid()
    ensures t.Again? ==> br.pos == old(br.pos) + 1 && batch.Valid() && batch.len < BATCH
    ensures t.Again? ==> batch.got == br.stream.Blocks()[..br.pos]
    ensures t.Again? ==> br.stream.header + Sizes(br.sections[..br.pos]) <= br.src.max
    ensures !t.Again? ==> batch.store.batches == old(batch.store.batches) + tail
    ensures old(batch.store.failed) ==> batch.store.failed
    ensures t.AtEnd? ==> batch.Valid() && batch.len < BATCH && batch.got == br.stream.Blocks() && br.pos == |br.sections|
    ensures t.AtEnd? ==> br.src.n == br.src.length <= br.src.max && br.rest == 0 && !br.src.broken
    ensures t.AtEnd? ==> tail == []
    ensures t.Return? ==> FailsWith(br, batch.store, t.r)
    ensures t.Return? ==> LeftOver(br.stream.Blocks(), old(batch.Stored()), tail, t.r)
  {
    ghost var all := br.stream.Blocks();
    tail := [];
    var next := br.Next();
    if !next.GotBlock? {
      if br.src.n > br.src.max {
        return Return(CapExceeded), [];
      }
      if next.CleanEOF? {
        assert all[..|all|] == all;
        return AtEnd, [];
      }
      assert br.sections[..br.pos] == br.sections;
      return Return(BadBlock(br.pos)), [];
    }
    if br.src.n > br.src.max {
      return Return(CapExceeded), [];
    }
    var ok, part := batch.Add(next.block);
    assert batch.got == all[..br.pos];
    if !ok {
      return Return(PutFailed), [part];
    }
    return Again, [];
  }

  /** The import loop of fetchCARFromGateway. stored is how many blocks reached the store in
      batches, tail what a failed PutMany left beyond them. */
  method ImportBlocks(br: BlockReader, store: BlockStore)
    returns (r: Result, ghost stored: nat, ghost tail: seq<seq<Block>>)
    requires br.Valid() && br.pos == 0
    modifies br, br.src, store
    ensures br.Valid()
    ensures stored <= |br.sections|
    ensures store.batches == old(store.batches) + Chunks(br.stream.Blocks()[..stored]) + tail
    ensures LeftOver(br.stream.Blocks(), stored, tail, r)
    ensures stored > 0 ==> br.stream.header + Sizes(br.sections[..stored]) <= br.src.max
    ensures r.Imported? || r.NoBlocks? ==> stored == |br.sections| && br.src.n == br.src.length <= br.src.max
    ensures r.Imported? || r.NoBlocks? ==> br.rest == 0 && !br.src.broken
    ensures r.Imported? ==> |br.sections| > 0
    ensures r.NoBlocks? ==> |br.sections| == 0
    ensures !r.Imported? ==> stored % BATCH == 0
    ensures !r.Imported? && !r.NoBlocks? ==> FailsWith(br, store, r)
    ensures old(store.failed) ==> store.failed
  {
    var batch := new Batcher(store);
    ghost var all := br.stream.Blocks();
    assert all[..0] == [];
    while true
      invariant br.Valid() && fresh(batch) && fresh(batch.buf)
      invariant batch.store == store && batch.base == old(store.batches)
      invariant batch.Valid() && batch.len < BATCH && batch.got == all[..br.pos]
      invariant br.pos > 0 ==> br.stream.header + Sizes(br.sections[..br.pos]) <= br.src.max
      invariant old(store.failed) ==> store.failed
      decreases |br.sections| - br.pos
    {
      stored := batch.Stored();
      SizesPrefix(br.sections, stored, br.pos);
      assert all[..br.pos][..stored] == all[..stored];
      var t;
      t, tail := ImportOne(br, batch);
      if t.Return? {
        return t.r, stored, tail;
      }
      if t.AtEnd? {
        break;
      }
    }
    stored := batch.Stored();
    SizesPrefix(br.sections, stored, br.pos);
    assert all[..stored] == batch.got[..stored] && all[..|all|] == all;
    var ok, part := batch.Flush();
    if !ok {
      assert batch.got[stored..] == all[stored..];
      return PutFailed, stored, [part];
    }
    stored := |all|;
    return if br.pos == 0 then NoBlocks else Imported, stored, [];
  }

  /** carv2.NewBlockReader: pull the header, which must be complete and parse. */
  method OpenReader(src: CountingReader, stream: Stream) returns (br: BlockReader?)
    requires src.Valid() && stream.Valid() && src.length == stream.Length() && src.broken == stream.broken
    modifies src
    ensures src.Valid()
    ensures br != null <==> stream.headerOk && src.n >= stream.header
    ensures br != null ==> fresh(br) && br.Valid() && br.pos == 0 && br.src == src && br.stream == stream
    ensures br == null && stream.headerOk ==> stream.header > src.max + 1
  {
    br := null;
    var err := Nil;
    while src.n < stream.header && err == Nil
      invariant src.Valid()
      invariant err != Nil ==> src.n == src.max + 1 || src.n == src.length
      decreases src.left, err == Nil
    {
      var size: nat :| 0 < size;
      var got, e := src.Read(size);
      err := e;
    }
    if stream.headerOk && src.n >= stream.header {
      br := new BlockReader(src, stream);
    }
  }

  /** fetchCARFromGateway, after the request has been answered with `status` and this body. */
  method FetchCARFromGateway(status: int, stream: Stream, maxPinBytes: nat, store: BlockStore)
    returns (r: Result, counted: nat, ghost stored: nat, ghost tail: seq<seq<Block>>)
    requires stream.Valid()
    modifies store
    // Never more than the cap plus one byte is counted, whatever happens.
    ensures counted <= maxPinBytes + 1
    // What reached the store is a prefix of the stream in batches: all of it on success, and
    // otherwise a whole number of full batches, followed only after a failed PutMany by some
    // of the blocks of the next batch.
    ensures stored <= |stream.sections|
    ensures store.batches == old(store.batches) + Chunks(stream.Blocks()[..stored]) + tail
    ensures LeftOver(stream.Blocks(), stored, tail, r)
    // And no batch is stored that would take the import over the cap.
    ensures stored > 0 ==> stream.header + Sizes(stream.sections[..stored]) <= maxPinBytes
    ensures if r.Imported? then stored == |stream.sections| else stored % BATCH == 0
    // Success is never reported for a stream the cap cut.
    ensures r.Imported? ==> counted == stream.Length() <= maxPinBytes
    ensures r.Imported? ==> status == 200 && stream.WellFormed() && |stream.sections| > 0
    // Which result it is, unless a PutMany failed: within the cap the first thing wrong with
    // the response, and success if there is none; beyond the cap the header error if not even
    // the header fits, and otherwise the cap error, unless the sections end within the cap
    // and the reader trips over the malformed rest first.
    ensures r.BadStatus? <==> status != 200
    ensures !store.failed && status == 200 && stream.Length() <= maxPinBytes ==>
      r == if !stream.headerOk then BadHeader
           else if stream.rest > 0 || stream.broken then BadBlock(|stream.sections|)
           else if stream.sections == [] then NoBlocks
           else Imported
    ensures !store.failed && status == 200 && stream.Length() > maxPinBytes ==>
      if !stream.headerOk || stream.header > maxPinBytes + 1 then r == BadHeader
      else r == CapExceeded || (r == BadBlock(|stream.sections|) && 0 < stream.rest
                                && stream.Length() - stream.rest <= maxPinBytes)
    // With a failing store the errors still mean what they say.
    ensures r.CapExceeded? ==> stream.Length() > maxPinBytes
    ensures r.BadBlock? ==> r.at == |stream.sections| && (stream.rest > 0 || stream.broken)
    ensures r.NoBlocks? ==> stream.sections == [] && stream.Length() <= maxPinBytes
    ensures r.PutFailed? ==> store.failed
    ensures old(store.failed) ==> store.failed
  {
    if status != 200 {
      return BadStatus, 0, 0, [];
    }
    var src := new CountingReader(maxPinBytes, stream.Length(), stream.broken);
    var br := OpenReader(src, stream);
    if br == null {
      return BadHeader, src.n, 0, [];
    }
    r, stored, tail := ImportBlocks(br, store);
    counted := src.n;
  }
}

/** CID extraction from HAF rows (discovery.go). Rows arrive with their columns scanned and
    their supplementary JSON decoded: None when the column is empty or does not parse. */
module Discovery {
  import opened Basics
  import opened Cids
  import opened FirstUse
  import opened Selection

  datatype Item = Item(
    author: string, permlink: string, title: string, cid: string,
    filename: string, cidType: string, discipline: string, created: int)

  datatype Supp = Supp(cid: string, filename: string)

  datatype Row = Row(
    author: string, permlink: string, title: string, ipfsCID: string,
    filename: string, discipline: string, supp: Option<seq<Supp>>, body: string, created: int)
  {
    function Found(cid: string, filename: string, cidType: string): Item {
      Item(author, permlink, title, cid, filename, cidType, discipline, created)
    }

    function Paper(): Item { Found(ipfsCID, filename, "paper") }

    function SuppItems(): seq<Item> {
      match supp
      case None => []
      case Some(fs) => seq(|fs|, i requires 0 <= i < |fs| => Found(fs[i].cid, fs[i].filename, "supplementary"))
    }

    function InlineItems(): seq<Item> {
      var cs := FindCids(body);
      seq(|cs|, i requires 0 <= i < |cs| => Found(cs[i], "", "inline_image"))
    }

    /** Every place in the row a CID can come from, in the order it is looked at. */
    function Candidates(): seq<Item> { [Paper()] + SuppItems() + InlineItems() }
  }

  /** The key items are deduplicated by; an empty or malformed CID has none. */
  function Key(): Item -> string { (x: Item) => if ValidCID(x.cid) then x.cid else "" }

  predicate Malformed(x: Item) { x.cid != "" && !ValidCID(x.cid) }

  function Dropped(xs: seq<Item>): nat {
    if xs == [] then 0 else Dropped(xs[..|xs| - 1]) + if Malformed(xs[|xs| - 1]) then 1 else 0
  }

  /** The positions that hold something other than a well-formed CID. */
  function BadPlaces(xs: seq<Item>): set<nat> { set i: nat | i < |xs| && |xs[i].cid| > 0 && !ValidCID(xs[i].cid) }

  lemma BadPlacesSnoc(xs: seq<Item>, x: Item)
    ensures BadPlaces(xs + [x]) == BadPlaces(xs) + if Malformed(x) then {|xs|} else {}
    ensures |xs| !in BadPlaces(xs)
  {
    hide ValidCID;
  }

  /** The drop count is the number of those. */
  lemma {:induction false} DroppedCounts(xs: seq<Item>)
    ensures Dropped(xs) == |BadPlaces(xs)|
  {
    hide BadPlaces, Malformed;
    if xs == [] {
      NoBadPlaces();
    } else {
      var n := |xs| - 1;
      DroppedCounts(xs[..n]);
      BadPlacesSnoc(xs[..n], xs[n]);
      assert xs == xs[..n] + [xs[n]];
    }
  }

  lemma NoBadPlaces()
    ensures BadPlaces([]) == {}
  {
  }

  lemma {:induction false} DroppedSplit(a: seq<Item>, b: seq<Item>)
    ensures Dropped(a + b) == Dropped(a) + Dropped(b)
    decreases |b|
  {
    if b == [] {
      assert a + b == a;
    } else {
      assert (a + b)[..|a + b| - 1] == a + b[..|b| - 1];
      DroppedSplit(a, b[..|b| - 1]);
    }
  }

  /** The caller's map of CIDs already taken, updated in place. */
  class Seen {
    var cids: set<string>

    constructor ()
      ensures cids == {}
    {
      cids := {};
    }
  }

  /** One candidate against the map: the test each of the three branches makes. past is
      everything offered to this map so far. */
  method Offer(x: Item, seen: Seen, ghost past: seq<Item>) returns (kept: seq<Item>, dropped: nat)
    requires seen.cids == Keys(past, Key())
    modifies seen
    ensures seen.cids == Keys(past + [x], Key())
    ensures FirstUses(past + [x], Key()) == FirstUses(past, Key()) + kept
    ensures dropped == if Malformed(x) then 1 else 0
  {
    FirstUsesSnoc(past, Key(), x);
    if x.cid == "" || x.cid in seen.cids {
      assert x.cid in seen.cids ==> ValidCID(x.cid);
      return [], 0;
    }
    if !ValidCID(x.cid) {
      return [], 1;
    }
    seen.cids := seen.cids + {x.cid};
    return [x], 0;
  }

  /** The loop of the supplementary and of the inline branch. */
  method OfferAll(xs: seq<Item>, seen: Seen, ghost past: seq<Item>) returns (kept: seq<Item>, dropped: nat)
    requires seen.cids == Keys(past, Key())
    modifies seen
    ensures seen.cids == Keys(past + xs, Key())
    ensures FirstUses(past + xs, Key()) == FirstUses(past, Key()) + kept
    ensures dropped == Dropped(xs)
  {
    hide Keys, FirstUses;
    kept, dropped := [], 0;
    ghost var offered := past;
    for i := 0 to |xs|
      invariant offered == past + xs[..i]
      invariant seen.cids == Keys(offered, Key())
      invariant FirstUses(offered, Key()) == FirstUses(past, Key()) + kept
      invariant dropped == Dropped(xs[..i])
    {
      assert xs[..i + 1][..i] == xs[..i];
      var k, d := Offer(xs[i], seen, offered);
      kept, dropped := kept + k, dropped + d;
      offered := offered + [xs[i]];
    }
    assert offered == past + xs && xs[..|xs|] == xs;
  }

  lemma CandidatesInOrder(row: Row, past: seq<Item>)
    ensures past + row.Candidates() == past + [row.Paper()] + row.SuppItems() + row.InlineItems()
    ensures Dropped(row.Candidates()) ==
      (if Malformed(row.Paper()) then 1 else 0) + Dropped(row.SuppItems()) + Dropped(row.InlineItems())
  {
    hide Malformed, FindCids;
    DroppedSplit([row.Paper()] + row.SuppItems(), row.InlineItems());
    DroppedSplit([row.Paper()], row.SuppItems());
  }

  /** The three branches in their order: the paper, the supplementary files, the body. */
  method OfferThree(paper: Item, supp: seq<Item>, inline: seq<Item>, seen: Seen, ghost past: seq<Item>)
    returns (items: seq<Item>, dropped: nat)
    requires seen.cids == Keys(past, Key())
    modifies seen
    ensures seen.cids == Keys(past + [paper] + supp + inline, Key())
    ensures FirstUses(past + [paper] + supp + inline, Key()) == FirstUses(past, Key()) + items
    ensures dropped == (if Malformed(paper) then 1 else 0) + Dropped(supp) + Dropped(inline)
  {
    var k1, d1 := Offer(paper, seen, past);
    var k2, d2 := OfferAll(supp, seen, past + [paper]);
    var k3, d3 := OfferAll(inline, seen, past + [paper] + supp);
    return k1 + k2 + k3, d1 + d2 + d3;
  }

  /** extractItemsFromRow. */
  method ExtractItemsFromRow(row: Row, seen: Seen, ghost past: seq<Item>)
    returns (items: seq<Item>, dropped: nat)
    requires seen.cids == Keys(past, Key())
    modifies seen
    ensures seen.cids == Keys(past + row.Candidates(), Key())
    ensures FirstUses(past + row.Candidates(), Key()) == FirstUses(past, Key()) + items
    ensures dropped == Dropped(row.Candidates())
  {
    CandidatesInOrder(row, past);
    items, dropped := OfferThree(row.Paper(), row.SuppItems(), row.InlineItems(), seen, past);
  }

  /** Everything offered by the rows of one query; a row that fails to scan is skipped. */
  function AllCandidates(rows: seq<Option<Row>>): seq<Item> {
    if rows == [] then []
    else
      var last := rows[|rows| - 1];
      AllCandidates(rows[..|rows| - 1]) + if last.Some? then last.value.Candidates() else []
  }

  /** The in-memory snapshot of discovered items. */
  class Discovery {
    var items: seq<Item>

    constructor ()
      ensures items == []
    {
      items := [];
    }

    /** refresh: queryErr and rowsErr are the two database errors that abort it. */
    method Refresh(queryErr: bool, rows: seq<Option<Row>>, rowsErr: bool) returns (ok: bool, dropped: nat)
      modifies this
      ensures ok <==> !queryErr && !rowsErr
      ensures !ok ==> items == old(items)
      ensures ok ==> items == FirstUses(AllCandidates(rows), Key()) && dropped == Dropped(AllCandidates(rows))
    {
      if queryErr {
        return false, 0;
      }
      var seen := new Seen();
      var found: seq<Item> := [];
      dropped := 0;
      for i := 0 to |rows|
        invariant fresh(seen) && items == old(items)
        invariant seen.cids == Keys(AllCandidates(rows[..i]), Key())
        invariant found == FirstUses(AllCandidates(rows[..i]), Key())
        invariant dropped == Dropped(AllCandidates(rows[..i]))
      {
        ghost var past := AllCandidates(rows[..i]);
        assert rows[..i + 1][..i] == rows[..i];
        if rows[i].Some? {
          DroppedSplit(past, rows[i].value.Candidates());
          var rowItems, d := ExtractItemsFromRow(rows[i].value, seen, past);
          found, dropped := found + rowItems, dropped + d;
        } else {
          assert AllCandidates(rows[..i + 1]) == past;
        }
      }
      assert rows[..|rows|] == rows;
      if rowsErr {
        return false, dropped;
      }
      items := found;
      return true, dropped;
    }
  }

  lemma ValidIsKept(ys: seq<Item>, y: Item)
    requires y in ys && ValidCID(y.cid)
    ensures exists x :: x in FirstUses(ys, Key()) && x.cid == y.cid
  {
    hide FirstUses, IsFirst;
    var xs := FirstUses(ys, Key());
    FirstUsesKeys(ys, Key());
    var i :| 0 <= i < |ys| && ys[i] == y;
    assert Key()(ys[i]) in Keys(ys, Key());
    var k :| 0 <= k < |xs| && Key()(xs[k]) != "" && Key()(xs[k]) == y.cid;
    assert xs[k] in xs;
  }

  /** What a refresh publishes: the CIDs are valid, pairwise distinct, and exactly the valid
      CIDs that occur anywhere in the rows; each item is one of the candidates. */
  lemma PublishedItems(rows: seq<Option<Row>>)
    ensures var xs := FirstUses(AllCandidates(rows), Key());
      && (forall i | 0 <= i < |xs| :: ValidCID(xs[i].cid) && xs[i] in AllCandidates(rows))
      && (forall i, j | 0 <= i < j < |xs| :: xs[i].cid != xs[j].cid)
      && (forall y | y in AllCandidates(rows) && ValidCID(y.cid) :: exists x :: x in xs && x.cid == y.cid)
  {
    hide FirstUses, AllCandidates, IsFirst, Keys, ValidCID;
    var ys := AllCandidates(rows);
    var xs := FirstUses(ys, Key());
    FirstUsesKeys(ys, Key());
    forall i, j | 0 <= i < j < |xs| ensures xs[i].cid != xs[j].cid {
      assert Key()(xs[i]) != Key()(xs[j]);
    }
    forall y | y in ys && ValidCID(y.cid) ensures exists x :: x in xs && x.cid == y.cid {
      ValidIsKept(ys, y);
    }
  }

  /** x says where it comes from: it carries its row's own author, permlink, title, discipline
      and date, and is the paper, a supplementary file or an inline image of that row, with
      that CID, that file's name and that type. */
  ghost predicate ComesFrom(x: Item, row: Row) {
    && x.author == row.author && x.permlink == row.permlink && x.title == row.title
    && x.discipline == row.discipline && x.created == row.created
    && (|| (x.cidType == "paper" && x.cid == row.ipfsCID && x.filename == row.filename)
        || (x.cidType == "supplementary" && row.supp.Some? && Supp(x.cid, x.filename) in row.supp.value)
        || (x.cidType == "inline_image" && x.filename == "" && x.cid in FindCids(row.body)))
  }

  /** Where a CID can stand in a row. */
  ghost predicate Mentions(row: Row, cid: string) {
    || row.ipfsCID == cid
    || (row.supp.Some? && exists f :: f in row.supp.value && f.cid == cid)
    || cid in FindCids(row.body)
  }

  lemma CandidateComesFrom(row: Row, x: Item)
    requires x in row.Candidates()
    ensures ComesFrom(x, row)
  {
    hide FindCids;
    if x in row.SuppItems() {
      var i :| 0 <= i < |row.SuppItems()| && row.SuppItems()[i] == x;
      assert row.supp.value[i] == Supp(x.cid, x.filename);
    } else if x in row.InlineItems() {
      var i :| 0 <= i < |row.InlineItems()| && row.InlineItems()[i] == x;
      assert FindCids(row.body)[i] == x.cid;
    } else {
      assert x == row.Paper();
    }
  }

  lemma MentionIsCandidate(row: Row, cid: string)
    requires Mentions(row, cid)
    ensures exists x :: x in row.Candidates() && x.cid == cid
  {
    hide FindCids;
    if row.ipfsCID == cid {
      assert row.Candidates()[0] == row.Paper();
    } else if cid in FindCids(row.body) {
      var i :| 0 <= i < |FindCids(row.body)| && FindCids(row.body)[i] == cid;
      assert row.InlineItems()[i].cid == cid;
      assert row.InlineItems()[i] in row.Candidates();
    } else {
      var f :| f in row.supp.value && f.cid == cid;
      var i :| 0 <= i < |row.supp.value| && row.supp.value[i] == f;
      assert row.SuppItems()[i].cid == cid;
      assert row.SuppItems()[i] in row.Candidates();
    }
  }

  /** Row k offers x. */
  ghost predicate Offers(rows: seq<Option<Row>>, k: nat, x: Item) {
    k < |rows| && rows[k].Some? && x in rows[k].value.Candidates()
  }

  lemma OffersSnoc(rows: seq<Option<Row>>, last: Option<Row>, k: nat, x: Item)
    ensures Offers(rows + [last], k, x) <==>
      if k < |rows| then Offers(rows, k, x) else k == |rows| && last.Some? && x in last.value.Candidates()
  {
  }

  lemma {:induction false} CandidatesOf(rows: seq<Option<Row>>, x: Item)
    ensures x in AllCandidates(rows) <==> exists k: nat :: Offers(rows, k, x)
  {
    if rows != [] {
      var n := |rows| - 1;
      var before, last := rows[..n], rows[n];
      assert rows == before + [last];
      CandidatesOf(before, x);
      forall k: nat ensures Offers(rows, k, x) <==>
        if k < n then Offers(before, k, x) else k == n && last.Some? && x in last.value.Candidates()
      {
        OffersSnoc(before, last, k, x);
      }
      assert Offers(rows, n, x) <==> last.Some? && x in last.value.Candidates();
      hide Offers, FindCids;
      if k: nat :| Offers(before, k, x) {
        OffersInRange(before, k, x);
        assert Offers(rows, k, x);
      }
    }
  }

  lemma OffersInRange(rows: seq<Option<Row>>, k: nat, x: Item)
    requires Offers(rows, k, x)
    ensures k < |rows|
  {
  }

  /** From rows to items and back: every published item comes from a row it describes, and every
      valid CID that some row mentions is published. */
  lemma PublishedItemsComeFromRows(rows: seq<Option<Row>>)
    ensures var xs := FirstUses(AllCandidates(rows), Key());
      && (forall x | x in xs :: exists k :: 0 <= k < |rows| && rows[k].Some? && ComesFrom(x, rows[k].value))
      && (forall k, cid | 0 <= k < |rows| && rows[k].Some? && ValidCID(cid) && Mentions(rows[k].value, cid) ::
            exists x :: x in xs && x.cid == cid)
  {
    var ys := AllCandidates(rows);
    var xs := FirstUses(ys, Key());
    hide FirstUses, AllCandidates, FindCids, ComesFrom, Mentions, ValidCID;
    FirstUsesKeys(ys, Key());
    forall x | x in xs ensures exists k :: 0 <= k < |rows| && rows[k].Some? && ComesFrom(x, rows[k].value) {
      CandidatesOf(rows, x);
      var k: nat :| Offers(rows, k, x);
      CandidateComesFrom(rows[k].value, x);
    }
    forall k, cid | 0 <= k < |rows| && rows[k].Some? && ValidCID(cid) && Mentions(rows[k].value, cid)
      ensures exists x :: x in xs && x.cid == cid
    {
      MentionIsCandidate(rows[k].value, cid);
      var y :| y in rows[k].value.Candidates() && y.cid == cid;
      assert Offers(rows, k, y);
      CandidatesOf(rows, y);
      ValidIsKept(ys, y);
    }
  }

  /** Which mention wins. With the rows seen so far not mentioning it, a CID is taken from the
      paper if it is the paper's, and otherwise from the first supplementary file with it, so
      from the body only if there is none. */
  lemma PaperThenFilesThenBody(row: Row, past: seq<Item>, cid: string)
    requires ValidCID(cid) && cid !in Keys(past, Key())
    ensures row.ipfsCID == cid ==> row.Paper() in FirstUses(past + row.Candidates(), Key())
    ensures forall i | row.ipfsCID != cid && 0 <= i < |row.SuppItems()| && row.SuppItems()[i].cid == cid
      && (forall j | 0 <= j < i :: row.SuppItems()[j].cid != cid) ::
        row.SuppItems()[i] in FirstUses(past + row.Candidates(), Key())
  {
    var all := past + row.Candidates();
    hide FindCids, ValidCID;
    FirstUsesSelect(all, Key());
    if row.ipfsCID == cid {
      assert all[|past|] == row.Paper();
      FirstHere(past, row.Candidates(), 0);
    }
    forall i | row.ipfsCID != cid && 0 <= i < |row.SuppItems()| && row.SuppItems()[i].cid == cid
      && (forall j | 0 <= j < i :: row.SuppItems()[j].cid != cid)
      ensures row.SuppItems()[i] in FirstUses(all, Key())
    {
      var cs := row.Candidates();
      assert cs[i + 1] == row.SuppItems()[i];
      forall j | 0 <= j < i + 1 ensures cs[j].cid != cid {
        if j > 0 { assert cs[j] == row.SuppItems()[j - 1]; }
      }
      FirstHere(past, cs, i + 1);
    }
  }

  lemma FirstHere(past: seq<Item>, cs: seq<Item>, i: nat)
    requires i < |cs| && ValidCID(cs[i].cid) && cs[i].cid !in Keys(past, Key())
    requires forall j | 0 <= j < i :: cs[j].cid != cs[i].cid
    ensures cs[i] in FirstUses(past + cs, Key())
  {
    var all, n := past + cs, |past| + i;
    assert all[n] == cs[i];
    forall j | 0 <= j < n ensures Key()(all[j]) != Key()(all[n]) {
      if j < |past| {
        assert all[j] == past[j] && (Key()(past[j]) != "" ==> Key()(past[j]) in Keys(past, Key()));
      } else {
        assert all[j] == cs[j - |past|];
      }
    }
    assert First(all, Key())(n);
    FirstUsesSelect(all, Key());
    SelectedIsThere(all, FirstUses(all, Key()), First(all, Key()), n);
  }

  lemma {:induction false} NoneMalformed(xs: seq<Item>)
    requires forall i | 0 <= i < |xs| :: !Malformed(xs[i])
    ensures Dropped(xs) == 0
  {
    if xs != [] {
      NoneMalformed(xs[..|xs| - 1]);
    }
  }

  /** The body scan never contributes to the drop count. */
  lemma InlineNeverDropped(row: Row)
    ensures Dropped(row.Candidates()) == Dropped([row.Paper()] + row.SuppItems())
  {
    FoundCidsAreValid(row.body);
    NoneMalformed(row.InlineItems());
    DroppedSplit([row.Paper()] + row.SuppItems(), row.InlineItems());
  }
}

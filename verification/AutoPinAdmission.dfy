/** Per-author admission at the top of AutoPinRunner.Run (autopin_runner.go). */
module AutoPinAdmission {
  import opened Discovery
  import opened Selection
  import opened Sums

  /** How many of the items are by a. */
  function Count(items: seq<Item>, a: string): nat {
    if items == [] then 0
    else Count(items[..|items| - 1], a) + if items[|items| - 1].author == a then 1 else 0
  }

  /** The items by a, in order. */
  function ByAuthor(items: seq<Item>, a: string): (r: seq<Item>)
    ensures |r| == Count(items, a)
  {
    if items == [] then []
    else
      var last := items[|items| - 1];
      ByAuthor(items[..|items| - 1], a) + if last.author == a then [last] else []
  }

  /** An item is admitted iff fewer than cap earlier items, admitted or not, share its author. */
  function Admitted(items: seq<Item>, cap: nat): seq<Item> {
    if items == [] then []
    else
      var n := |items| - 1;
      var before := Admitted(items[..n], cap);
      if Count(items[..n], items[n].author) < cap then before + [items[n]] else before
  }

  ghost function BelowCap(items: seq<Item>, cap: nat): nat -> bool {
    (i: nat) => i < |items| && Count(items[..i], items[i].author) < cap
  }

  /** What is admitted is the batch in its order without the items that have cap or more earlier
      ones of their own author. */
  lemma {:induction false} AdmittedSelects(items: seq<Item>, cap: nat)
    ensures Selects(items, Admitted(items, cap), BelowCap(items, cap))
  {
    if items == [] {
      SelectsNone<Item>(BelowCap(items, cap));
    } else {
      var n := |items| - 1;
      AdmittedSelects(items[..n], cap);
      assert items == items[..n] + [items[n]];
      forall i | 0 <= i < n ensures BelowCap(items, cap)(i) == BelowCap(items[..n], cap)(i) {
        assert items[..n][..i] == items[..i];
      }
      SelectsSnoc(items[..n], Admitted(items[..n], cap), BelowCap(items[..n], cap), items[n], BelowCap(items, cap));
    }
  }

  function Min(a: nat, b: nat): nat { if a < b then a else b }

  lemma Snoc(items: seq<Item>, x: Item, a: string)
    ensures ByAuthor(items + [x], a) == ByAuthor(items, a) + if x.author == a then [x] else []
    ensures Count(items + [x], a) == Count(items, a) + if x.author == a then 1 else 0
  {
    assert (items + [x])[..|items|] == items;
  }

  lemma AdmittedSnoc(items: seq<Item>, x: Item, cap: nat)
    ensures Admitted(items + [x], cap) ==
      if Count(items, x.author) < cap then Admitted(items, cap) + [x] else Admitted(items, cap)
  {
    assert (items + [x])[..|items|] == items;
  }

  lemma PrefixSnoc(s: seq<Item>, x: Item, cap: nat)
    ensures (s + [x])[..Min(cap, |s| + 1)] == s[..Min(cap, |s|)] + if |s| < cap then [x] else []
  {
  }

  /** The induction step of AdmittedPerAuthor. */
  lemma AdmitOne(adm: seq<Item>, before: seq<Item>, x: Item, a: string, cap: nat)
    requires ByAuthor(adm, a) == ByAuthor(before, a)[..Min(cap, Count(before, a))]
    ensures ByAuthor(if Count(before, x.author) < cap then adm + [x] else adm, a)
         == ByAuthor(before + [x], a)[..Min(cap, Count(before + [x], a))]
  {
    Snoc(before, x, a);
    Snoc(adm, x, a);
    PrefixSnoc(ByAuthor(before, a), x, cap);
  }

  /** Fairness: what one author gets admitted is the first cap of that author's own items.
      No other author's items, however many, change it. */
  lemma {:induction false} AdmittedPerAuthor(items: seq<Item>, cap: nat, a: string)
    ensures ByAuthor(Admitted(items, cap), a) == ByAuthor(items, a)[..Min(cap, Count(items, a))]
  {
    if items != [] {
      var n := |items| - 1;
      AdmittedPerAuthor(items[..n], cap, a);
      AdmitOne(Admitted(items[..n], cap), items[..n], items[n], a, cap);
      assert items == items[..n] + [items[n]];
      AdmittedSnoc(items[..n], items[n], cap);
    }
  }

  /** The number of items per author. */
  function PerAuthor(items: seq<Item>): map<string, nat> {
    map a | a in (set x | x in items :: x.author) :: Count(items, a)
  }

  function Excess(cap: nat): (string, nat) -> nat { (_: string, n: nat) => if n > cap then n - cap else 0 }

  lemma {:induction false} CountZero(items: seq<Item>, a: string)
    ensures Count(items, a) > 0 <==> exists x :: x in items && x.author == a
  {
    if items != [] {
      var n := |items| - 1;
      CountZero(items[..n], a);
      assert items == items[..n] + [items[n]];
      if items[n].author == a { assert items[n] in items; }
    }
  }

  lemma PerAuthorKeys(items: seq<Item>, x: Item)
    ensures PerAuthor(items + [x]).Keys == PerAuthor(items).Keys + {x.author}
  {
    assert x in items + [x];
    forall a | a in PerAuthor(items) ensures a in PerAuthor(items + [x]) {
      var y :| y in items && y.author == a;
      assert y in items + [x];
    }
  }

  lemma PerAuthorSnoc(items: seq<Item>, x: Item)
    ensures PerAuthor(items + [x]) == PerAuthor(items)[x.author := Count(items, x.author) + 1]
    ensures if x.author in PerAuthor(items) then PerAuthor(items)[x.author] == Count(items, x.author)
            else Count(items, x.author) == 0
  {
    hide Count;
    var m, m' := PerAuthor(items + [x]), PerAuthor(items)[x.author := Count(items, x.author) + 1];
    CountZero(items, x.author);
    PerAuthorKeys(items, x);
    assert m.Keys == m'.Keys;
    forall a | a in m ensures m[a] == m'[a] {
      Snoc(items, x, a);
    }
  }

  lemma ExcessBump(m: map<string, nat>, m': map<string, nat>, a: string, c: nat, cap: nat)
    requires if a in m then m[a] == c else c == 0
    requires m' == m[a := c + 1]
    ensures Sum(m', Excess(cap)) == Sum(m, Excess(cap)) + if c < cap then 0 else 1
  {
    SumUpdate<string, nat>(m, Excess(cap), a, c + 1);
  }

  lemma ShedStep(items: seq<Item>, x: Item, cap: nat)
    ensures |Admitted(items + [x], cap)| + Sum(PerAuthor(items + [x]), Excess(cap))
         == |Admitted(items, cap)| + Sum(PerAuthor(items), Excess(cap)) + 1
  {
    PerAuthorSnoc(items, x);
    ExcessBump(PerAuthor(items), PerAuthor(items + [x]), x.author, Count(items, x.author), cap);
    AdmittedSnoc(items, x, cap);
  }

  /** Shed is the sum over authors of max(0, count - cap). */
  lemma {:induction false} ShedClosedForm(items: seq<Item>, cap: nat)
    ensures |Admitted(items, cap)| + Sum(PerAuthor(items), Excess(cap)) == |items|
  {
    if items == [] {
      assert PerAuthor(items) == map[];
    } else {
      var n := |items| - 1;
      ShedClosedForm(items[..n], cap);
      ShedStep(items[..n], items[n], cap);
      assert items == items[..n] + [items[n]];
    }
  }

  /** authorCount holds, per author, the number admitted so far, absent meaning 0. */
  ghost predicate Tracks(authorCount: map<string, nat>, items: seq<Item>, cap: nat) {
    forall a :: (if a in authorCount then authorCount[a] else 0) == Min(Count(items, a), cap)
  }

  lemma TracksSnoc(m: map<string, nat>, items: seq<Item>, x: Item, cap: nat)
    requires Tracks(m, items, cap)
    ensures Count(items, x.author) < cap ==> Tracks(m[x.author := Count(items, x.author) + 1], items + [x], cap)
    ensures Count(items, x.author) >= cap ==> Tracks(m, items + [x], cap)
  {
    forall a ensures Count(items + [x], a) == Count(items, a) + if x.author == a then 1 else 0 {
      Snoc(items, x, a);
    }
  }

  function Value(): (string, nat) -> nat { (_: string, n: nat) => n }

  class AutoPinRunner {
    const concurrency: nat
    const authorCap: nat

    /** Non-positive arguments are clamped to 1, so the pool always has a token. */
    constructor (concurrency: int, authorCap: int)
      ensures this.concurrency >= 1 && this.authorCap >= 1
      ensures concurrency >= 1 ==> this.concurrency == concurrency
      ensures authorCap >= 1 ==> this.authorCap == authorCap
      ensures concurrency < 1 ==> this.concurrency == 1
      ensures authorCap < 1 ==> this.authorCap == 1
    {
      this.concurrency := if concurrency < 1 then 1 else concurrency;
      this.authorCap := if authorCap < 1 then 1 else authorCap;
    }

    /** The admission loop of Run and the total it reports as Shed. */
    method Admit(items: seq<Item>) returns (queued: seq<Item>, shed: nat)
      ensures queued == Admitted(items, authorCap)
      ensures shed == Sum(PerAuthor(items), Excess(authorCap)) == |items| - |queued|
    {
      var authorCount: map<string, nat> := map[];
      var shedByAuthor: map<string, nat> := map[];
      queued := [];
      for i := 0 to |items|
        invariant queued == Admitted(items[..i], authorCap)
        invariant Tracks(authorCount, items[..i], authorCap)
        invariant Sum(shedByAuthor, Value()) + |queued| == i
      {
        var a := items[i].author;
        assert items[..i + 1] == items[..i] + [items[i]];
        TracksSnoc(authorCount, items[..i], items[i], authorCap);
        AdmittedSnoc(items[..i], items[i], authorCap);
        var n := if a in authorCount then authorCount[a] else 0;
        assert n == Min(Count(items[..i], a), authorCap);
        if n >= authorCap {
          var s := if a in shedByAuthor then shedByAuthor[a] else 0;
          SumUpdate<string, nat>(shedByAuthor, Value(), a, s + 1);
          shedByAuthor := shedByAuthor[a := s + 1];
          continue;
        }
        authorCount := authorCount[a := n + 1];
        queued := queued + [items[i]];
      }
      assert items[..|items|] == items;
      shed := Total(shedByAuthor);
      ShedClosedForm(items, authorCap);
    }
  }

  /** Adding up a Go map, whatever order it yields its entries in. */
  method Total(m: map<string, nat>) returns (total: nat)
    ensures total == Sum(m, Value())
  {
    total := 0;
    var left := m;
    while left != map[]
      invariant total + Sum(left, Value()) == Sum(m, Value())
      decreases |left|
    {
      var a :| a in left;
      SumRemove(left, Value(), a);
      total := total + left[a];
      assert left.Keys == (left - {a}).Keys + {a};
      left := left - {a};
    }
  }
}

/** What it means to go through a list and keep some of it: an independent account of the
    loops that build one list from another. */
module Selection {

  ghost predicate Increasing(idx: seq<nat>) { forall a, b | 0 <= a < b < |idx| :: idx[a] < idx[b] }

  /** r is xs at the positions idx. */
  ghost predicate Picks<T>(xs: seq<T>, idx: seq<nat>, r: seq<T>) {
    |idx| == |r| && forall k | 0 <= k < |idx| :: idx[k] < |xs| && r[k] == xs[idx[k]]
  }

  /** r is xs without the positions that `keep` rejects: nothing else is lost, nothing is
      repeated, and the order stays. */
  ghost predicate Selects<T>(xs: seq<T>, r: seq<T>, keep: nat -> bool) {
    exists idx: seq<nat> :: Increasing(idx) && Picks(xs, idx, r) && forall i | 0 <= i < |xs| :: keep(i) <==> i in idx
  }

  lemma SelectsNone<T>(keep: nat -> bool)
    ensures Selects<T>([], [], keep)
  {
    assert Increasing([]) && Picks<T>([], [], []);
  }

  lemma SelectsSnoc<T>(xs: seq<T>, r: seq<T>, keep: nat -> bool, x: T, keep': nat -> bool)
    requires Selects(xs, r, keep) && forall i | 0 <= i < |xs| :: keep'(i) == keep(i)
    ensures Selects(xs + [x], r + if keep'(|xs|) then [x] else [], keep')
  {
    var idx: seq<nat> :|
      Increasing(idx) && Picks(xs, idx, r) && forall i | 0 <= i < |xs| :: keep(i) <==> i in idx;
    var last: seq<nat> := if keep'(|xs|) then [|xs|] else [];
    assert |xs| !in idx;
    forall i | 0 <= i < |xs| + 1 ensures keep'(i) <==> i in idx + last {
    }
    assert Picks(xs + [x], idx + last, r + if keep'(|xs|) then [x] else []);
    assert Increasing(idx + last);
  }

  lemma SelectedIsThere<T>(xs: seq<T>, r: seq<T>, keep: nat -> bool, i: nat)
    requires Selects(xs, r, keep) && i < |xs| && keep(i)
    ensures exists k :: 0 <= k < |r| && r[k] == xs[i]
  {
    var idx: seq<nat> :|
      Increasing(idx) && Picks(xs, idx, r) && forall i | 0 <= i < |xs| :: keep(i) <==> i in idx;
    var k :| 0 <= k < |idx| && idx[k] == i;
  }
}

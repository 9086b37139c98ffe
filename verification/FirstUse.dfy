/** First occurrence per key. Both the gateway chain and CID discovery keep, in order, the
    first element of each key and skip elements without a usable key (key ""). */
module FirstUse {
  import opened Selection

  /** Element i is kept: its key is usable and no earlier element has it. */
  ghost predicate IsFirst<T>(xs: seq<T>, key: T -> string, i: nat)
    requires i < |xs|
  {
    key(xs[i]) != "" && forall j | 0 <= j < i :: key(xs[j]) != key(xs[i])
  }

  /** The kept elements, in order. */
  ghost function FirstUses<T>(xs: seq<T>, key: T -> string): seq<T> {
    if xs == [] then []
    else
      var n := |xs| - 1;
      FirstUses(xs[..n], key) + if IsFirst(xs, key, n) then [xs[n]] else []
  }

  /** The usable keys that occur. */
  ghost function Keys<T>(xs: seq<T>, key: T -> string): set<string> {
    set i | 0 <= i < |xs| && key(xs[i]) != "" :: key(xs[i])
  }

  ghost predicate DistinctKeys<T>(xs: seq<T>, key: T -> string) {
    forall i, j | 0 <= i < j < |xs| :: key(xs[i]) != key(xs[j])
  }

  lemma KeysSnoc<T>(xs: seq<T>, key: T -> string, x: T)
    ensures Keys(xs + [x], key) == Keys(xs, key) + if key(x) == "" then {} else {key(x)}
    ensures key(x) != "" ==> (IsFirst(xs + [x], key, |xs|) <==> key(x) !in Keys(xs, key))
  {
    var ys := xs + [x];
    forall k | k in Keys(ys, key) ensures k in Keys(xs, key) + if key(x) == "" then {} else {key(x)} {
      var i :| 0 <= i < |ys| && key(ys[i]) != "" && key(ys[i]) == k;
      if i < |xs| { assert ys[i] == xs[i]; }
    }
    forall k | k in Keys(xs, key) ensures k in Keys(ys, key) {
      var i :| 0 <= i < |xs| && key(xs[i]) != "" && key(xs[i]) == k;
      assert ys[i] == xs[i];
    }
    if key(x) != "" {
      assert ys[|xs|] == x;
      if key(x) in Keys(xs, key) {
        var i :| 0 <= i < |xs| && key(xs[i]) != "" && key(xs[i]) == key(x);
        assert ys[i] == xs[i];
      } else {
        forall j | 0 <= j < |xs| ensures key(ys[j]) != key(x) {
          assert ys[j] == xs[j];
        }
      }
    }
  }

  lemma KeysJoin<T>(a: seq<T>, b: seq<T>, key: T -> string)
    ensures Keys(a + b, key) == Keys(a, key) + Keys(b, key)
  {
    forall k | k in Keys(a, key) + Keys(b, key) ensures k in Keys(a + b, key) {
      if i :| 0 <= i < |a| && key(a[i]) != "" && key(a[i]) == k {
        assert (a + b)[i] == a[i];
      } else {
        var i :| 0 <= i < |b| && key(b[i]) != "" && key(b[i]) == k;
        assert (a + b)[|a| + i] == b[i];
      }
    }
  }

  /** The loop step: append when the key is usable and not seen. */
  lemma FirstUsesSnoc<T>(xs: seq<T>, key: T -> string, x: T)
    ensures FirstUses(xs + [x], key) ==
      FirstUses(xs, key) + if key(x) != "" && key(x) !in Keys(xs, key) then [x] else []
    ensures Keys(xs + [x], key) == Keys(xs, key) + if key(x) == "" then {} else {key(x)}
  {
    KeysSnoc(xs, key, x);
    assert (xs + [x])[..|xs|] == xs;
    assert (xs + [x])[|xs|] == x;
  }

  ghost function First<T>(xs: seq<T>, key: T -> string): nat -> bool {
    (i: nat) => i < |xs| && IsFirst(xs, key, i)
  }

  /** FirstUses is xs without the positions whose key is unusable or has occurred before. */
  lemma {:induction false} FirstUsesSelect<T>(xs: seq<T>, key: T -> string)
    ensures Selects(xs, FirstUses(xs, key), First(xs, key))
  {
    if xs == [] {
      SelectsNone<T>(First(xs, key));
    } else {
      var n := |xs| - 1;
      FirstUsesSelect(xs[..n], key);
      assert xs == xs[..n] + [xs[n]];
      forall i | 0 <= i < n ensures First(xs, key)(i) == First(xs[..n], key)(i) {
      }
      SelectsSnoc(xs[..n], FirstUses(xs[..n], key), First(xs[..n], key), xs[n], First(xs, key));
    }
  }

  /** The kept elements have pairwise distinct keys, and every usable key is kept. */
  lemma {:induction false} FirstUsesKeys<T>(xs: seq<T>, key: T -> string)
    ensures DistinctKeys(FirstUses(xs, key), key)
    ensures Keys(FirstUses(xs, key), key) == Keys(xs, key)
    ensures forall k | 0 <= k < |FirstUses(xs, key)| :: key(FirstUses(xs, key)[k]) != "" && FirstUses(xs, key)[k] in xs
  {
    if xs != [] {
      var n := |xs| - 1;
      assert xs == xs[..n] + [xs[n]];
      FirstUsesKeys(xs[..n], key);
      FirstUsesSnoc(xs[..n], key, xs[n]);
      KeysSnoc(FirstUses(xs[..n], key), key, xs[n]);
      var f, g := FirstUses(xs[..n], key), FirstUses(xs, key);
      assert g == f || g == f + [xs[n]];
      forall i, j | 0 <= i < j < |g| ensures key(g[i]) != key(g[j]) {
        if j == |f| { assert key(g[i]) in Keys(f, key); }
      }
      forall k | 0 <= k < |g| ensures key(g[k]) != "" && g[k] in xs {
        if k < |f| { assert g[k] == f[k] && f[k] in xs[..n]; } else { assert g[k] == xs[n]; }
      }
    }
  }

  /** The kept part of b once a has been consumed. */
  ghost function FreshUses<T>(a: seq<T>, b: seq<T>, key: T -> string): seq<T> {
    if b == [] then []
    else
      var n := |b| - 1;
      FreshUses(a, b[..n], key) + if IsFirst(a + b, key, |a| + n) then [b[n]] else []
  }

  lemma {:induction false} FreshUsesFrom<T>(a: seq<T>, b: seq<T>, key: T -> string)
    ensures forall k | 0 <= k < |FreshUses(a, b, key)| :: FreshUses(a, b, key)[k] in b
    decreases |b|
  {
    if b != [] {
      var n := |b| - 1;
      FreshUsesFrom(a, b[..n], key);
      var f, g := FreshUses(a, b[..n], key), FreshUses(a, b, key);
      forall k | 0 <= k < |g| ensures g[k] in b {
        if k < |f| { assert g[k] == f[k] && f[k] in b[..n]; } else { assert g[k] == b[n]; }
      }
    }
  }

  /** Order across segments: what a contributes comes before what b contributes. */
  lemma {:induction false} FirstUsesSplit<T>(a: seq<T>, b: seq<T>, key: T -> string)
    ensures FirstUses(a + b, key) == FirstUses(a, key) + FreshUses(a, b, key)
    decreases |b|
  {
    if b == [] {
      assert a + b == a;
    } else {
      var n := |b| - 1;
      hide IsFirst;
      FirstUsesSplit(a, b[..n], key);
      var last := if IsFirst(a + b, key, |a| + n) then [b[n]] else [];
      assert FirstUses(a + b, key) == FirstUses(a + b[..n], key) + last by {
        assert (a + b)[..|a + b| - 1] == a + b[..n];
        assert (a + b)[|a + b| - 1] == b[n];
      }
      assert FreshUses(a, b, key) == FreshUses(a, b[..n], key) + last;
    }
  }

  /** A list that is already usable and distinct is kept whole, and no other list is. */
  lemma {:induction false} FirstUsesWhole<T>(xs: seq<T>, key: T -> string)
    ensures FirstUses(xs, key) == xs <==>
      DistinctKeys(xs, key) && forall i | 0 <= i < |xs| :: key(xs[i]) != ""
    ensures |FirstUses(xs, key)| <= |xs|
  {
    FirstUsesKeys(xs, key);
    if xs != [] {
      var n := |xs| - 1;
      assert xs == xs[..n] + [xs[n]];
      FirstUsesWhole(xs[..n], key);
      if DistinctKeys(xs, key) && forall i | 0 <= i < |xs| :: key(xs[i]) != "" {
        assert IsFirst(xs, key, n);
      }
    }
  }
}

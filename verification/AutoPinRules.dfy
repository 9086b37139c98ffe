/** Autopin rules (autopin.go): which items a rule matches, and the rule store with its file.
    Dates arrive parsed: None for an empty or unparsable bound. Times are seconds. */
module AutoPinRules {
  import opened Basics
  import opened Discovery
  import opened Selection

  datatype Rule = Rule(
    id: string, name: string, enabled: bool,
    disciplines: seq<string>, authors: seq<string>, cidTypes: seq<string>,
    titlePattern: string, createdAfter: Option<int>, createdBefore: Option<int>)

  const DAY := 86400

  predicate ContainsCI(haystack: seq<string>, needle: string) {
    exists i | 0 <= i < |haystack| :: Lower(haystack[i]) == Lower(needle)
  }

  predicate Contains(s: string, sub: string) { exists i: nat | i <= |s| :: At(s, i, sub) }

  /** Every filter that is set must pass; createdBefore includes that whole day. */
  predicate Matches(r: Rule, item: Item) {
    && r.enabled
    && (|r.disciplines| > 0 ==> ContainsCI(r.disciplines, item.discipline))
    && (|r.authors| > 0 ==> ContainsCI(r.authors, item.author))
    && (|r.cidTypes| > 0 ==> ContainsCI(r.cidTypes, item.cidType))
    && (r.titlePattern != "" ==> Contains(Lower(item.title), Lower(r.titlePattern)))
    && (r.createdAfter.Some? ==> r.createdAfter.value <= item.created)
    && (r.createdBefore.Some? ==> item.created < r.createdBefore.value + DAY)
  }

  /** a and b are the same text up to the case of ASCII letters. */
  predicate SameText(a: string, b: string) {
    |a| == |b| && forall i | 0 <= i < |a| :: LowerChar(a[i]) == LowerChar(b[i])
  }

  predicate Accepts(list: seq<string>, s: string) { list == [] || exists i | 0 <= i < |list| :: SameText(list[i], s) }

  /** pattern occurs in title at p. */
  predicate OccursAt(title: string, p: nat, pattern: string) {
    p + |pattern| <= |title| && forall k | 0 <= k < |pattern| :: LowerChar(title[p + k]) == LowerChar(pattern[k])
  }

  lemma LowerSame(a: string, b: string)
    ensures Lower(a) == Lower(b) <==> SameText(a, b)
  {
    if Lower(a) == Lower(b) {
      forall i | 0 <= i < |a| ensures LowerChar(a[i]) == LowerChar(b[i]) {
        assert Lower(a)[i] == Lower(b)[i];
      }
    }
  }

  lemma ContainsCIMeans(list: seq<string>, s: string)
    ensures (|list| > 0 ==> ContainsCI(list, s)) <==> Accepts(list, s)
  {
    forall i | 0 <= i < |list| ensures Lower(list[i]) == Lower(s) <==> SameText(list[i], s) {
      LowerSame(list[i], s);
    }
    if ContainsCI(list, s) {
      var i :| 0 <= i < |list| && Lower(list[i]) == Lower(s);
      assert SameText(list[i], s);
    }
  }

  lemma AtMeans(title: string, p: nat, pattern: string)
    ensures At(Lower(title), p, Lower(pattern)) <==> OccursAt(title, p, pattern)
  {
    if p + |pattern| <= |title| {
      var w := Lower(title)[p..p + |pattern|];
      assert forall k | 0 <= k < |pattern| :: w[k] == LowerChar(title[p + k]);
      if w == Lower(pattern) {
        forall k | 0 <= k < |pattern| ensures LowerChar(title[p + k]) == LowerChar(pattern[k]) {
          assert w[k] == Lower(pattern)[k];
        }
      }
    }
  }

  /** What a rule accepts: it must be enabled, each list that is not empty must name the item's
      own value up to case, the title must contain the pattern up to case, and the item's
      date must lie between the two days, both included. */
  lemma MatchesMeans(r: Rule, x: Item)
    ensures Matches(r, x) <==>
      && r.enabled
      && Accepts(r.disciplines, x.discipline) && Accepts(r.authors, x.author) && Accepts(r.cidTypes, x.cidType)
      && (r.titlePattern == "" || exists p: nat :: OccursAt(x.title, p, r.titlePattern))
      && (r.createdAfter.Some? ==> x.created >= r.createdAfter.value)
      && (r.createdBefore.Some? ==> x.created - r.createdBefore.value < 24 * 60 * 60)
  {
    ContainsCIMeans(r.disciplines, x.discipline);
    ContainsCIMeans(r.authors, x.author);
    ContainsCIMeans(r.cidTypes, x.cidType);
    forall p: nat ensures At(Lower(x.title), p, Lower(r.titlePattern)) <==> OccursAt(x.title, p, r.titlePattern) {
      AtMeans(x.title, p, r.titlePattern);
    }
    if p: nat :| OccursAt(x.title, p, r.titlePattern) {
      assert At(Lower(x.title), p, Lower(r.titlePattern));
    }
  }

  predicate SomeRuleMatches(rules: seq<Rule>, item: Item) {
    exists k | 0 <= k < |rules| :: Matches(rules[k], item)
  }

  /** The items some rule matches, in order. */
  function Matching(rules: seq<Rule>, items: seq<Item>): seq<Item> {
    if items == [] then []
    else
      var n := |items| - 1;
      Matching(rules, items[..n]) + if SomeRuleMatches(rules, items[n]) then [items[n]] else []
  }

  /** An item comes out as often as it went in if some rule matches it, and not otherwise. */
  lemma {:induction false} MatchingCounts(rules: seq<Rule>, items: seq<Item>, x: Item)
    ensures multiset(Matching(rules, items))[x] == if SomeRuleMatches(rules, x) then multiset(items)[x] else 0
  {
    if items != [] {
      var n := |items| - 1;
      MatchingCounts(rules, items[..n], x);
      assert items == items[..n] + [items[n]];
    }
  }

  ghost function Matched(rules: seq<Rule>, items: seq<Item>): nat -> bool {
    (i: nat) => i < |items| && SomeRuleMatches(rules, items[i])
  }

  /** The items come out in order, each that some rule matches and no other. */
  lemma {:induction false} MatchingSelects(rules: seq<Rule>, items: seq<Item>)
    ensures Selects(items, Matching(rules, items), Matched(rules, items))
  {
    if items == [] {
      SelectsNone<Item>(Matched(rules, items));
    } else {
      var n := |items| - 1;
      MatchingSelects(rules, items[..n]);
      assert items == items[..n] + [items[n]];
      hide SomeRuleMatches;
      SelectsSnoc(items[..n], Matching(rules, items[..n]), Matched(rules, items[..n]), items[n], Matched(rules, items));
    }
  }

  predicate Find(rules: seq<Rule>, id: string) { exists i | 0 <= i < |rules| :: rules[i].id == id }

  function SetAll(rules: seq<Rule>, enabled: bool): (r: seq<Rule>)
    ensures |r| == |rules|
    ensures forall i | 0 <= i < |r| :: r[i] == rules[i].(enabled := enabled)
  {
    seq(|rules|, i requires 0 <= i < |rules| => rules[i].(enabled := enabled))
  }

  /** After disabling every rule nothing matches. */
  lemma {:induction false} NothingWhenDisabled(rules: seq<Rule>, items: seq<Item>)
    ensures Matching(SetAll(rules, false), items) == []
  {
    if items != [] {
      NothingWhenDisabled(rules, items[..|items| - 1]);
    }
  }

  /** One operation with the outcome of its save. */
  datatype Op =
    | Add(r: Rule, id: string, saved: bool)
    | Update(id: string, r: Rule, saved: bool)
    | Delete(id: string, saved: bool)
    | SetEnabled(enabled: bool, saved: bool)

  datatype Store = Store(memory: seq<Rule>, disk: seq<Rule>)

  function IndexOf(rules: seq<Rule>, id: string): (i: nat)
    ensures i <= |rules|
    ensures i < |rules| ==> rules[i].id == id
    ensures forall j | 0 <= j < i :: rules[j].id != id
  {
    if rules == [] || rules[0].id == id then 0 else 1 + IndexOf(rules[1..], id)
  }

  /** What memory becomes when the save succeeds. */
  function Edited(rules: seq<Rule>, op: Op): seq<Rule> {
    match op
    case Add(r, id, _) => rules + [r.(id := id)]
    case Update(id, r, _) =>
      var i := IndexOf(rules, id);
      if i < |rules| then rules[i := r.(id := id)] else rules
    case Delete(id, _) =>
      var i := IndexOf(rules, id);
      if i < |rules| then rules[..i] + rules[i + 1..] else rules
    case SetEnabled(e, _) => SetAll(rules, e)
  }

  /** The first rule with the id is at i. */
  predicate IsFirstWith(rules: seq<Rule>, id: string, i: nat) {
    i < |rules| && rules[i].id == id && forall j | 0 <= j < i :: rules[j].id != id
  }

  /** What an edit does and all it does: Add appends, Update replaces the first rule with the id
      and no other, Delete removes that one and keeps the rest in order, SetEnabled changes
      no field but the flag, in every rule. The stored rule carries the id it is stored under. */
  lemma EditsAreLocal(rules: seq<Rule>, op: Op)
    ensures var t := Edited(rules, op);
      match op
      case Add(r, id, _) =>
        |t| == |rules| + 1 && rules <= t && t[|rules|].id == id && t[|rules|].(id := r.id) == r
      case Update(id, r, _) =>
        && |t| == |rules|
        && forall i | 0 <= i < |rules| ::
             if IsFirstWith(rules, id, i) then t[i].id == id && t[i].(id := r.id) == r else t[i] == rules[i]
      case Delete(id, _) =>
        && (Find(rules, id) ==> |t| == |rules| - 1)
        && (forall i: nat | IsFirstWith(rules, id, i) ::
              (forall j | 0 <= j < i :: t[j] == rules[j]) && forall j | i < j < |rules| :: t[j - 1] == rules[j])
        && (!Find(rules, id) ==> t == rules)
      case SetEnabled(e, _) =>
        && |t| == |rules|
        && forall i | 0 <= i < |rules| :: t[i].enabled == e && t[i].(enabled := rules[i].enabled) == rules[i]
  {
    if op.Update? || op.Delete? {
      var k := IndexOf(rules, op.id);
      assert k < |rules| ==> IsFirstWith(rules, op.id, k);
      if i: nat :| IsFirstWith(rules, op.id, i) {
        assert i == k;
      }
    }
  }

  /** The operations that look an id up and touch nothing, not even the file, if it is absent. */
  predicate Misses(rules: seq<Rule>, op: Op) {
    (op.Update? || op.Delete?) && IndexOf(rules, op.id) == |rules|
  }

  predicate RollsBack(op: Op) { op.Add? || op.Update? }

  function Exec(s: Store, op: Op): Store {
    if Misses(s.memory, op) then s
    else if op.saved then Store(Edited(s.memory, op), Edited(s.memory, op))
    else if RollsBack(op) then s
    else Store(Edited(s.memory, op), s.disk)
  }

  /** An Update or Delete of an id no rule has touches neither memory nor the file. */
  lemma MissTouchesNothing(s: Store, op: Op)
    requires (op.Update? || op.Delete?) && !Find(s.memory, op.id)
    ensures Exec(s, op) == s
  {
  }

  datatype Result<+T> = Ok(value: T) | NotFound | SaveError

  /** memory is m.rules, disk what autopin.json holds. Whether a save succeeds is the
      environment's choice; a failed one leaves the file as it was. */
  class AutoPinManager {
    var rules: seq<Rule>
    var disk: seq<Rule>

    ghost function View(): Store
      reads this
    {
      Store(rules, disk)
    }

    /** A rule file that exists is loaded as it is. */
    constructor (stored: seq<Rule>)
      ensures rules == disk == stored
    {
      rules, disk := stored, stored;
    }

    method Save() returns (ok: bool)
      modifies this`disk
      ensures disk == if ok then rules else old(disk)
    {
      ok := *;
      if ok {
        disk := rules;
      }
    }

    /** id is the fresh random id. A failed save is rolled back. */
    method AddRule(r: Rule, id: string) returns (res: Result<Rule>)
      modifies this
      ensures res == Ok(r.(id := id)) || res == SaveError
      ensures View() == Exec(old(View()), Add(r, id, res.Ok?))
    {
      var r' := r.(id := id);
      rules := rules + [r'];
      var ok := Save();
      if !ok {
        rules := rules[..|rules| - 1];
        return SaveError;
      }
      return Ok(r');
    }

    /** The first rule with the id is replaced, or on a failed save put back. */
    method UpdateRule(id: string, r: Rule) returns (res: Result<Rule>)
      modifies this
      ensures res.NotFound? <==> !Find(old(rules), id)
      ensures res.Ok? ==> res.value == r.(id := id)
      ensures View() == Exec(old(View()), Update(id, r, res.Ok?))
    {
      for i := 0 to |rules|
        invariant rules == old(rules) && disk == old(disk)
        invariant forall j | 0 <= j < i :: rules[j].id != id
      {
        var existing := rules[i];
        if existing.id == id {
          assert IndexOf(old(rules), id) == i;
          rules := rules[i := r.(id := id)];
          var ok := Save();
          if !ok {
            rules := rules[i := existing];
            return SaveError;
          }
          return Ok(r.(id := id));
        }
      }
      return NotFound;
    }

    /** The first rule with the id goes, and stays gone when the save fails. */
    method DeleteRule(id: string) returns (res: Result<()>)
      modifies this
      ensures res.NotFound? <==> !Find(old(rules), id)
      ensures View() == Exec(old(View()), Delete(id, res.Ok?))
    {
      for i := 0 to |rules|
        invariant rules == old(rules) && disk == old(disk)
        invariant forall j | 0 <= j < i :: rules[j].id != id
      {
        if rules[i].id == id {
          assert IndexOf(old(rules), id) == i;
          rules := rules[..i] + rules[i + 1..];
          var ok := Save();
          return if ok then Ok(()) else SaveError;
        }
      }
      return NotFound;
    }

    /** No rollback either. */
    method SetAllEnabled(enabled: bool) returns (ok: bool)
      modifies this
      ensures View() == Exec(old(View()), SetEnabled(enabled, ok))
    {
      for i := 0 to |rules|
        invariant |rules| == |old(rules)| && disk == old(disk)
        invariant forall j | 0 <= j < |rules| ::
          rules[j] == if j < i then old(rules)[j].(enabled := enabled) else old(rules)[j]
      {
        rules := rules[i := rules[i].(enabled := enabled)];
      }
      ok := Save();
    }

    method MatchingItems(items: seq<Item>) returns (matched: seq<Item>)
      ensures matched == Matching(rules, items)
    {
      matched := [];
      for i := 0 to |items|
        invariant matched == Matching(rules, items[..i])
      {
        assert items[..i + 1][..i] == items[..i];
        var hit := false;
        for k := 0 to |rules|
          invariant !hit && forall j | 0 <= j < k :: !Matches(rules[j], items[i])
        {
          if Matches(rules[k], items[i]) {
            hit := true;
            break;
          }
        }
        if hit {
          matched := matched + [items[i]];
        }
      }
      assert items[..|items|] == items;
    }
  }

  // ----- over any sequence of operations -----

  function ExecAll(s: Store, ops: seq<Op>): Store {
    if ops == [] then s else Exec(ExecAll(s, ops[..|ops| - 1]), ops[|ops| - 1])
  }

  /** A failed save that is not rolled back. */
  predicate Diverges(rules: seq<Rule>, op: Op) { !op.saved && !RollsBack(op) && !Misses(rules, op) }

  /** The first n operations end in a save that succeeded, or n is 0. */
  ghost predicate SavedAt(s: Store, ops: seq<Op>, n: nat)
    requires n <= |ops|
  {
    n > 0 ==> ops[n - 1].saved && !Misses(ExecAll(s, ops[..n - 1]).memory, ops[n - 1])
  }

  ghost predicate NoneDiverges(s: Store, ops: seq<Op>, n: nat) {
    forall k | n <= k < |ops| :: !Diverges(ExecAll(s, ops[..k]).memory, ops[k])
  }

  /** No Delete or SetEnabled has failed to save since the last save that succeeded. */
  ghost predicate Clean(s: Store, ops: seq<Op>) {
    exists n: nat :: n <= |ops| && SavedAt(s, ops, n) && NoneDiverges(s, ops, n)
  }

  lemma {:induction false} CleanFrom(s: Store, ops: seq<Op>, n: nat)
    requires n <= |ops| && ExecAll(s, ops[..n]).memory == ExecAll(s, ops[..n]).disk
    requires NoneDiverges(s, ops, n)
    ensures ExecAll(s, ops).memory == ExecAll(s, ops).disk
    decreases |ops|
  {
    assert ops[..|ops|] == ops;
    if n < |ops| {
      var m := |ops| - 1;
      assert ops[..m][..n] == ops[..n];
      forall k | n <= k < m ensures !Diverges(ExecAll(s, ops[..m][..k]).memory, ops[..m][k]) {
        assert ops[..m][..k] == ops[..k];
      }
      CleanFrom(s, ops[..m], n);
      assert !Diverges(ExecAll(s, ops[..m]).memory, ops[m]);
    }
  }

  /** Memory and file agree after every clean sequence of operations. */
  lemma MemoryMatchesDisk(s: Store, ops: seq<Op>)
    requires s.memory == s.disk && Clean(s, ops)
    ensures ExecAll(s, ops).memory == ExecAll(s, ops).disk
  {
    var n: nat :| n <= |ops| && SavedAt(s, ops, n) && NoneDiverges(s, ops, n);
    if n > 0 {
      assert ops[..n][..n - 1] == ops[..n - 1];
    }
    CleanFrom(s, ops, n);
  }

  /** Exactly when one operation breaks agreement: a Delete that found its rule, or a
      SetEnabled that changed some flag, whose save failed. */
  lemma BreaksAgreementIff(s: Store, op: Op)
    requires s.memory == s.disk
    ensures Exec(s, op).memory != Exec(s, op).disk <==>
      !op.saved && match op
        case Delete(id, _) => Find(s.memory, id)
        case SetEnabled(e, _) => exists i :: 0 <= i < |s.memory| && s.memory[i].enabled != e
        case _ => false
  {
    match op
    case Delete(id, _) =>
      var i := IndexOf(s.memory, id);
      if i < |s.memory| {
        assert |Edited(s.memory, op)| == |s.memory| - 1;
      }
    case SetEnabled(e, _) =>
      var t := SetAll(s.memory, e);
      if i :| 0 <= i < |s.memory| && s.memory[i].enabled != e {
        assert t[i] != s.memory[i];
      } else {
        assert t == s.memory;
      }
    case _ =>
  }

  /** For example: a rule whose deletion could not be saved is gone until the next start,
      which loads it again. */
  lemma DeletedRuleIsStillOnDisk(r: Rule)
    ensures Exec(Store([r], [r]), Delete(r.id, false)) == Store([], [r])
  {
    assert IndexOf([r], r.id) == 0;
  }
}

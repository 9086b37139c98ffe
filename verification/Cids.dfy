/** The CID shape check of pinner.go and the inline-image scan of discovery.go. */
module Cids {
  import opened Basics

  predicate Base58(c: char) {
    '1' <= c <= '9' || 'A' <= c <= 'H' || 'J' <= c <= 'N' || 'P' <= c <= 'Z' || 'a' <= c <= 'k' || 'm' <= c <= 'z'
  }

  predicate Base32(c: char) { 'A' <= c <= 'Z' || 'a' <= c <= 'z' || '2' <= c <= '7' }

  predicate IsV0(s: string) {
    |s| == 46 && s[0] == 'Q' && s[1] == 'm' && forall i | 2 <= i < 46 :: Base58(s[i])
  }

  predicate IsV1(s: string) { |s| == 59 && s[0] == 'b' && forall i | 1 <= i < 59 :: Base32(s[i]) }

  /** The character classes of the pattern: base58 is the letters and digits without the four
      that look alike, base32 the letters and the digits from 2 to 7. */
  lemma Alphabets(c: char)
    ensures var letter := 'a' <= LowerChar(c) <= 'z';
      && (Base58(c) <==> (letter || '0' <= c <= '9') && c != '0' && c != 'O' && c != 'I' && c != 'l')
      && (Base32(c) <==> letter || '2' <= c <= '7')
  {
  }

  /** ValidateCID returns nil. */
  predicate ValidCID(s: string) { IsV0(s) || IsV1(s) }

  const IPFS := "/ipfs/"

  /** The length of the CID of a link /ipfs/<cid> at i, whatever follows it, or 0. */
  function LinkAt(body: string, i: nat): (n: nat)
    ensures n > 0 ==> i + n + 6 <= |body|
  {
    if !At(body, i, IPFS) then 0
    else if i + 52 <= |body| && IsV0(body[i + 6..i + 52]) then 46
    else if i + 65 <= |body| && IsV1(body[i + 6..i + 65]) then 59
    else 0
  }

  /** A slash follows the link. */
  predicate Closed(body: string, i: nat) {
    var n := LinkAt(body, i); n > 0 && i + n + 6 < |body| && body[i + n + 6] == '/'
  }

  /** The length of the CID that the pattern /ipfs/(<cid>)/ matches at i, or 0. The two CID
      shapes start differently, so at most one of them can match. */
  function MatchAt(body: string, i: nat): (n: nat)
    ensures n > 0 ==> i + n + 7 <= |body|
  {
    if Closed(body, i) then LinkAt(body, i) else 0
  }

  /** Where the leftmost, non-overlapping matches start, from i on. The slash that ends a
      match is consumed by it. */
  function Scan(body: string, i: nat): (ps: seq<nat>)
    ensures forall p | p in ps :: i <= p && MatchAt(body, p) > 0
    decreases |body| - i
  {
    if i >= |body| then []
    else if MatchAt(body, i) > 0 then [i] + Scan(body, i + MatchAt(body, i) + 7)
    else Scan(body, i + 1)
  }

  function CidAt(body: string, p: nat): string
    requires MatchAt(body, p) > 0
  {
    body[p + 6..p + 6 + MatchAt(body, p)]
  }

  /** FindAllStringSubmatch: the first group of every match. */
  function FindCids(body: string): seq<string> {
    var ps := Scan(body, 0);
    seq(|ps|, k requires 0 <= k < |ps| => assert ps[k] in ps; CidAt(body, ps[k]))
  }

  /** Nothing the scan reports fails the shape check, so the inline branch drops nothing. */
  lemma FoundCidsAreValid(body: string)
    ensures forall k | 0 <= k < |FindCids(body)| :: ValidCID(FindCids(body)[k])
  {
    var ps := Scan(body, 0);
    forall k | 0 <= k < |ps| ensures ValidCID(FindCids(body)[k]) {
      assert ps[k] in ps;
    }
  }

  /** A link is IPFS followed by a well-formed CID, and nothing else is. */
  lemma LinkIs(body: string, p: nat, c: string)
    requires ValidCID(c)
    ensures At(body, p, IPFS + c) <==> LinkAt(body, p) == |c| && At(body, p + 6, c)
  {
    AtJoin(body, p, IPFS, c);
    if At(body, p + 6, c) {
      assert body[p + 6] == c[0];
      if |c| == 59 && p + 52 <= |body| { assert body[p + 6..p + 52][0] == c[0]; }
    }
  }

  lemma {:induction false} ScanIncreases(body: string, i: nat)
    ensures forall a, b | 0 <= a < b < |Scan(body, i)| :: Scan(body, i)[a] < Scan(body, i)[b]
    decreases |body| - i
  {
    if i < |body| {
      var n := MatchAt(body, i);
      if n > 0 {
        ScanIncreases(body, i + n + 7);
        var rest := Scan(body, i + n + 7);
        assert forall b | 0 <= b < |rest| :: rest[b] in rest;
      } else {
        ScanIncreases(body, i + 1);
      }
    }
  }

  /** c stands in body at p between slashes, as a link. */
  predicate LinkOf(body: string, p: nat, c: string) { ValidCID(c) && At(body, p, "/ipfs/" + c + "/") }

  /** What FindAllStringSubmatch returns: the CIDs of the reported links, in the order in which
      they stand in the body. */
  lemma FindCidsAre(body: string)
    ensures var ps, cs := Scan(body, 0), FindCids(body);
      && |cs| == |ps|
      && (forall k | 0 <= k < |cs| :: LinkOf(body, ps[k], cs[k]))
      && (forall a, b | 0 <= a < b < |ps| :: ps[a] < ps[b])
  {
    var ps, cs := Scan(body, 0), FindCids(body);
    ScanIncreases(body, 0);
    FoundCidsAreValid(body);
    forall k | 0 <= k < |cs| ensures LinkOf(body, ps[k], cs[k]) {
      assert ps[k] in ps;
      LinkIs(body, ps[k], cs[k]);
      AtJoin(body, ps[k], IPFS + cs[k], "/");
    }
  }

  lemma MatchChars(body: string, q: nat)
    requires MatchAt(body, q) > 0
    ensures var n := MatchAt(body, q);
      && body[q] == '/' && body[q + 5] == '/' && body[q + 6 + n] == '/'
      && (forall i | q < i < q + 5 :: body[i] != '/')
      && (forall i | q + 6 <= i < q + 6 + n :: body[i] != '/')
      && body[q + 1] == 'i' && body[q + 6] != 'i'
  {
    var n := MatchAt(body, q);
    var c := body[q + 6..q + 6 + n];
    assert ValidCID(c) && |c| == n;
    forall i | q + 6 <= i < q + 6 + n ensures body[i] != '/' {
      assert body[i] == c[i - q - 6];
    }
    assert body[q + 6] == c[0];
    var t := body[q..q + 6];
    assert forall i | 0 <= i < 6 :: body[q + i] == t[i];
    forall i | q < i < q + 5 ensures body[i] != '/' {
      assert body[i] == t[i - q];
    }
    assert body[q + 5] == t[5] && body[q + 1] == t[1];
  }

  /** Two occurrences can only overlap in one slash: the end of one, the start of the next. */
  lemma OverlapIsASlash(body: string, q: nat, p: nat)
    requires MatchAt(body, q) > 0 && MatchAt(body, p) > 0
    requires q < p < q + MatchAt(body, q) + 7
    ensures p == q + MatchAt(body, q) + 6
  {
    MatchChars(body, q);
    MatchChars(body, p);
  }

  /** q is reported and its closing slash is the opening slash of p. */
  ghost predicate Shadows(body: string, q: nat, p: nat) {
    q in Scan(body, 0) && q + MatchAt(body, q) + 6 == p
  }

  lemma {:induction false} ScanReports(body: string, i: nat, p: nat)
    requires i <= p && MatchAt(body, p) > 0
    ensures p in Scan(body, i) <==>
      !exists q :: q in Scan(body, i) && q + MatchAt(body, q) + 6 == p
    decreases |body| - i
  {
    var n := MatchAt(body, i);
    if n == 0 {
      ScanReports(body, i + 1, p);
    } else if p == i {
    } else {
      var rest := Scan(body, i + n + 7);
      assert Scan(body, i) == [i] + rest;
      if p < i + n + 7 {
        OverlapIsASlash(body, i, p);
        assert i in Scan(body, i);
      } else {
        ScanReports(body, i + n + 7, p);
        if q :| q in rest && q + MatchAt(body, q) + 6 == p {
          assert q in Scan(body, i);
        }
      }
    }
  }

  /** Exactly which occurrences the body scan finds: an occurrence of /ipfs/<cid>/ is
      reported if and only if its opening slash does not close a reported one. */
  lemma OccurrenceReported(body: string, p: nat)
    requires MatchAt(body, p) > 0
    ensures p in Scan(body, 0) <==> !exists q :: Shadows(body, q, p)
  {
    ScanReports(body, 0, p);
    if q :| q in Scan(body, 0) && q + MatchAt(body, q) + 6 == p {
      assert Shadows(body, q, p);
    }
  }

  /** The slash that ends the link at q begins the link at p. */
  ghost predicate SharedSlash(body: string, q: nat, p: nat) {
    MatchAt(body, q) > 0 && LinkAt(body, p) > 0 && q + MatchAt(body, q) + 6 == p
  }

  /** Which links /ipfs/<cid> the scan misses: those no slash follows, and those whose opening
      slash closed a reported one. */
  lemma LinkReported(body: string, p: nat)
    requires LinkAt(body, p) > 0
    ensures p in Scan(body, 0) <==> Closed(body, p) && !exists q :: Shadows(body, q, p)
  {
    if Closed(body, p) {
      OccurrenceReported(body, p);
    }
  }

  /** Every link is found if and only if a slash follows each of them and no two share one. */
  lemma AllLinksReportedIff(body: string)
    ensures (forall p | LinkAt(body, p) > 0 :: p in Scan(body, 0)) <==>
      (forall p | LinkAt(body, p) > 0 :: Closed(body, p)) && !exists q, p :: SharedSlash(body, q, p)
  {
    forall p | LinkAt(body, p) > 0
      ensures p in Scan(body, 0) ==> Closed(body, p)
      ensures p in Scan(body, 0) || !Closed(body, p) || exists q :: SharedSlash(body, q, p)
    {
      LinkReported(body, p);
      if p !in Scan(body, 0) && Closed(body, p) {
        var q :| Shadows(body, q, p);
        assert SharedSlash(body, q, p);
      }
    }
    forall q, p | SharedSlash(body, q, p) ensures q !in Scan(body, 0) || p !in Scan(body, 0) {
      LinkReported(body, p);
      assert q in Scan(body, 0) ==> Shadows(body, q, p);
    }
  }

  /** In terms of CIDs: c is found if and only if it stands somewhere between slashes where its
      opening slash does not close a reported link. */
  lemma FoundIff(body: string, c: string)
    ensures c in FindCids(body) <==> exists p: nat :: LinkOf(body, p, c) && !exists q :: Shadows(body, q, p)
  {
    var ps, cs := Scan(body, 0), FindCids(body);
    FindCidsAre(body);
    if c in cs {
      var k :| 0 <= k < |cs| && cs[k] == c;
      assert ps[k] in ps;
      OccurrenceReported(body, ps[k]);
    }
    if p: nat :| LinkOf(body, p, c) && !exists q :: Shadows(body, q, p) {
      ClosedLink(body, p, c);
      OccurrenceReported(body, p);
      var k :| 0 <= k < |ps| && ps[k] == p;
      assert cs[k] == CidAt(body, p) == c;
    }
  }

  lemma ClosedLink(body: string, p: nat, c: string)
    requires LinkOf(body, p, c)
    ensures MatchAt(body, p) == |c| && CidAt(body, p) == c
  {
    AtJoin(body, p, IPFS + c, "/");
    LinkIs(body, p, c);
    assert body[p + 6 + |c|] == "/"[0];
  }

  /** The first failing family: a link at the end of the body, for any CID, is missed. */
  lemma LinkAtEndMissed(c: string)
    requires ValidCID(c)
    ensures LinkAt(IPFS + c, 0) == |c| && FindCids(IPFS + c) == []
  {
    var body := IPFS + c;
    assert body[0..6] == IPFS && body[6..] == c && body[6..6 + |c|] == c;
    if |c| == 59 { assert body[6] == c[0] && body[6..52][0] == body[6]; }
    forall k | 1 <= k < |body| - 7 ensures !At(body, k, IPFS) {
      var w := body[k..k + 6];
      assert body[k] == w[0] && body[k + 1] == w[1] && body[6] == c[0];
      assert k >= 6 ==> body[k] == c[k - 6];
    }
    NoOpeningSlash(body, 1);
  }

  /** The second failing family: of two links written back to back, the second is missed. */
  lemma BackToBackMissed(a: string, b: string)
    requires ValidCID(a) && ValidCID(b)
    ensures FindCids(IPFS + a + IPFS + b + "/") == [a]
  {
    var body := IPFS + a + IPFS + b + "/";
    var n := |a|;
    assert body[0..6] == IPFS && body[6..6 + n] == a && body[6 + n] == '/';
    assert MatchAt(body, 0) == n by {
      if n == 59 { assert body[6] == a[0] && body[6..52][0] == a[0]; }
    }
    forall k | n + 7 <= k < |body| - 7 ensures !At(body, k, IPFS) {
      var w := body[k..k + 6];
      assert body[k] == w[0] && body[k + 1] == w[1] && body[n + 12] == b[0];
      if k >= n + 12 {
        assert body[k] == b[k - n - 12];
      } else {
        assert body[k] == IPFS[k - n - 6];
      }
    }
    NoOpeningSlash(body, n + 7);
    assert Scan(body, 0) == [0];
    assert FindCids(body) == [CidAt(body, 0)];
  }

  lemma {:induction false} NoOpeningSlash(body: string, i: nat)
    requires i <= |body|
    requires forall k | i <= k < |body| - 7 :: !At(body, k, IPFS)
    ensures Scan(body, i) == []
    decreases |body| - i
  {
    if i < |body| {
      assert MatchAt(body, i) == 0;
      NoOpeningSlash(body, i + 1);
    }
  }
}

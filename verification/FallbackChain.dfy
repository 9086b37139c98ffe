/** The CAR-fetch fallback chain (ipfsnode_fetch.go): URL keys, how the chain is put together
    from the configured gateways and the mesh, and how it is walked. */
module FallbackChain {
  import opened Basics
  import opened FirstUse
  import opened Selection
  import opened CarImport
  import MeshCache

  /** A parsed URL, in the parts that matter; scheme, opaque part and userinfo are kept. */
  datatype Url = Url(
    scheme: string, opaquePart: string, userinfo: string, host: string, path: string,
    forceQuery: bool, rawQuery: string, fragment: string)

  /** url.Parse of the trimmed text, and URL.String. */
  datatype UrlLib = UrlLib(parse: string -> Option<Url>, print_: Url -> string)

  /** strings.TrimRight(s, "/"). */
  function TrimSlashes(s: string): (r: string)
    ensures r <= s && (r == "" || r[|r| - 1] != '/')
    ensures forall i | |r| <= i < |s| :: s[i] == '/'
  {
    if s != "" && s[|s| - 1] == '/' then TrimSlashes(s[..|s| - 1]) else s
  }

  function Normal(u: Url): Url {
    u.(host := Lower(u.host), path := TrimSlashes(u.path), fragment := "", rawQuery := "")
  }

  /** normalizeFallbackURL; "" means unusable. */
  function FallbackKey(lib: UrlLib): string -> string {
    (raw: string) =>
      if raw == "" then ""
      else if lib.parse(raw).None? then ""
      else lib.print_(Normal(lib.parse(raw).value))
  }

  /** Normalising twice changes nothing. */
  lemma NormalIdempotent(u: Url)
    ensures Normal(Normal(u)) == Normal(u)
  {
    assert Lower(Lower(u.host)) == Lower(u.host);
  }

  /** What is asked of the library: a usable key of text that parses is text that parses, to
      the normalised URL. Nothing is asked of URLs no text parses to. */
  ghost predicate ParsesBack(lib: UrlLib) {
    forall raw | lib.parse(raw).Some? ::
      var n := Normal(lib.parse(raw).value); lib.print_(n) != "" ==> lib.parse(lib.print_(n)) == Some(n)
  }

  lemma KeyParsesBack(lib: UrlLib, raw: string)
    requires ParsesBack(lib) && FallbackKey(lib)(raw) != ""
    ensures raw != "" && lib.parse(raw).Some?
    ensures lib.parse(FallbackKey(lib)(raw)) == Some(Normal(lib.parse(raw).value))
  {
  }

  /** The key of a key is the key. */
  lemma KeyIdempotent(lib: UrlLib, raw: string)
    requires ParsesBack(lib)
    ensures FallbackKey(lib)(FallbackKey(lib)(raw)) == FallbackKey(lib)(raw)
  {
    if FallbackKey(lib)(raw) != "" {
      KeyParsesBack(lib, raw);
      NormalIdempotent(lib.parse(raw).value);
    }
  }

  /** Any number of trailing slashes is the same path. */
  lemma {:induction false} TrimFrom(p: string, t: string)
    requires t <= p && forall i | |t| <= i < |p| :: p[i] == '/'
    ensures TrimSlashes(p) == TrimSlashes(t)
    decreases |p|
  {
    if |t| < |p| {
      TrimFrom(p[..|p| - 1], t);
    } else {
      assert p == t;
    }
  }

  /** Same scheme, opaque part, userinfo and bare question mark, hosts equal up to ASCII case,
      paths equal up to trailing slashes; query and fragment do not matter. */
  ghost predicate Variants(u: Url, v: Url) {
    && u.scheme == v.scheme && u.opaquePart == v.opaquePart
    && u.userinfo == v.userinfo && u.forceQuery == v.forceQuery
    && |u.host| == |v.host| && (forall i | 0 <= i < |u.host| :: LowerChar(u.host[i]) == LowerChar(v.host[i]))
    && TrimSlashes(u.path) == TrimSlashes(v.path)
  }

  lemma SameNormal(u: Url, v: Url)
    ensures Normal(u) == Normal(v) <==> Variants(u, v)
  {
    if Lower(u.host) == Lower(v.host) {
      forall i | 0 <= i < |u.host| ensures LowerChar(u.host[i]) == LowerChar(v.host[i]) {
        assert Lower(u.host)[i] == Lower(v.host)[i];
      }
    }
    if |u.host| == |v.host| && forall i | 0 <= i < |u.host| :: LowerChar(u.host[i]) == LowerChar(v.host[i]) {
      assert Lower(u.host) == Lower(v.host);
    }
  }

  /** Which texts share a key, and so count as one gateway: exactly the variants. */
  lemma SameKeyIff(lib: UrlLib, r: string, t: string)
    requires ParsesBack(lib) && FallbackKey(lib)(r) != "" && FallbackKey(lib)(t) != ""
    ensures FallbackKey(lib)(r) == FallbackKey(lib)(t) <==>
      Variants(lib.parse(r).value, lib.parse(t).value)
  {
    KeyParsesBack(lib, r);
    KeyParsesBack(lib, t);
    SameNormal(lib.parse(r).value, lib.parse(t).value);
  }

  /** What screens the host of an advertised gateway: its name without the port, and whether
      that is unsafe to ask. */
  datatype HostLib = HostLib(hostname: string -> string, unsafe: string -> bool)

  /** validateMeshGatewayURL on the trimmed text; None is any of its errors. userinfo "" is no
      userinfo. What it accepts it returns as the fallback key of the text. */
  method ValidateMeshGatewayURL(lib: UrlLib, hosts: HostLib, raw: string, allowPrivate: bool)
    returns (r: Option<string>)
    ensures r.Some? <==> lib.parse(raw).Some? && var u := lib.parse(raw).value;
      && (Lower(u.scheme) == "http" || Lower(u.scheme) == "https")
      && hosts.hostname(u.host) != "" && u.userinfo == ""
      && (allowPrivate || !hosts.unsafe(hosts.hostname(u.host)))
    ensures r.Some? && raw != "" ==> r.value == FallbackKey(lib)(raw)
    ensures r.Some? && ParsesBack(lib) && r.value != "" ==> FallbackKey(lib)(r.value) == r.value
  {
    if lib.parse(raw).None? {
      return None;
    }
    var u := lib.parse(raw).value;
    var scheme := Lower(u.scheme);
    if scheme != "http" && scheme != "https" {
      return None;
    }
    var host := hosts.hostname(u.host);
    if host == "" || u.userinfo != "" {
      return None;
    }
    if !allowPrivate {
      if hosts.unsafe(host) {
        return None;
      }
    }
    NormalIdempotent(u);
    u := u.(host := Lower(u.host), path := TrimSlashes(u.path), fragment := "", rawQuery := "");
    return Some(lib.print_(u));
  }

  function MeshUrls(peers: seq<MeshCache.Peer>): seq<string> {
    seq(|peers|, i requires 0 <= i < |peers| => peers[i].gatewayURL)
  }

  /** The closure `add` run over one list: skip what is unusable or seen. past is what has
      been offered before. */
  method AddAll(us: seq<string>, key: string -> string, seen: set<string>, out: seq<string>, ghost past: seq<string>)
    returns (seen': set<string>, out': seq<string>)
    requires seen == Keys(past, key) && out == FirstUses(past, key)
    ensures seen' == Keys(past + us, key) && out' == FirstUses(past + us, key)
  {
    hide Keys, FirstUses;
    seen', out' := seen, out;
    ghost var offered := past;
    for i := 0 to |us|
      invariant offered == past + us[..i]
      invariant seen' == Keys(offered, key) && out' == FirstUses(offered, key)
    {
      FirstUsesSnoc(offered, key, us[i]);
      offered := offered + [us[i]];
      var k := key(us[i]);
      if k == "" || k in seen' {
        continue;
      }
      seen', out' := seen' + {k}, out' + [us[i]];
    }
    assert offered == past + us;
  }

  function HeadEnd(gateways: seq<string>, staticHeadLen: nat): (n: nat)
    ensures n <= |gateways|
  {
    if staticHeadLen > |gateways| then |gateways| else staticHeadLen
  }

  /** The chain a caller gets; mesh None is a node without a mesh. */
  ghost function Chain(lib: UrlLib, gateways: seq<string>, staticHeadLen: nat, mesh: Option<seq<MeshCache.Peer>>): seq<string> {
    if mesh.None? || mesh.value == [] then gateways
    else
      var n := HeadEnd(gateways, staticHeadLen);
      FirstUses(gateways[..n] + MeshUrls(mesh.value) + gateways[n..], FallbackKey(lib))
  }

  method AssembleFallbackChain(lib: UrlLib, gateways: seq<string>, staticHeadLen: nat, mesh: Option<seq<MeshCache.Peer>>)
    returns (out: seq<string>)
    ensures out == Chain(lib, gateways, staticHeadLen, mesh)
    ensures mesh.None? || mesh.value == [] ==> out == gateways
  {
    if mesh.None? {
      return gateways;
    }
    var peers := mesh.value;
    if |peers| == 0 {
      return gateways;
    }
    var headEnd := staticHeadLen;
    if headEnd > |gateways| {
      headEnd := |gateways|;
    }
    var key := FallbackKey(lib);
    var head, tail := gateways[..headEnd], gateways[headEnd..];
    var seen: set<string> := {};
    assert Keys([], key) == {};
    seen, out := AddAll(head, key, seen, [], []);
    assert [] + head == head;
    seen, out := AddAll(MeshUrls(peers), key, seen, out, head);
    seen, out := AddAll(tail, key, seen, out, head + MeshUrls(peers));
  }

  /** out is what head contributes, then what mesh adds to that, then what tail adds. */
  ghost predicate InThreeParts(
    out: seq<string>, head: seq<string>, mesh: seq<string>, tail: seq<string>, key: string -> string)
  {
    exists h, m, t :: out == h + m + t
      && h == FirstUses(head, key)
      && (forall i | 0 <= i < |m| :: m[i] in mesh)
      && (forall i | 0 <= i < |t| :: t[i] in tail)
  }

  lemma PartsOf(head: seq<string>, mesh: seq<string>, tail: seq<string>, key: string -> string)
    ensures InThreeParts(FirstUses(head + mesh + tail, key), head, mesh, tail, key)
  {
    FirstUsesSplit(head, mesh, key);
    FirstUsesSplit(head + mesh, tail, key);
    FreshUsesFrom(head, mesh, key);
    FreshUsesFrom(head + mesh, tail, key);
    assert FirstUses(head + mesh + tail, key) ==
      FirstUses(head, key) + FreshUses(head, mesh, key) + FreshUses(head + mesh, tail, key);
  }

  /** The order of trust, with known peers in whatever order they come. The first staticHeadLen
      configured gateways come first, each once per key, then only mesh gateways, then only
      the configured rest; a staticHeadLen beyond the list makes all of it head. */
  lemma MeshIsSplicedAtTheHead(lib: UrlLib, gateways: seq<string>, staticHeadLen: nat, peers: seq<MeshCache.Peer>)
    requires peers != []
    ensures var out, key, mesh := Chain(lib, gateways, staticHeadLen, Some(peers)), FallbackKey(lib), MeshUrls(peers);
      && (staticHeadLen <= |gateways| ==>
            InThreeParts(out, gateways[..staticHeadLen], mesh, gateways[staticHeadLen..], key))
      && (staticHeadLen >= |gateways| ==> InThreeParts(out, gateways, mesh, [], key))
  {
    var n, key := HeadEnd(gateways, staticHeadLen), FallbackKey(lib);
    hide FallbackKey, FirstUses, InThreeParts;
    PartsOf(gateways[..n], MeshUrls(peers), gateways[n..], key);
    assert gateways[..|gateways|] == gateways && gateways[|gateways|..] == [];
  }

  /** And nothing is lost or repeated: keys are pairwise distinct, every usable key of the
      configured list and of the mesh is there, no other, and each for the first text that
      has it in the order head, mesh, rest. */
  lemma ChainShape(lib: UrlLib, gateways: seq<string>, staticHeadLen: nat, peers: seq<MeshCache.Peer>)
    requires peers != []
    ensures var n, key := HeadEnd(gateways, staticHeadLen), FallbackKey(lib);
      var all := gateways[..n] + MeshUrls(peers) + gateways[n..];
      var out := Chain(lib, gateways, staticHeadLen, Some(peers));
      && DistinctKeys(out, key)
      && Keys(out, key) == Keys(gateways, key) + Keys(MeshUrls(peers), key)
      && Selects(all, out, First(all, key))
  {
    var n, key := HeadEnd(gateways, staticHeadLen), FallbackKey(lib);
    var all := gateways[..n] + MeshUrls(peers) + gateways[n..];
    FirstUsesKeys(all, key);
    FirstUsesSelect(all, key);
    hide FallbackKey;
    assert gateways == gateways[..n] + gateways[n..];
    KeysJoin(gateways[..n], gateways[n..], key);
    KeysJoin(gateways[..n], MeshUrls(peers), key);
    KeysJoin(gateways[..n] + MeshUrls(peers), gateways[n..], key);
  }

  /** What KnownPeers hands out of a cache. */
  ghost predicate PeersOf(peers: seq<MeshCache.Peer>, c: MeshCache.Cache) {
    && (forall i | 0 <= i < |peers| :: exists p :: p in c && c[p] == peers[i])
    && (forall p | p in c :: c[p] in peers)
  }

  /** u is the gateway of a heartbeat that the cache shows after tr. */
  ghost predicate Advertised(self: MeshCache.PeerId, ttl: int, tr: seq<MeshCache.Event>, u: string) {
    exists p, i: nat :: MeshCache.Shown(self, ttl, tr, p, i) && tr[i].hb.gateway == Some(u)
  }

  lemma PeerAdvertises(self: MeshCache.PeerId, ttl: int, tr: seq<MeshCache.Event>, q: MeshCache.Peer)
    requires exists p :: p in MeshCache.After(map[], self, ttl, tr) && MeshCache.After(map[], self, ttl, tr)[p] == q
    ensures q.gatewayURL == "" || Advertised(self, ttl, tr, q.gatewayURL)
  {
    var c := MeshCache.After(map[], self, ttl, tr);
    var p :| p in c && c[p] == q;
    MeshCache.CacheShowsLastHeartbeat(self, ttl, tr, p);
    var i: nat :| MeshCache.Shown(self, ttl, tr, p, i);
  }

  /** From heartbeats to requests: every gateway asked is configured, or is what some peer last
      advertised; and every usable gateway so advertised is asked. */
  lemma ChainIsWhatWasAdvertised(lib: UrlLib, gateways: seq<string>, staticHeadLen: nat, peers: seq<MeshCache.Peer>,
                                 self: MeshCache.PeerId, ttl: int, tr: seq<MeshCache.Event>)
    requires PeersOf(peers, MeshCache.After(map[], self, ttl, tr))
    ensures var out := Chain(lib, gateways, staticHeadLen, Some(peers));
      && (forall u | u in out :: u in gateways || Advertised(self, ttl, tr, u))
      && (forall u | Advertised(self, ttl, tr, u) && FallbackKey(lib)(u) != "" ::
            FallbackKey(lib)(u) in Keys(out, FallbackKey(lib)))
  {
    var key, out := FallbackKey(lib), Chain(lib, gateways, staticHeadLen, Some(peers));
    assert key("") == "";
    hide FallbackKey, FirstUses, Advertised;
    forall u | u in out ensures u in gateways || Advertised(self, ttl, tr, u) {
      if peers != [] && u !in gateways {
        var n := HeadEnd(gateways, staticHeadLen);
        FirstUsesKeys(gateways[..n] + MeshUrls(peers) + gateways[n..], key);
        assert u in MeshUrls(peers) && key(u) != "";
        var i :| 0 <= i < |peers| && peers[i].gatewayURL == u;
        PeerAdvertises(self, ttl, tr, peers[i]);
      }
    }
    forall u | Advertised(self, ttl, tr, u) && key(u) != "" ensures key(u) in Keys(out, key) {
      AdvertisedIsKnown(self, ttl, tr, u, peers);
      ChainShape(lib, gateways, staticHeadLen, peers);
      var i :| 0 <= i < |peers| && peers[i].gatewayURL == u;
      assert MeshUrls(peers)[i] == u;
    }
  }

  lemma AdvertisedIsKnown(self: MeshCache.PeerId, ttl: int, tr: seq<MeshCache.Event>, u: string,
                          peers: seq<MeshCache.Peer>)
    requires PeersOf(peers, MeshCache.After(map[], self, ttl, tr)) && Advertised(self, ttl, tr, u)
    ensures exists i :: 0 <= i < |peers| && peers[i].gatewayURL == u
  {
    var p, i: nat :| MeshCache.Shown(self, ttl, tr, p, i) && tr[i].hb.gateway == Some(u);
    MeshCache.CacheShowsLastHeartbeat(self, ttl, tr, p);
    hide MeshCache.After, MeshCache.Shown;
    var c := MeshCache.After(map[], self, ttl, tr);
    assert c[p].gatewayURL == u && c[p] in peers;
  }

  ghost predicate CleanList(xs: seq<string>, key: string -> string) {
    DistinctKeys(xs, key) && forall i | 0 <= i < |xs| :: key(xs[i]) != ""
  }

  /** A configured head free of duplicates starts the chain as it is. */
  lemma HeadIsKept(lib: UrlLib, head: seq<string>, peers: seq<MeshCache.Peer>)
    requires CleanList(head, FallbackKey(lib)) && peers != []
    ensures head <= Chain(lib, head, |head|, Some(peers))
  {
    var key := FallbackKey(lib);
    hide FallbackKey, FirstUses, DistinctKeys;
    FirstUsesWhole(head, key);
    FirstUsesSplit(head, MeshUrls(peers), key);
    assert head[..|head|] == head && head[|head|..] == [];
    assert head + MeshUrls(peers) + [] == head + MeshUrls(peers);
  }

  /** The comment promises that a default port is collapsed; the code keeps it. Two usable
      texts for one gateway, one of them with its default port written out, have different
      keys, and both stay in the chain. */
  lemma DefaultPortIsKept(lib: UrlLib, r: string, t: string, peers: seq<MeshCache.Peer>)
    requires ParsesBack(lib) && FallbackKey(lib)(r) != "" && FallbackKey(lib)(t) != ""
    requires var u := lib.parse(r).value; lib.parse(t).value == u.(host := u.host + ":443")
    requires peers != []
    ensures FallbackKey(lib)(r) != FallbackKey(lib)(t)
    ensures [r, t] <= Chain(lib, [r, t], 2, Some(peers))
  {
    SameKeyIff(lib, r, t);
    assert CleanList([r, t], FallbackKey(lib)) by {
      hide FallbackKey;
    }
    HeadIsKept(lib, [r, t], peers);
  }

  /** Without known peers the configured list is returned as it is, so the chain is free of
      duplicates and unusable entries exactly when there are peers or that list already is. */
  lemma ChainIsCleanIff(lib: UrlLib, gateways: seq<string>, staticHeadLen: nat, mesh: Option<seq<MeshCache.Peer>>)
    ensures CleanList(Chain(lib, gateways, staticHeadLen, mesh), FallbackKey(lib)) <==>
      (mesh.Some? && mesh.value != []) || CleanList(gateways, FallbackKey(lib))
  {
    if mesh.Some? && mesh.value != [] {
      var n := HeadEnd(gateways, staticHeadLen);
      FirstUsesKeys(gateways[..n] + MeshUrls(mesh.value) + gateways[n..], FallbackKey(lib));
    }
  }

  /** Where it matters: a gateway of FALLBACK_GATEWAYS that is also one of the public defaults
      is asked twice while no peer is known, and once otherwise. */
  lemma ConfiguredDefaultIsAskedTwice(lib: UrlLib, head: seq<string>, defaults: seq<string>, i: nat, j: nat)
    requires i < |head| && j < |defaults| && head[i] == defaults[j] && FallbackKey(lib)(head[i]) != ""
    ensures var chain := Chain(lib, head + defaults, |head|, Some([]));
      chain[i] == chain[|head| + j] == head[i] && !CleanList(chain, FallbackKey(lib))
    ensures forall peers | peers != [] :: CleanList(Chain(lib, head + defaults, |head|, Some(peers)), FallbackKey(lib))
  {
    var key := FallbackKey(lib);
    assert key((head + defaults)[i]) == key((head + defaults)[|head| + j]);
    forall peers | peers != [] ensures CleanList(Chain(lib, head + defaults, |head|, Some(peers)), key) {
      ChainIsCleanIff(lib, head + defaults, |head|, Some(peers));
    }
  }

  /** One gateway's answer: none, or a status and a body. */
  datatype Answer = NoAnswer | Answer(status: int, body: Stream)

  ghost predicate Good(a: Answer, maxPinBytes: nat) {
    a.Answer? && a.status == 200 && a.body.WellFormed() && a.body.Length() <= maxPinBytes && |a.body.sections| > 0
  }

  /** now is was, then anything, then last. */
  ghost predicate EndsWith(was: seq<seq<Block>>, now: seq<seq<Block>>, last: seq<seq<Block>>) {
    exists left :: was <= left && now == left + last
  }

  datatype Outcome = NoGateways | From(i: nat) | AllFailed

  /** fetchViaCAR: walk the chain until an import succeeds. answers[i] is what chain[i] would
      answer; tried is the requests made, as they are made. */
  method FetchViaCAR(chain: seq<string>, answers: seq<Answer>, maxPinBytes: nat, store: BlockStore)
    returns (r: Outcome, tried: seq<string>)
    requires |answers| == |chain|
    requires forall i | 0 <= i < |answers| && answers[i].Answer? :: answers[i].body.Valid()
    modifies store
    ensures r.NoGateways? <==> chain == []
    ensures old(store.batches) <= store.batches
    // In order, stopping at the first success.
    ensures r.From? ==> r.i < |chain| && tried == chain[..r.i + 1] && Good(answers[r.i], maxPinBytes)
    ensures !r.From? ==> tried == chain
    // The successful body is stored whole, after whatever earlier gateways left behind.
    ensures r.From? ==> EndsWith(old(store.batches), store.batches, Chunks(answers[r.i].body.Blocks()))
    // Unless a PutMany failed, the first good gateway wins, and all fail only if none is good.
    ensures !store.failed && r.From? ==> forall j | 0 <= j < r.i :: !Good(answers[j], maxPinBytes)
    ensures !store.failed && r.AllFailed? ==> forall j | 0 <= j < |chain| :: !Good(answers[j], maxPinBytes)
  {
    if |chain| == 0 {
      return NoGateways, [];
    }
    tried := [];
    for i := 0 to |chain|
      invariant tried == chain[..i]
      invariant old(store.batches) <= store.batches
      invariant !store.failed ==> forall j | 0 <= j < i :: !Good(answers[j], maxPinBytes)
    {
      tried := tried + [chain[i]];
      if answers[i].Answer? {
        var result, _, stored, tail := FetchCARFromGateway(answers[i].status, answers[i].body, maxPinBytes, store);
        if result.Imported? {
          assert answers[i].body.Blocks()[..stored] == answers[i].body.Blocks();
          assert EndsWith(old(store.batches), store.batches, Chunks(answers[i].body.Blocks()));
          return From(i), tried;
        }
      }
    }
    return AllFailed, tried;
  }
}

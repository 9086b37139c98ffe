/** The known-peers cache of the pinner mesh (ipfsnode_pubsub.go): heartbeats in, TTL
    eviction out. Times are integers on one clock. */
module MeshCache {
  import opened Basics
  import opened Selection

  type PeerId = string
  type Addr = string

  /** The peer_id field: absent, not decodable, or a peer id. */
  datatype Claim = NoClaim | Undecodable | Claims(id: PeerId)

  /** addrs: the advertised multiaddrs, None where one does not parse. gateway: what
      validateMeshGatewayURL makes of the advertised URL, None when absent or rejected. */
  datatype Heartbeat = Heartbeat(claim: Claim, addrs: seq<Option<Addr>>, gateway: Option<string>)

  datatype Peer = Peer(id: PeerId, addrs: seq<Addr>, gatewayURL: string, lastSeen: int)

  const MAX_MULTIADDRS := 8
  const MAX_PEERS := 1024

  datatype Event = Beat(sender: PeerId, hb: Heartbeat, at: int) | Evict(at: int)

  type Cache = map<PeerId, Peer>

  /** Not our own, and not claiming to be somebody else. */
  predicate Accepted(self: PeerId, sender: PeerId, hb: Heartbeat) {
    sender != self && (hb.claim == NoClaim || hb.claim == Claims(sender))
  }

  function Capped(addrs: seq<Option<Addr>>): seq<Option<Addr>> {
    if |addrs| > MAX_MULTIADDRS then addrs[..MAX_MULTIADDRS] else addrs
  }

  function Parsed(addrs: seq<Option<Addr>>): (r: seq<Addr>)
    ensures |r| <= |addrs|
    ensures forall a | a in r :: Some(a) in addrs
  {
    if addrs == [] then []
    else
      var n := |addrs| - 1;
      Parsed(addrs[..n]) + if addrs[n].Some? then [addrs[n].value] else []
  }

  function Entry(sender: PeerId, hb: Heartbeat, at: int): Peer {
    Peer(sender, Parsed(Capped(hb.addrs)), if hb.gateway.Some? then hb.gateway.value else "", at)
  }

  ghost function Good(addrs: seq<Option<Addr>>): nat -> bool { (i: nat) => i < |addrs| && addrs[i].Some? }

  lemma {:induction false} ParsedSelects(addrs: seq<Option<Addr>>)
    ensures var r := Parsed(addrs);
      Selects(addrs, seq(|r|, i requires 0 <= i < |r| => Some(r[i])), Good(addrs))
  {
    if addrs == [] {
      SelectsNone<Option<Addr>>(Good(addrs));
    } else {
      var n := |addrs| - 1;
      var f := (a: seq<Addr>) => seq(|a|, i requires 0 <= i < |a| => Some(a[i]));
      ParsedSelects(addrs[..n]);
      SelectsSnoc(addrs[..n], f(Parsed(addrs[..n])), Good(addrs[..n]), addrs[n], Good(addrs));
      assert addrs == addrs[..n] + [addrs[n]];
      assert f(Parsed(addrs)) == f(Parsed(addrs[..n])) + if addrs[n].Some? then [addrs[n]] else [];
    }
  }

  /** What a heartbeat leaves in the cache: its sender's id and its own time, the gateway it
      advertised if that was accepted, and of its first eight addresses those that parse. */
  lemma EntryIsTheHeartbeat(sender: PeerId, hb: Heartbeat, at: int)
    ensures var e := Entry(sender, hb, at);
      && e.id == sender && e.lastSeen == at
      && (hb.gateway.Some? ==> e.gatewayURL == hb.gateway.value) && (hb.gateway.None? ==> e.gatewayURL == "")
      && exists first :: |first| == (if |hb.addrs| <= 8 then |hb.addrs| else 8) && first <= hb.addrs
           && Selects(first, seq(|e.addrs|, i requires 0 <= i < |e.addrs| => Some(e.addrs[i])), Good(first))
  {
    ParsedSelects(Capped(hb.addrs));
  }

  predicate Expired(p: Peer, now: int, ttl: int) { p.lastSeen < now - ttl }

  function Step(c: Cache, self: PeerId, ttl: int, e: Event): Cache {
    match e
    case Beat(sender, hb, at) =>
      if !Accepted(self, sender, hb) || (sender !in c && |c| >= MAX_PEERS) then c
      else c[sender := Entry(sender, hb, at)]
    case Evict(now) => map p | p in c && !Expired(c[p], now, ttl) :: c[p]
  }

  /** Who a heartbeat can speak for: its signed sender and nobody else. One that is this node's
      own, or claims another id or an unreadable one, changes nothing; any other one of a known
      peer, or while there is room, becomes the sender's entry and leaves the rest alone. */
  lemma SpeaksForItsSender(c: Cache, self: PeerId, ttl: int, sender: PeerId, hb: Heartbeat, at: int)
    ensures var c' := Step(c, self, ttl, Beat(sender, hb, at));
      && (sender == self || hb.claim.Undecodable? || (hb.claim.Claims? && hb.claim.id != sender) ==> c' == c)
      && (sender != self && (hb.claim.NoClaim? || hb.claim == Claims(sender)) ==>
            if sender in c || |c| < 1024
            then sender in c' && c'[sender] == Entry(sender, hb, at) && c' - {sender} == c - {sender}
            else c' == c)
  {
  }

  function After(c: Cache, self: PeerId, ttl: int, es: seq<Event>): Cache {
    if es == [] then c else Step(After(c, self, ttl, es[..|es| - 1]), self, ttl, es[|es| - 1])
  }

  class MeshManager {
    const self: PeerId
    const ttl: int
    var peers: Cache

    constructor (self: PeerId, ttl: int)
      ensures peers == map[] && this.self == self && this.ttl == ttl
    {
      this.self, this.ttl, this.peers := self, ttl, map[];
    }

    /** applyHeartbeat up to the dial; dial says whether one is started. */
    method ApplyHeartbeat(sender: PeerId, hb: Heartbeat, now: int) returns (dial: bool)
      modifies this
      ensures peers == Step(old(peers), self, ttl, Beat(sender, hb, now))
      ensures dial <==> sender !in old(peers) && sender in peers && peers[sender].addrs != []
    {
      if sender == self {
        return false;
      }
      if hb.claim != NoClaim {
        if hb.claim.Undecodable? || hb.claim.id != sender {
          return false;
        }
      }
      var multiaddrs := hb.addrs;
      if |multiaddrs| > MAX_MULTIADDRS {
        multiaddrs := multiaddrs[..MAX_MULTIADDRS];
      }
      var addrs: seq<Addr> := [];
      for i := 0 to |multiaddrs|
        invariant addrs == Parsed(multiaddrs[..i])
      {
        assert multiaddrs[..i + 1][..i] == multiaddrs[..i];
        if multiaddrs[i].None? {
          continue;
        }
        addrs := addrs + [multiaddrs[i].value];
      }
      assert multiaddrs[..|multiaddrs|] == multiaddrs;
      var gatewayURL := "";
      if hb.gateway.Some? {
        gatewayURL := hb.gateway.value;
      }
      var known := sender in peers;
      if !known && |peers| >= MAX_PEERS {
        return false;
      }
      peers := peers[sender := Peer(sender, addrs, gatewayURL, now)];
      return !known && |addrs| > 0;
    }

    /** evictExpired: delete while ranging over the map. */
    method EvictExpired(now: int)
      modifies this
      ensures peers == Step(old(peers), self, ttl, Evict(now))
    {
      var cutoff := now - ttl;
      var left := peers.Keys;
      while left != {}
        invariant left <= peers.Keys <= old(peers).Keys
        invariant forall p | p in old(peers) ::
          p in peers <==> p in left || !Expired(old(peers)[p], now, ttl)
        invariant forall p | p in peers :: peers[p] == old(peers)[p]
        decreases left
      {
        var p :| p in left;
        if peers[p].lastSeen < cutoff {
          peers := peers - {p};
        }
        left := left - {p};
      }
    }

    /** KnownPeers: every entry exactly once, in map order. */
    method KnownPeers() returns (out: seq<Peer>, ghost order: seq<PeerId>)
      ensures |out| == |peers| && (forall p | p in peers :: peers[p] in out)
      ensures |order| == |out|
      ensures forall i | 0 <= i < |out| :: order[i] in peers && out[i] == peers[order[i]]
      ensures forall i, j | 0 <= i < j < |order| :: order[i] != order[j]
      ensures forall p | p in peers :: p in order
    {
      out, order := [], [];
      var left := peers.Keys;
      while left != {}
        invariant left <= peers.Keys && |out| == |order| && |order| + |left| == |peers.Keys|
        invariant forall i | 0 <= i < |out| :: order[i] in peers && order[i] !in left && out[i] == peers[order[i]]
        invariant forall i, j | 0 <= i < j < |order| :: order[i] != order[j]
        invariant forall p | p in peers :: p in left || (p in order && peers[p] in out)
        decreases left
      {
        var p :| p in left;
        out, order := out + [peers[p]], order + [p];
        left := left - {p};
      }
    }
  }

  // ----- the cache as a function of the whole heartbeat trace -----

  ghost predicate BeatOf(self: PeerId, e: Event, p: PeerId) { e.Beat? && e.sender == p && Accepted(self, p, e.hb) }

  /** The heartbeat at i is the one the cache shows for p: it was let in, p has sent no
      acceptable one since, and no eviction since has found it expired. */
  ghost predicate Shown(self: PeerId, ttl: int, tr: seq<Event>, p: PeerId, i: nat) {
    && i < |tr| && BeatOf(self, tr[i], p)
    && (var before := After(map[], self, ttl, tr[..i]); p in before || |before| < MAX_PEERS)
    && (forall j | i < j < |tr| :: !BeatOf(self, tr[j], p))
    && (forall j | i < j < |tr| && tr[j].Evict? :: tr[i].at >= tr[j].at - ttl)
  }

  lemma ShownSnoc(self: PeerId, ttl: int, tr: seq<Event>, e: Event, p: PeerId, i: nat)
    requires i < |tr|
    ensures Shown(self, ttl, tr + [e], p, i) <==>
      Shown(self, ttl, tr, p, i) && !BeatOf(self, e, p) && (e.Evict? ==> tr[i].at >= e.at - ttl)
  {
    var tr' := tr + [e];
    assert tr'[..i] == tr[..i] && tr'[i] == tr[i] && tr'[|tr|] == e;
    assert forall j | i < j < |tr| :: tr'[j] == tr[j];
  }

  lemma ShownLast(self: PeerId, ttl: int, tr: seq<Event>, e: Event, p: PeerId)
    ensures var c := After(map[], self, ttl, tr);
      Shown(self, ttl, tr + [e], p, |tr|) <==> BeatOf(self, e, p) && (p in c || |c| < MAX_PEERS)
  {
    assert (tr + [e])[..|tr|] == tr;
  }

  ghost predicate SomeShown(self: PeerId, ttl: int, tr: seq<Event>, p: PeerId) {
    exists i: nat :: Shown(self, ttl, tr, p, i)
  }

  /** The cache and the shown heartbeats agree about p. */
  ghost predicate Agrees(self: PeerId, ttl: int, tr: seq<Event>, p: PeerId) {
    var c := After(map[], self, ttl, tr);
    && (p in c <==> SomeShown(self, ttl, tr, p))
    && forall i: nat | Shown(self, ttl, tr, p, i) :: p in c && c[p] == Entry(p, tr[i].hb, tr[i].at)
  }

  lemma AfterSnoc(c: Cache, self: PeerId, ttl: int, es: seq<Event>, e: Event)
    ensures After(c, self, ttl, es + [e]) == Step(After(c, self, ttl, es), self, ttl, e)
  {
    assert (es + [e])[..|es|] == es;
  }

  lemma AgreesAfterBeat(self: PeerId, ttl: int, tr: seq<Event>, e: Event, p: PeerId)
    requires Agrees(self, ttl, tr, p) && BeatOf(self, e, p)
    ensures Agrees(self, ttl, tr + [e], p)
  {
    AfterSnoc(map[], self, ttl, tr, e);
    ShownLast(self, ttl, tr, e, p);
    forall i: nat | i < |tr| ensures !Shown(self, ttl, tr + [e], p, i) {
      ShownSnoc(self, ttl, tr, e, p, i);
    }
  }

  lemma AgreesAfterOther(self: PeerId, ttl: int, tr: seq<Event>, e: Event, p: PeerId)
    requires Agrees(self, ttl, tr, p) && !BeatOf(self, e, p)
    ensures Agrees(self, ttl, tr + [e], p)
  {
    AfterSnoc(map[], self, ttl, tr, e);
    ShownLast(self, ttl, tr, e, p);
    var c' := After(map[], self, ttl, tr + [e]);
    forall i: nat | Shown(self, ttl, tr + [e], p, i)
      ensures p in c' && c'[p] == Entry(p, (tr + [e])[i].hb, (tr + [e])[i].at)
    {
      ShownSnoc(self, ttl, tr, e, p, i);
    }
    if p in c' {
      var i: nat :| Shown(self, ttl, tr, p, i);
      ShownSnoc(self, ttl, tr, e, p, i);
    }
  }

  /** The cache refines the trace: p is cached exactly when some heartbeat of p is the one
      shown, and then its entry is that heartbeat, under p's own id. */
  lemma {:induction false} CacheShowsLastHeartbeat(self: PeerId, ttl: int, tr: seq<Event>, p: PeerId)
    ensures Agrees(self, ttl, tr, p)
  {
    if tr != [] {
      var n := |tr| - 1;
      var before, e := tr[..n], tr[n];
      assert tr == before + [e];
      CacheShowsLastHeartbeat(self, ttl, before, p);
      if BeatOf(self, e, p) {
        AgreesAfterBeat(self, ttl, before, e, p);
      } else {
        AgreesAfterOther(self, ttl, before, e, p);
      }
    }
  }

  /** Bounds, for every trace: at most 1024 entries, at most 8 addresses each, each entry under
      the id it carries, and never an entry for this node itself. */
  lemma {:induction false} CacheIsBounded(self: PeerId, ttl: int, tr: seq<Event>)
    ensures var c := After(map[], self, ttl, tr);
      && |c| <= 1024
      && forall p | p in c :: c[p].id == p != self && |c[p].addrs| <= 8
  {
    if tr != [] {
      var c := After(map[], self, ttl, tr[..|tr| - 1]);
      var e := tr[|tr| - 1];
      CacheIsBounded(self, ttl, tr[..|tr| - 1]);
      match e
      case Beat(sender, hb, at) =>
        assert c[sender := Entry(sender, hb, at)].Keys == c.Keys + {sender};
      case Evict(now) =>
        Subset(Step(c, self, ttl, e).Keys, c.Keys);
    }
  }

  lemma {:induction false} Subset(a: set<PeerId>, b: set<PeerId>)
    requires a <= b
    ensures |a| <= |b|
    decreases a
  {
    if p :| p in a {
      Subset(a - {p}, b - {p});
    }
  }

  /** When p last sent an acceptable heartbeat: within es, or `last` if not in es. */
  ghost function LastSeen(self: PeerId, es: seq<Event>, p: PeerId, last: int): int {
    if es == [] then last
    else
      var e := es[|es| - 1];
      if BeatOf(self, e, p) then e.at else LastSeen(self, es[..|es| - 1], p, last)
  }

  /** At each eviction in es, p's last heartbeat is at most ttl old. */
  ghost predicate KeepsUp(self: PeerId, ttl: int, es: seq<Event>, p: PeerId, last: int) {
    forall k | 0 <= k < |es| && es[k].Evict? :: LastSeen(self, es[..k], p, last) >= es[k].at - ttl
  }

  lemma KeepsUpSnoc(self: PeerId, ttl: int, es: seq<Event>, e: Event, p: PeerId, last: int)
    ensures KeepsUp(self, ttl, es + [e], p, last) <==>
      KeepsUp(self, ttl, es, p, last) && (e.Evict? ==> LastSeen(self, es, p, last) >= e.at - ttl)
    ensures LastSeen(self, es + [e], p, last) == if BeatOf(self, e, p) then e.at else LastSeen(self, es, p, last)
  {
    var es' := es + [e];
    assert es'[..|es|] == es && es'[|es|] == e;
    forall k | 0 <= k < |es| ensures es'[..k] == es[..k] && es'[k] == es[k] {
    }
  }

  /** p is in the cache after every prefix of es. */
  ghost predicate Stays(c: Cache, self: PeerId, ttl: int, es: seq<Event>, p: PeerId) {
    forall k | 0 <= k <= |es| :: p in After(c, self, ttl, es[..k])
  }

  lemma StaysSnoc(c: Cache, self: PeerId, ttl: int, es: seq<Event>, e: Event, p: PeerId)
    ensures Stays(c, self, ttl, es + [e], p) <==>
      Stays(c, self, ttl, es, p) && p in Step(After(c, self, ttl, es), self, ttl, e)
    ensures Stays(c, self, ttl, es, p) ==> p in After(c, self, ttl, es)
  {
    hide Step, After;
    var es' := es + [e];
    AfterSnoc(c, self, ttl, es, e);
    assert es[..|es|] == es && es'[..|es'|] == es';
    forall k | 0 <= k <= |es| ensures After(c, self, ttl, es'[..k]) == After(c, self, ttl, es[..k]) {
      assert es'[..k] == es[..k];
    }
  }

  /** A known peer is never lost as long as it keeps up, full cache or not; and one that does
      not keep up is lost at some point. */
  lemma {:induction false} KnownPeerStays(c: Cache, self: PeerId, ttl: int, es: seq<Event>, p: PeerId)
    requires p in c
    ensures Stays(c, self, ttl, es, p) <==> KeepsUp(self, ttl, es, p, c[p].lastSeen)
    ensures Stays(c, self, ttl, es, p) ==>
      p in After(c, self, ttl, es) && After(c, self, ttl, es)[p].lastSeen == LastSeen(self, es, p, c[p].lastSeen)
  {
    if es != [] {
      var n := |es| - 1;
      var before, e := es[..n], es[n];
      assert es == before + [e];
      KnownPeerStays(c, self, ttl, before, p);
      KeepsUpSnoc(self, ttl, before, e, p, c[p].lastSeen);
      StaysSnoc(c, self, ttl, before, e, p);
    }
  }

  /** When entries were last looked at: the stamp of the last eviction in tr, or the start. */
  function LastTick(tr: seq<Event>, start: int): int {
    if tr == [] then start
    else if tr[|tr| - 1].Evict? then tr[|tr| - 1].at
    else LastTick(tr[..|tr| - 1], start)
  }

  /** A heartbeat is stamped when it is handled, so not before a tick handled earlier. A tick
      carries the time it was due, which may be before a heartbeat handled earlier. */
  ghost predicate Stamped(tr: seq<Event>, start: int) {
    forall k | 0 <= k < |tr| && tr[k].Beat? :: tr[k].at >= LastTick(tr[..k], start)
  }

  /** No entry is older than the TTL when last looked at. */
  lemma {:induction false} FreshAtLastTick(self: PeerId, ttl: nat, tr: seq<Event>, start: int, p: PeerId)
    requires Stamped(tr, start) && p in After(map[], self, ttl, tr)
    ensures After(map[], self, ttl, tr)[p].lastSeen >= LastTick(tr, start) - ttl
  {
    if tr != [] {
      var n := |tr| - 1;
      var before := tr[..n];
      forall k | 0 <= k < n && before[k].Beat? ensures before[k].at >= LastTick(before[..k], start) {
        assert before[..k] == tr[..k];
      }
      if p in After(map[], self, ttl, before) {
        FreshAtLastTick(self, ttl, before, start, p);
      }
    }
  }

  /** Ticks are at most `tick` apart. One may still be handled late, after a heartbeat that
      was stamped after it was due. */
  ghost predicate OnTime(tr: seq<Event>, start: int, tick: int) {
    forall k | 0 <= k < |tr| && tr[k].Evict? :: tr[k].at <= LastTick(tr[..k], start) + tick
  }

  /** The k-th event falls within a period of the last tick handled before it. */
  ghost predicate InPeriod(tr: seq<Event>, start: int, tick: int, k: nat) {
    k < |tr| && tr[k].at <= LastTick(tr[..k], start) + tick
  }

  /** Staleness bound over the whole run of a node with evictLoop's own period: at every tick,
      at every other event within a period of the last tick, and at such a moment after the
      last event, no entry is older than the TTL plus the period. */
  lemma NoEntryOlderThan(self: PeerId, ttl: nat, interval: int, tr: seq<Event>, start: int, now: int, p: PeerId)
    requires Stamped(tr, start) && OnTime(tr, start, EvictTick(interval))
    ensures forall k | 0 <= k < |tr| && (tr[k].Evict? || InPeriod(tr, start, EvictTick(interval), k)) ::
      var c := After(map[], self, ttl, tr[..k]); p in c ==> tr[k].at - c[p].lastSeen <= ttl + EvictTick(interval)
    ensures now <= LastTick(tr, start) + EvictTick(interval) ==>
      var c := After(map[], self, ttl, tr); p in c ==> now - c[p].lastSeen <= ttl + EvictTick(interval)
  {
    hide After, EvictTick;
    if p in After(map[], self, ttl, tr) {
      FreshAtLastTick(self, ttl, tr, start, p);
    }
    forall k | 0 <= k < |tr| && (tr[k].Evict? || InPeriod(tr, start, EvictTick(interval), k))
      ensures var c := After(map[], self, ttl, tr[..k]); p in c ==> tr[k].at - c[p].lastSeen <= ttl + EvictTick(interval)
    {
      forall j | 0 <= j < k && tr[..k][j].Beat? ensures tr[..k][j].at >= LastTick(tr[..k][..j], start) {
        assert tr[..k][..j] == tr[..j];
      }
      if p in After(map[], self, ttl, tr[..k]) {
        FreshAtLastTick(self, ttl, tr[..k], start, p);
      }
    }
  }

  /** evictLoop's period: half the heartbeat interval (Go division truncates toward zero),
      or fifteen seconds if that is not positive. */
  function EvictTick(interval: int): (tick: int)
    ensures tick > 0
    ensures interval >= 2 ==> 2 * tick <= interval < 2 * tick + 2
    ensures interval < 2 ==> tick == 15_000_000_000
  {
    var half := if interval >= 0 then interval / 2 else -((-interval) / 2);
    if half <= 0 then 15 * SECOND else half
  }
}

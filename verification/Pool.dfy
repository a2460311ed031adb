/** The server pool of `serverpool.go`, and the choice of a peer in `main.go`. */
module Pool {
  import opened GoInts
  import opened Options
  import opened Rotation
  import opened Breaker
  import opened Backends
  import opened PoolIndex
  import PeerTurns
  import Policies
  import Redis
  import SharedStore

  /** What Consul reports of a service, with its URL already formed. */
  datatype Service = Service(url: string, weight: int, region: string)

  /** A backend as the rebuild makes it. */
  ghost predicate BuiltFrom(b: Backend, service: Service)
    reads b, b.breaker
  {
    && b.alive && b.url == service.url && b.weight == service.weight && b.region == service.region
    && b.breaker != null && b.breaker.config == BACKEND_CONFIG && b.breaker.View() == NEW_CORE
  }

  function AsPeer(b: Backend): SharedStore.Peer
    reads b
  {
    SharedStore.Peer(b.url, b.alive)
  }

  /** The pool as a lookup sees it. */
  ghost function Peers(bs: seq<Backend>): (r: seq<SharedStore.Peer>)
    reads bs
    ensures |r| == |bs| && forall i :: 0 <= i < |bs| ==> r[i] == AsPeer(bs[i])
  {
    if bs == [] then [] else [AsPeer(bs[0])] + Peers(bs[1..])
  }

  function URLOf(b: Backend?): Option<string> {
    if b == null then None else Some(b.url)
  }

  function OrNull(b: Option<Backend>): Backend? {
    match b
    case None => null
    case Some(x) => x
  }

  ghost function BreakersIn(bs: seq<Backend>): set<CircuitBreaker> {
    set b | b in bs && b.breaker != null :: b.breaker
  }

  /** The readings of the clock while candidates are scored, two for each of them: no reading is before the last. */
  datatype Clock = Clock(first: int, gaps: seq<nat>)
  {
    function Reading(i: nat): int {
      if i == 0 then first else Reading(i - 1) + if i <= |gaps| then gaps[i - 1] else 0
    }
  }

  lemma {:induction false} ReadingsInOrder(clock: Clock, i: nat, j: nat)
    requires i <= j
    ensures clock.Reading(i) <= clock.Reading(j)
    decreases j
  {
    if i < j {
      ReadingsInOrder(clock, i, j - 1);
    }
  }

  /** Every candidate's score at the moment it is looked at. */
  ghost function Scores(bs: seq<Backend>, clock: Clock): (r: seq<Score>)
    reads (set b | b in bs), BreakersIn(bs)
    ensures |r| == |bs| && forall i :: 0 <= i < |bs| ==> r[i] == bs[i].ScoreAt(clock.Reading(2 * i))
  {
    if bs == [] then []
    else
      var n := |bs| - 1;
      Scores(bs[..n], clock) + [bs[n].ScoreAt(clock.Reading(2 * n))]
  }

  /** A lookup `l` answered with `peer`, as `SharedStore` says it should be on that store; the pool remembers the
      backend for the session exactly if it was newly selected. */
  ghost predicate Answered(l: SharedStore.Lookup, data: Redis.Data, prefix: string, peer: Backend?,
                           memory: map<string, Backend>, memory': map<string, Backend>) {
    && URLOf(peer) == SharedStore.Target(data, prefix, l)
    && memory' ==
         if peer != null && SharedStore.Selects(data, prefix, l) then memory[l.session := peer] else memory
  }

  /** The store after it was told of a backend, if there is one to tell of. */
  ghost function Told(l: SharedStore.Lookup, data: Redis.Data, prefix: string, peer: Backend?): Redis.Data {
    if peer == null then data else Redis.Stored(data, prefix, l.session, peer.url, l.region, l.now)
  }

  lemma {:induction false} AnsweredFromStore(l: SharedStore.Lookup, data: Redis.Data, prefix: string, peer: Backend,
                                             memory: map<string, Backend>)
    requires SharedStore.Recalls(data, prefix, l)
    requires Redis.SessionURL(data, prefix, l.session) == Some(peer.url)
    ensures Answered(l, data, prefix, peer, memory, memory)
    ensures SharedStore.Routed(data, prefix, l) == Redis.Accessed(data, prefix, l.session, l.now)
  {
  }

  lemma {:induction false} AnsweredOtherwise(l: SharedStore.Lookup, data: Redis.Data, prefix: string, peer: Backend?,
                                             memory: map<string, Backend>, memory': map<string, Backend>)
    requires !SharedStore.Recalls(data, prefix, l) && Answered(l, map[], "", peer, memory, memory')
    ensures Answered(l, data, prefix, peer, memory, memory')
    ensures SharedStore.Selects(data, prefix, l) == SharedStore.Selects(map[], "", l)
    ensures SharedStore.Routed(data, prefix, l) ==
        Told(l, Redis.Accessed(data, prefix, l.session, l.now), prefix, peer)
  {
  }

  /** The candidate that leads after the first `n` scores. */
  function Leader(scores: seq<Score>, n: nat): (r: Option<nat>)
    requires n <= |scores|
    ensures r.Some? ==> r.value < n
  {
    if n == 0 then None
    else
      var l := Leader(scores, n - 1);
      if scores[n - 1].Below(if l == None then Top else scores[l.value]) then Some(n - 1) else l
  }

  /** It is the first one of minimal score, and there is none exactly when every score is the top one. */
  lemma {:induction false} LeaderIsFirstBest(scores: seq<Score>, n: nat)
    requires n <= |scores|
    ensures Leader(scores, n) == None <==> forall i :: 0 <= i < n ==> scores[i].Top?
    ensures var l := Leader(scores, n);
      l.Some? ==>
        && scores[l.value].Finite?
        && (forall i :: 0 <= i < n ==> !scores[i].Below(scores[l.value]))
        && (forall i :: 0 <= i < l.value ==> scores[l.value].Below(scores[i]))
  {
    if n != 0 {
      LeaderIsFirstBest(scores, n - 1);
    }
  }

  /** The leading candidate of a full scan. */
  ghost function Led(candidates: seq<Backend>, scores: seq<Score>): Backend?
    requires |candidates| == |scores|
  {
    match Leader(scores, |scores|)
    case None => null
    case Some(k) => candidates[k]
  }

  ghost predicate FirstMinimal(candidates: seq<Backend>, scores: seq<Score>, best: Backend, k: nat) {
    && k < |candidates| == |scores| && candidates[k] == best
    && (forall i :: 0 <= i < |scores| ==> !scores[i].Below(scores[k]))
    && (forall i :: 0 <= i < k ==> scores[k].Below(scores[i]))
  }

  /** With the breakers as a look would find them, nobody is chosen exactly when every candidate's breaker is open;
      otherwise it is the first candidate that no other scores below. */
  lemma {:induction false} RegionalChoice(candidates: seq<Backend>, clock: Clock)
    ensures var scores := Scores(candidates, clock);
      var best := Led(candidates, scores);
      && (best == null <==> forall i :: 0 <= i < |candidates| ==> candidates[i].StateAt(clock.Reading(2 * i)) == Open)
      && (best != null ==> exists k :: FirstMinimal(candidates, scores, best, k))
  {
    var scores := Scores(candidates, clock);
    LeaderIsFirstBest(scores, |scores|);
    assert forall i :: 0 <= i < |candidates| ==> scores[i] == candidates[i].ScoreAt(clock.Reading(2 * i));
    if Led(candidates, scores) != null {
      var k := Leader(scores, |scores|).value;
      assert FirstMinimal(candidates, scores, candidates[k], k);
    }
  }

  /** The engine's table: of several backends with one URL, the last. */
  function MapOf(bs: seq<Backend>): map<string, Backend> {
    if bs == [] then map[] else MapOf(bs[..|bs| - 1])[bs[|bs| - 1].url := bs[|bs| - 1]]
  }

  ghost predicate NoneBehind(bs: seq<Backend>, i: nat, url: string) {
    forall j :: i < j < |bs| ==> bs[j].url != url
  }

  /** Every URL of the pool, for the last backend that has it. */
  lemma {:induction false} MapExact(bs: seq<Backend>, url: string)
    ensures url in MapOf(bs) <==> exists b :: b in bs && b.url == url
    ensures url in MapOf(bs) ==> MapOf(bs)[url] in bs && MapOf(bs)[url].url == url
    ensures forall i :: 0 <= i < |bs| && bs[i].url == url && NoneBehind(bs, i, url) ==>
        url in MapOf(bs) && MapOf(bs)[url] == bs[i]
  {
    if bs != [] {
      var n := |bs| - 1;
      var init, last := bs[..n], bs[n];
      assert bs == init + [last];
      MapExact(init, url);
      forall i | 0 <= i < n && bs[i].url == url && NoneBehind(bs, i, url)
        ensures url in MapOf(bs) && MapOf(bs)[url] == bs[i]
      {
        assert bs[n].url != url;
        assert NoneBehind(init, i, url);
      }
    }
  }

  lemma {:induction false} MapDistinct(bs: seq<Backend>)
    ensures Policies.Distinct(MapOf(bs))
  {
    forall url | url in MapOf(bs) ensures MapOf(bs)[url].url == url {
      MapExact(bs, url);
    }
  }

  /** The additions that enabling a list of policies amounts to. */
  function Additions(policies: seq<Policies.Policy>, now: int): (ops: seq<Policies.Op>)
    ensures |ops| == |policies| && forall i :: 0 <= i < |ops| ==> ops[i] == Policies.Add(policies[i], now)
  {
    seq(|policies|, i requires 0 <= i < |policies| => Policies.Add(policies[i], now))
  }

  /** A ticket whose slot, as the code computes it, is a place in the list. */
  ghost predicate CanStart(ring: seq<Backend>, ticket: uint64) {
    ring == [] || 0 <= StartSlot(ticket, |ring|)
  }

  /** Whom a ticket is for. */
  ghost function HolderOf(ring: seq<Backend>, alive: set<Backend>, ticket: uint64): Backend? {
    if ring == [] || !CanStart(ring, ticket) then null
    else
      StartSlotExact(ticket, |ring|);
      OrNull(ServeFrom(ring, alive, StartSlot(ticket, |ring|)))
  }

  /** Whatever the ticket, nobody is found exactly when no living backend has a positive weight. */
  lemma {:induction false} HolderExact(bs: seq<Backend>, alive: set<Backend>, ticket: uint64)
    requires CanStart(Expanded(bs), ticket)
    ensures HolderOf(Expanded(bs), alive, ticket) == null <==> Weightless(bs, alive)
    ensures ticket < TWO_63 ==> HolderOf(Expanded(bs), alive, ticket) == OrNull(Serve(Expanded(bs), alive, ticket))
  {
    var ring := Expanded(bs);
    if ring == [] {
      NothingExpanded(bs, alive);
    } else {
      StartSlotExact(ticket, |ring|);
      UnservedFrom(bs, alive, StartSlot(ticket, |ring|));
    }
  }

  /** A ticket with which the code fails finds nobody either. */
  lemma {:induction false} HolderNever(bs: seq<Backend>, alive: set<Backend>, ticket: uint64)
    requires Weightless(bs, alive)
    ensures HolderOf(Expanded(bs), alive, ticket) == null
  {
    if CanStart(Expanded(bs), ticket) {
      HolderExact(bs, alive, ticket);
    }
  }

  /** With non-negative weights, exactly when the total weight is zero. */
  lemma {:induction false} HolderByTotalWeight(bs: seq<Backend>, alive: set<Backend>, ticket: uint64)
    requires CanStart(Expanded(bs), ticket)
    ensures NonNegative(bs) ==> (HolderOf(Expanded(bs), alive, ticket) == null <==> TotalWeight(bs, alive) == 0)
  {
    HolderExact(bs, alive, ticket);
    if NonNegative(bs) {
      TotalWeightZero(bs, alive);
    }
  }

  /** Whom the `n` tickets from `t` on are for. */
  ghost function Holders(ring: seq<Backend>, alive: set<Backend>, t: nat, n: nat): seq<Backend?>
    requires t + n <= TWO_63
  {
    if n == 0 then [] else Holders(ring, alive, t, n - 1) + [HolderOf(ring, alive, t + n - 1)]
  }

  lemma {:induction false} HeldAt(ring: seq<Backend>, alive: set<Backend>, t: nat, n: nat, k: nat)
    requires t + n <= TWO_63 && k < n
    ensures |Holders(ring, alive, t, n)| == n
    ensures Holders(ring, alive, t, n)[k] == HolderOf(ring, alive, t + k)
    decreases n
  {
    if k != n - 1 {
      HeldAt(ring, alive, t, n - 1, k);
    } else if n != 1 {
      HeldAt(ring, alive, t, n - 1, 0);
    }
  }

  lemma {:induction false} SameCounts(holders: seq<Backend?>, servers: seq<Option<Backend>>, b: Backend)
    requires |holders| == |servers| && forall k :: 0 <= k < |holders| ==> holders[k] == OrNull(servers[k])
    ensures multiset(holders)[b] == multiset(servers)[Some(b)] && multiset(holders)[null] == multiset(servers)[None]
  {
    if holders != [] {
      var n := |holders| - 1;
      SameCounts(holders[..n], servers[..n], b);
      CountAppended(holders[..n], holders[n], b);
      CountAppended(holders[..n], holders[n], null);
      CountAppended(servers[..n], servers[n], Some(b));
      CountAppended(servers[..n], servers[n], None);
      assert holders == holders[..n] + [holders[n]] && servers == servers[..n] + [servers[n]];
    }
  }

  /** Any full turn of tickets that the code can count: a living backend gets at least its weight, exactly its weight
      when all are alive, a dead one gets nothing, and unless nobody can be served every ticket is. */
  lemma {:induction false} WeightedTurn(bs: seq<Backend>, alive: set<Backend>, t: nat, b: Backend)
    requires t + |Expanded(bs)| <= TWO_63 && b in bs && 0 <= b.weight
    requires forall i, j :: 0 <= i < j < |bs| ==> bs[i] != bs[j]
    ensures var held := multiset(Holders(Expanded(bs), alive, t, |Expanded(bs)|));
      && (b in alive ==> b.weight <= held[b])
      && ((forall x :: x in bs ==> x in alive) ==> held[b] == b.weight)
      && (b !in alive ==> held[b] == 0)
      && (!Weightless(bs, alive) ==> held[null] == 0)
  {
    WeightedShare(bs, alive, t, b);
    var ring := Expanded(bs);
    var holders, servers := Holders(ring, alive, t, |ring|), Served(ring, alive, t, |ring|);
    forall k | 0 <= k < |ring| ensures |holders| == |servers| && holders[k] == OrNull(servers[k]) {
      HeldAt(ring, alive, t, |ring|, k);
      ServedAt(ring, alive, t, |ring|, k);
      StartSlotExact(t + k, |ring|);
      HolderExact(bs, alive, t + k);
    }
    SameCounts(holders, servers, b);
  }

  /** A denied request gets a peer all the same. */
  lemma {:induction false} DenialIsServed(b: Backend, r: Policies.Request)
    requires r.matches(Policies.Header, Policies.DENY_MATCHING.rules[0]) && 0 < b.weight
    ensures Policies.Ruling([Policies.DENY_MATCHING], r, MapOf([b])) == Policies.Denied("deny")
    ensures HolderOf(Expanded([b]), {b}, 0) == b
  {
    var ring := Expanded([b]);
    ExpandedMembers([b], b);
    HolderExact([b], {b}, 0);
    StartSlotExact(0, |ring|);
    forall x | x in ring ensures x == b {
      ExpandedMembers([b], x);
    }
    UnservedExact([b], {b}, 0);
    assert b in [b];
  }

  ghost predicate Leads(candidates: seq<Backend>, scores: seq<Score>, n: nat, best: Backend?, bestScore: Score) {
    && n <= |scores| == |candidates|
    && match Leader(scores, n)
       case None => best == null && bestScore == Top
       case Some(k) => best == candidates[k] && bestScore == scores[k]
  }

  lemma {:induction false} LeadsOn(
      candidates: seq<Backend>, scores: seq<Score>, n: nat, best: Backend?, bestScore: Score)
    requires n < |scores| && Leads(candidates, scores, n, best, bestScore)
    ensures if scores[n].Below(bestScore)
      then Leads(candidates, scores, n + 1, candidates[n], scores[n])
      else Leads(candidates, scores, n + 1, best, bestScore)
  {
  }

  class ServerPool {
    var backends: seq<Backend>
    var weighted: seq<Backend>
    var regions: map<string, seq<Backend>>
    var current: uint64
    var stickySessions: map<string, Backend>
    var sessionManager: Redis.StickySessionManager?
    var trafficPolicyEngine: Policies.TrafficPolicyEngine?<Backend>

    ghost predicate Valid()
      reads this
    {
      weighted == Expanded(backends) && Indexes(regions, backends)
    }

    ghost function Alive(): set<Backend>
      reads this`backends, backends
    {
      set b | b in backends && b.alive
    }

    ghost function Breakers(): set<CircuitBreaker>
      reads this`backends
    {
      BreakersIn(backends)
    }

    constructor ()
      ensures Valid() && backends == [] && current == 0 && stickySessions == map[]
      ensures sessionManager == null && trafficPolicyEngine == null
    {
      backends, weighted, regions, current, stickySessions := [], [], map[], 0, map[];
      sessionManager, trafficPolicyEngine := null, null;
    }

    /** Appends a backend to the list, and as often as its weight says to the weighted list. */
    method Enlist(backend: Backend)
      requires weighted == Expanded(backends)
      modifies this`backends, this`weighted
      ensures weighted == Expanded(backends) && backends == old(backends) + [backend]
    {
      Appended(backends, backend);
      backends := backends + [backend];
      var i := 0;
      while i < backend.weight
        invariant 0 <= i <= if 0 < backend.weight then backend.weight else 0
        invariant weighted == old(weighted) + Repeated(backend, i)
        invariant backends == old(backends) + [backend]
      {
        weighted := weighted + [backend];
        i := i + 1;
      }
      assert Repeated(backend, i) == Repeated(backend, backend.weight);
    }

    method AddBackend(backend: Backend)
      requires Valid()
      modifies this`backends, this`weighted, this`regions
      ensures Valid() && backends == old(backends) + [backend]
      ensures Listed(regions, "") == old(Listed(regions, ""))
    {
      FiledIndexes(regions, backends, backend);
      Enlist(backend);
      if backend.region != "" {
        regions := Filed(regions, backend);
      }
    }

    /** `UpdateBackendsFromConsul`: everything is built anew; remembered sessions are kept. */
    method Rebuild(services: seq<Service>)
      modifies this`backends, this`weighted, this`regions
      ensures Valid() && |backends| == |services|
      ensures Listed(regions, "") == InRegion(backends, "")
      ensures forall k :: 0 <= k < |services| ==> fresh(backends[k]) && BuiltFrom(backends[k], services[k])
      ensures forall k :: 0 <= k < |services| ==>
          && backends[k].url == services[k].url && backends[k].weight == services[k].weight
          && backends[k].region == services[k].region && backends[k].alive
      ensures forall j, k :: 0 <= j < k < |backends| ==> backends[j] != backends[k]
    {
      backends, weighted, regions := [], [], map[];
      var n := 0;
      while n < |services|
        invariant 0 <= n == |backends| <= |services|
        invariant Valid() && Listed(regions, "") == InRegion(backends, "")
        invariant forall k :: 0 <= k < n ==> fresh(backends[k]) && BuiltFrom(backends[k], services[k])
        invariant forall j, k :: 0 <= j < k < n ==> backends[j] != backends[k]
      {
        Discover(services[n]);
        n := n + 1;
      }
    }

    /** One turn of the rebuild: here the empty region is indexed too. */
    method Discover(service: Service)
      requires Valid() && Listed(regions, "") == InRegion(backends, "")
      modifies this`backends, this`weighted, this`regions
      ensures Listed(regions, "") == InRegion(backends, "")
      ensures Valid() && |backends| == |old(backends)| + 1 && backends[..|old(backends)|] == old(backends)
      ensures var b := backends[|old(backends)|]; fresh(b) && BuiltFrom(b, service) && fresh(b.breaker)
    {
      var breaker := new CircuitBreaker(BACKEND_CONFIG);
      var backend := new Backend(service.url, service.weight, service.region, breaker);
      FiledIndexes(regions, backends, backend);
      Enlist(backend);
      regions := Filed(regions, backend);
    }

    /** Whom the next ticket is for. */
    ghost function Weighted(): Backend?
      reads this`weighted, this`backends, this`current, backends
    {
      HolderOf(weighted, Alive(), current)
    }

    method GetNextPeerWeighted() returns (peer: Backend?)
      requires Valid() && CanStart(weighted, current)
      modifies this`current
      ensures peer == old(Weighted())
      ensures current == if weighted == [] then old(current) else Inc64(old(current))
      ensures old(current) < TWO_63 ==> peer == OrNull(Serve(weighted, Alive(), old(current)))
      ensures peer == null <==> Weightless(backends, Alive())
      ensures NonNegative(backends) ==> (peer == null <==> TotalWeight(backends, Alive()) == 0)
      ensures peer != null ==> peer in backends && peer.alive
    {
      HolderExact(backends, Alive(), current);
      HolderByTotalWeight(backends, Alive(), current);
      if weighted == [] {
        return null;
      }
      var length := |weighted|;
      var ticket := current;
      current := Inc64(current);
      var start := Rem(ToInt64(ticket), length);
      StartSlotExact(ticket, length);
      peer := ServeSlot(start);
    }

    /** The first living slot at or after `start`. */
    method ServeSlot(start: nat) returns (peer: Backend?)
      requires Valid() && start < |weighted|
      ensures peer == OrNull(ServeFrom(weighted, Alive(), start))
      ensures peer != null ==> peer in backends && peer.alive
    {
      forall b | b in weighted ensures b in backends {
        ExpandedMembers(backends, b);
      }
      var found := FirstAlive(weighted, start, Alive());
      peer := if found.Some? then weighted[found.value] else null;
    }

    /** The loop over the slots, all the way round from `start`. */
    method FirstAlive(bs: seq<Backend>, start: nat, ghost alive: set<Backend>) returns (found: Option<nat>)
      requires start < |bs| && forall b :: b in bs ==> (b.alive <==> b in alive)
      ensures found == NextUp(Flags(bs, alive), start)
    {
      ghost var up := Flags(bs, alive);
      for i := 0 to |bs|
        invariant Steps(up, start, 0) == Steps(up, start, i)
      {
        SlotIsRemainder(|bs|, start, i);
        var idx := (start + i) % |bs|;
        if bs[idx].alive {
          return Some(idx);
        }
      }
      return None;
    }

    method NextIndex() returns (next: nat)
      modifies this`current
      ensures backends == [] ==> next == 0 && current == old(current)
      ensures backends != [] ==> current == Inc64(old(current)) && next == current % |backends|
    {
      if |backends| == 0 {
        return 0;
      }
      current := Inc64(current);
      next := current % |backends|;
    }

    /** Leaves the counter at the slot it found, or one further if that was the first it looked at. */
    method GetNextPeer() returns (peer: Backend?)
      requires |backends| < TWO_63
      modifies this`current
      ensures backends == [] ==> peer == null && current == old(current)
      ensures backends != [] ==>
          var next := Inc64(old(current)) % |backends|;
          match NextUp(Flags(backends, Alive()), next)
          case None => peer == null && current == Inc64(old(current))
          case Some(i) => peer == backends[i] && current == if i == next then Inc64(old(current)) else i
      ensures var up := Flags(backends, Alive());
        AnyUp(up) ==>
          peer == backends[PeerTurns.FoundBy(up, old(current))] && current == PeerTurns.Left(up, old(current))
    {
      var next := NextIndex();
      if |backends| == 0 {
        return null;
      }
      var found := FirstAlive(backends, next, Alive());
      NoneExact(Flags(backends, Alive()), next);
      if found == None {
        return null;
      }
      if found.value != next {
        current := found.value;
      }
      peer := backends[found.value];
    }

    method GetTotalWeight() returns (total: int)
      ensures total == TotalWeight(backends, Alive())
    {
      total := 0;
      for i := 0 to |backends|
        invariant total == TotalWeight(backends[..i], Alive())
      {
        assert backends[..i + 1][..i] == backends[..i];
        if backends[i].alive {
          total := total + backends[i].weight;
        }
      }
      assert backends[..|backends|] == backends;
    }

    method KeepLive(bs: seq<Backend>, ghost alive: set<Backend>) returns (list: seq<Backend>)
      requires forall b :: b in bs ==> (b.alive <==> b in alive)
      ensures list == Live(bs, alive)
    {
      list := [];
      for i := 0 to |bs|
        invariant list == Live(bs[..i], alive)
      {
        assert bs[..i + 1] == bs[..i] + [bs[i]];
        LiveAppended(bs[..i], bs[i], alive);
        if bs[i].alive {
          list := list + [bs[i]];
        }
      }
      assert bs[..|bs|] == bs;
    }

    /** Reads the index, and answers what a scan of the whole list would. */
    method GetHealthyByRegion(region: string) returns (list: seq<Backend>)
      requires Valid()
      ensures list == Candidates(backends, Alive(), region)
      ensures region != "" && Populated(backends, Alive(), region) ==>
          exists idx :: Lists(list, backends, idx, Alive(), Some(region))
      ensures region == "" || !Populated(backends, Alive(), region) ==>
          exists idx :: Lists(list, backends, idx, Alive(), None)
    {
      ghost var idx := CandidatesExact(backends, Alive(), region);
      if region != "" {
        forall b | b in Listed(regions, region) ensures b in backends {
          InRegionMembers(backends, region, b);
        }
        list := KeepLive(Listed(regions, region), Alive());
        if |list| > 0 {
          return;
        }
      }
      list := KeepLive(backends, Alive());
    }

    /** Whether the region decides: a named one, with somebody alive to choose from. */
    ghost predicate Regional(region: string)
      reads this`backends, backends
    {
      region != "" && region != "default" && Candidates(backends, Alive(), region) != []
    }

    lemma BreakersOf(candidates: seq<Backend>, region: string)
      requires candidates == Candidates(backends, Alive(), region)
      ensures BreakersIn(candidates) <= Breakers()
      ensures forall b :: b in candidates ==> b in backends && b.alive
    {
      forall b | b in candidates ensures b in backends && b.alive {
        CandidatesMembers(backends, Alive(), region, b);
      }
    }

    /** The first candidate of minimal score, or nobody if all their breakers are open. */
    ghost function Best(region: string, clock: Clock): Backend?
      reads this`backends, (set b | b in backends), Breakers()
    {
      var candidates := Candidates(backends, Alive(), region);
      BreakersOf(candidates, region);
      Led(candidates, Scores(candidates, clock))
    }

    /** A named region with living candidates gets the best of them; everything else goes by weight. */
    ghost function Selection(region: string, clock: Clock): Backend?
      reads this`backends, this`weighted, this`current, (set b | b in backends), Breakers()
    {
      if Regional(region) then Best(region, clock) else Weighted()
    }

    /** The counter after a selection: going by weight takes a ticket. */
    ghost function NextCurrent(region: string): uint64
      reads this`backends, this`weighted, this`current, backends
    {
      if Regional(region) || weighted == [] then current else Inc64(current)
    }

    method SelectBackend(region: string, clock: Clock) returns (best: Backend?)
      requires Valid() && (Regional(region) || CanStart(weighted, current))
      modifies this`current, Breakers()
      ensures best == old(Selection(region, clock))
      ensures best != null ==> best in backends && best.alive
      ensures region != "" && region != "default" && old(Populated(backends, Alive(), region)) ==>
          best != null ==> best.region == region
      ensures current == old(NextCurrent(region))
    {
      ghost var scores := Scores(Candidates(backends, Alive(), region), clock);
      if region == "" || region == "default" {
        best := GetNextPeerWeighted();
        return;
      }
      var candidates := GetHealthyByRegion(region);
      if |candidates| == 0 {
        best := GetNextPeerWeighted();
        return;
      }
      BreakersOf(candidates, region);
      CandidatesRegion(backends, Alive(), region);
      best := PickBest(candidates, clock, scores);
    }

    /** What a selection comes to: with a named region and somebody alive, the first best of the living backends of the
        region, or of all living ones if it has none, and nobody if and only if the breakers of all of them are open
        when they are looked at; in every other case whom the next ticket is for, and only then a ticket is taken. */
    lemma SelectionExact(region: string, clock: Clock) returns (candidates: seq<Backend>, idx: seq<nat>)
      ensures Lists(candidates, backends, idx, Alive(),
                    if region != "" && Populated(backends, Alive(), region) then Some(region) else None)
      ensures var scored := region != "" && region != "default" && exists b :: b in backends && b.alive;
        && (!scored ==> Selection(region, clock) == Weighted())
        && (scored ==> NextCurrent(region) == current)
        && (!scored && weighted != [] ==> NextCurrent(region) == Inc64(current))
      ensures region != "" && region != "default" && (exists b :: b in backends && b.alive) ==>
          var scores := Scores(candidates, clock);
          var best := Selection(region, clock);
          && (best == null <==>
                forall i :: 0 <= i < |candidates| ==> candidates[i].StateAt(clock.Reading(2 * i)) == Open)
          && (best != null ==> exists k :: FirstMinimal(candidates, scores, best, k))
    {
      candidates := Candidates(backends, Alive(), region);
      idx := CandidatesExact(backends, Alive(), region);
      RegionalChoice(candidates, clock);
    }

    method PickBest(candidates: seq<Backend>, clock: Clock, ghost scores: seq<Score>) returns (best: Backend?)
      requires SameScores(candidates, scores, clock, 0)
      modifies BreakersIn(candidates)
      ensures best == Led(candidates, scores)
      ensures best != null ==> best in candidates
    {
      best := null;
      var bestScore := Top;
      for i := 0 to |candidates|
        invariant SameScores(candidates, scores, clock, i)
        invariant Leads(candidates, scores, i, best, bestScore)
      {
        var score := ScoreOf(candidates, i, scores, clock);
        LeadsOn(candidates, scores, i, best, bestScore);
        if score.Below(bestScore) {
          best := candidates[i];
          bestScore := score;
        }
      }
    }

    /** From candidate `n` on, the scores are still to come as they were foreseen. */
    ghost predicate SameScores(bs: seq<Backend>, scores: seq<Score>, clock: Clock, n: nat)
      reads bs, BreakersIn(bs)
    {
      |scores| == |bs| && forall j :: n <= j < |bs| ==> bs[j].ScoreAt(clock.Reading(2 * j)) == scores[j]
    }

    /** Scoring one candidate moves its breaker along, but changes no later score. */
    method ScoreOf(bs: seq<Backend>, i: nat, ghost scores: seq<Score>, clock: Clock) returns (score: Score)
      requires i < |bs| && SameScores(bs, scores, clock, i)
      modifies BreakersIn(bs)
      ensures score == scores[i] && SameScores(bs, scores, clock, i + 1)
    {
      var b := bs[i];
      ReadingsInOrder(clock, 2 * i, 2 * i + 1);
      score := b.Score(clock.Reading(2 * i), clock.Reading(2 * i + 1));
      forall j | i + 1 <= j < |bs| ensures bs[j].ScoreAt(clock.Reading(2 * j)) == scores[j] {
        var c, later := bs[j], clock.Reading(2 * j);
        ReadingsInOrder(clock, 2 * i + 1, 2 * j);
        assert c.View() == old(c.View()) && c.active == old(c.active);
        assert c.StateAt(later) == old(c.StateAt(later)) by {
          if c.breaker != null && c.breaker == b.breaker {
            assert c.StateAt(later) == old(b.StateAt(later));
          }
        }
      }
    }

    // ---------- Sticky sessions ----------

    ghost function Remembered(session: string): Option<SharedStore.Peer>
      reads this`stickySessions, stickySessions.Values
    {
      if session in stickySessions then Some(AsPeer(stickySessions[session])) else None
    }

    /** Backend `i` is the first living one of that URL. */
    ghost predicate FirstUnder(url: string, peer: Backend, i: nat)
      reads this`backends, backends
    {
      i < |backends| && backends[i] == peer && !SharedStore.LivesUnder(Peers(backends)[..i], url)
    }

    method FindAlive(url: string) returns (peer: Backend?)
      ensures peer == null <==> !SharedStore.LivesUnder(Peers(backends), url)
      ensures peer != null ==> peer.alive && peer.url == url
      ensures peer != null ==> exists i: nat :: FirstUnder(url, peer, i)
    {
      ghost var peers := Peers(backends);
      for i := 0 to |backends|
        invariant forall j :: 0 <= j < i ==> peers[j] != SharedStore.Peer(url, true)
      {
        if backends[i].url == url && backends[i].alive {
          assert peers[i] == SharedStore.Peer(url, true);
          assert FirstUnder(url, backends[i], i);
          return backends[i];
        }
      }
      return null;
    }

    method Remember(session: string, peer: Backend, region: string, now: int)
      modifies if sessionManager == null then {} else {sessionManager.store}
      ensures sessionManager != null ==>
          sessionManager.store.data ==
            Redis.Stored(old(sessionManager.store.data), sessionManager.keyPrefix, session, peer.url, region, now)
    {
      if sessionManager != null {
        sessionManager.SetSession(session, peer.url, region, now);
      }
    }

    /** A store is none of the objects that a selection looks at, and no backend is a pool or a breaker. */
    lemma StoreApart(store: Redis.Store?)
      ensures forall b :: b in backends ==> b as object != store && b as object != this && b as object !in Breakers()
      ensures forall c :: c in Breakers() ==> c as object != store
    {
    }

    /** The store that a lookup may write to. */
    ghost function TheStore(): Redis.Store?
      reads this`sessionManager
    {
      if sessionManager == null then null else sessionManager.store
    }

    /** Reads the session from the store. Nothing else that the lookup goes by changes. */
    method AskStore(session: string, region: string, now: int, clock: Clock,
                    ghost l: SharedStore.Lookup, ghost regional: bool)
      returns (found: Option<Redis.SessionData>)
      requires sessionManager != null && l == LookupAt(session, region, now, clock) && regional == Regional(region)
      modifies sessionManager.store
      ensures l == LookupAt(session, region, now, clock) && regional == Regional(region)
      ensures StoreData() == Redis.Accessed(old(StoreData()), Prefix(), session, now)
      ensures Redis.SessionURL(old(StoreData()), Prefix(), session) ==
        match found case None => None case Some(s) => Some(s.backendURL)
    {
      StoreApart(TheStore());
      found := sessionManager.GetSession(session, now);
    }

    /** The living backend under the URL that the store answered, if there is one. */
    method Locate(found: Option<Redis.SessionData>, ghost l: SharedStore.Lookup, ghost data: Redis.Data)
      returns (peer: Backend?)
      requires l.pool == Peers(backends)
      requires Redis.SessionURL(data, Prefix(), l.session) ==
        match found case None => None case Some(s) => Some(s.backendURL)
      ensures peer != null <==> SharedStore.Recalls(data, Prefix(), l)
      ensures peer != null ==> peer.alive && Redis.SessionURL(data, Prefix(), l.session) == Some(peer.url)
    {
      if found == None {
        return null;
      }
      peer := FindAlive(found.value.backendURL);
    }

    /** What the store answered, while a living backend goes by that URL. */
    method Recall(session: string, region: string, now: int, clock: Clock,
                  ghost l: SharedStore.Lookup, ghost regional: bool)
      returns (peer: Backend?)
      requires sessionManager != null && l == LookupAt(session, region, now, clock) && regional == Regional(region)
      modifies sessionManager.store
      ensures l == LookupAt(session, region, now, clock) && regional == Regional(region)
      ensures StoreData() == Redis.Accessed(old(StoreData()), Prefix(), session, now)
      ensures peer != null <==> SharedStore.Recalls(old(StoreData()), Prefix(), l)
      ensures peer != null ==> peer.alive && Redis.SessionURL(old(StoreData()), Prefix(), session) == Some(peer.url)
    {
      var found := AskStore(session, region, now, clock, l, regional);
      StoreApart(TheStore());
      peer := Locate(found, l, old(StoreData()));
    }

    /** From now on the session goes to `peer`, here and in the store. */
    method Keep(ghost l: SharedStore.Lookup, session: string, region: string, now: int, peer: Backend)
      requires l.session == session && l.region == region && l.now == now
      modifies this`stickySessions
      modifies if sessionManager == null then {} else {sessionManager.store}
      ensures stickySessions == old(stickySessions)[session := peer]
      ensures sessionManager != null ==> StoreData() == Told(l, old(StoreData()), Prefix(), peer)
    {
      stickySessions := stickySessions[session := peer];
      Remember(session, peer, region, now);
    }

    /** A new backend for the session, remembered by the pool and told to the store. */
    method Assign(ghost l: SharedStore.Lookup, session: string, region: string, now: int, clock: Clock,
                  ghost selected: Backend?, ghost next: uint64)
      returns (peer: Backend?)
      requires Valid() && (Regional(region) || CanStart(weighted, current))
      requires selected == Selection(region, clock) && next == NextCurrent(region)
      requires l.session == session && l.region == region && l.now == now
      modifies this`current, this`stickySessions, Breakers()
      modifies if sessionManager == null then {} else {sessionManager.store}
      ensures peer == selected && current == next
      ensures peer != null ==> peer.alive
      ensures stickySessions == if peer == null then old(stickySessions) else old(stickySessions)[session := peer]
      ensures sessionManager != null ==> StoreData() == Told(l, old(StoreData()), Prefix(), peer)
    {
      peer := SelectBackend(region, clock);
      if peer != null {
        Keep(l, session, region, now, peer);
      }
    }

    /** What a lookup has to go by at this moment. */
    ghost function LookupAt(session: string, region: string, now: int, clock: Clock): SharedStore.Lookup
      reads this, backends, Breakers(), stickySessions.Values
    {
      SharedStore.Lookup(
        session, region, now, Peers(backends), Remembered(session), URLOf(Selection(region, clock)))
    }

    /** A lookup that the store could not answer. */
    method Reroute(ghost l: SharedStore.Lookup, session: string, region: string, now: int, clock: Clock)
      returns (peer: Backend?)
      requires Valid() && (SharedStore.Selects(map[], "", l) ==> Regional(region) || CanStart(weighted, current))
      requires l.session == session && l.region == region && l.now == now
      requires l.remembered == Remembered(session) && l.selected == URLOf(Selection(region, clock))
      modifies this`current, this`stickySessions, Breakers()
      modifies if sessionManager == null then {} else {sessionManager.store}
      ensures current == if SharedStore.Selects(map[], "", l) then old(NextCurrent(region)) else old(current)
      ensures peer != null ==> peer.alive
      ensures peer != null ==> session in stickySessions && stickySessions[session] == peer
      ensures session in old(stickySessions) && old(stickySessions[session].alive) ==>
          peer == old(stickySessions[session])
      ensures Answered(l, map[], "", peer, old(stickySessions), stickySessions)
      ensures sessionManager != null ==> StoreData() == Told(l, old(StoreData()), Prefix(), peer)
    {
      if session in stickySessions && stickySessions[session].alive {
        peer := stickySessions[session];
        Remember(session, peer, region, now);
        return;
      }
      peer := Assign(l, session, region, now, clock, Selection(region, clock), NextCurrent(region));
    }

    /** One sticky lookup, `l` being what it has to go by. It answers, and writes to the store, what `SharedStore`
        says; without a session manager it is as if the store were empty. */
    method GetBackendForStickySession(
        session: string, region: string, now: int, clock: Clock, ghost l: SharedStore.Lookup)
      returns (peer: Backend?)
      requires Valid() && l == LookupAt(session, region, now, clock)
      requires SharedStore.Selects(StoreData(), Prefix(), l) ==> Regional(region) || CanStart(weighted, current)
      modifies this`current, this`stickySessions, Breakers()
      modifies if sessionManager == null then {} else {sessionManager.store}
      ensures current ==
          if SharedStore.Selects(old(StoreData()), Prefix(), l) then old(NextCurrent(region)) else old(current)
      ensures peer != null ==> peer.alive
      ensures sessionManager == null ==>
          && (peer != null ==> session in stickySessions && stickySessions[session] == peer)
          && (session in old(stickySessions) && old(stickySessions[session].alive) ==>
                peer == old(stickySessions[session]))
      ensures Answered(l, old(StoreData()), Prefix(), peer, old(stickySessions), stickySessions)
      ensures sessionManager != null ==> StoreData() == SharedStore.Routed(old(StoreData()), Prefix(), l)
    {
      if sessionManager != null {
        peer := Recall(session, region, now, clock, l, Regional(region));
        if peer != null {
          AnsweredFromStore(l, old(StoreData()), old(Prefix()), peer, old(stickySessions));
          return;
        }
      }
      peer := Fallback(l, session, region, now, clock, old(StoreData()));
    }

    /** The rest of a lookup, after the store did not recall the session. */
    method Fallback(
        ghost l: SharedStore.Lookup, session: string, region: string, now: int, clock: Clock, ghost data: Redis.Data)
      returns (peer: Backend?)
      requires Valid() && l == LookupAt(session, region, now, clock)
      requires SharedStore.Selects(data, Prefix(), l) ==> Regional(region) || CanStart(weighted, current)
      requires !SharedStore.Recalls(data, Prefix(), l)
      requires sessionManager != null ==> StoreData() == Redis.Accessed(data, Prefix(), session, now)
      modifies this`current, this`stickySessions, Breakers()
      modifies if sessionManager == null then {} else {sessionManager.store}
      ensures current == if SharedStore.Selects(data, Prefix(), l) then old(NextCurrent(region)) else old(current)
      ensures peer != null ==> peer.alive
      ensures peer != null ==> session in stickySessions && stickySessions[session] == peer
      ensures session in old(stickySessions) && old(stickySessions[session].alive) ==>
          peer == old(stickySessions[session])
      ensures Answered(l, data, Prefix(), peer, old(stickySessions), stickySessions)
      ensures sessionManager != null ==> StoreData() == SharedStore.Routed(data, Prefix(), l)
    {
      peer := Reroute(l, session, region, now, clock);
      AnsweredOtherwise(l, data, Prefix(), peer, old(stickySessions), stickySessions);
    }

    ghost function StoreData(): Redis.Data
      reads this`sessionManager, if sessionManager == null then {} else {sessionManager.store}
    {
      if sessionManager == null then map[] else sessionManager.store.data
    }

    ghost function Prefix(): string
      reads this`sessionManager
    {
      if sessionManager == null then "" else sessionManager.keyPrefix
    }

    // ---------- Policies ----------

    method CreateBackendMap() returns (m: map<string, Backend>)
      ensures m == MapOf(backends)
    {
      m := map[];
      for i := 0 to |backends|
        invariant m == MapOf(backends[..i])
      {
        assert backends[..i + 1][..i] == backends[..i];
        m := m[backends[i].url := backends[i]];
      }
      assert backends[..|backends|] == backends;
    }

    /** A new engine, with the backends the pool has at this moment. */
    method EnableTrafficPolicies(policies: seq<Policies.Policy>, now: int)
      modifies this`trafficPolicyEngine
      ensures trafficPolicyEngine != null && fresh(trafficPolicyEngine)
      ensures trafficPolicyEngine.backendMap == MapOf(backends) && Policies.Distinct(MapOf(backends))
      ensures trafficPolicyEngine.Valid()
      ensures trafficPolicyEngine.policies == Policies.After([], Additions(policies, now))
    {
      MapDistinct(backends);
      var table := CreateBackendMap();
      var engine := new Policies.TrafficPolicyEngine<Backend>(table);
      ghost var ops := Additions(policies, now);
      for i := 0 to |policies|
        invariant engine.Valid() && engine.policies == Policies.After([], ops[..i])
      {
        assert ops[..i + 1][..i] == ops[..i];
        engine.AddPolicy(policies[i], now);
      }
      assert ops[..|policies|] == ops;
      trafficPolicyEngine := engine;
    }

    /** The backend that the policy engine chooses, if there is an engine and it chooses one. A denial is treated like
        no answer at all. */
    ghost function Choice(r: Policies.Request): Backend?
      reads this`trafficPolicyEngine, trafficPolicyEngine
    {
      if trafficPolicyEngine == null then null
      else
        match Policies.Ruling(trafficPolicyEngine.policies, r, trafficPolicyEngine.backendMap)
        case Chosen(b) => b
        case _ => null
    }

    /** A policy denies the request. */
    ghost predicate Denies(r: Policies.Request)
      reads this`trafficPolicyEngine, trafficPolicyEngine
    {
      && trafficPolicyEngine != null
      && Policies.Ruling(trafficPolicyEngine.policies, r, trafficPolicyEngine.backendMap).Denied?
    }

    method SelectBackendWithPolicy(r: Policies.Request) returns (peer: Backend?)
      requires Valid() && (Choice(r) == null ==> CanStart(weighted, current))
      modifies this`current
      ensures current == if Choice(r) != null || weighted == [] then old(current) else Inc64(old(current))
      ensures peer == if Choice(r) != null then Choice(r) else old(Weighted())
      ensures trafficPolicyEngine != null ==>
          var ruling := Policies.Ruling(trafficPolicyEngine.policies, r, trafficPolicyEngine.backendMap);
          ruling.Chosen? ==> peer == ruling.backend
      ensures Choice(r) == null ==> (peer == null <==> Weightless(backends, Alive()))
      ensures Denies(r) ==> Choice(r) == null && (peer == null <==> Weightless(backends, Alive()))
      ensures peer != null && Choice(r) == null ==> peer.alive
    {
      if trafficPolicyEngine == null {
        peer := GetNextPeerWeighted();
        return;
      }
      var verdict := trafficPolicyEngine.EvaluateRequest(r);
      if verdict.Chosen? {
        return verdict.backend;
      }
      peer := GetNextPeerWeighted();
    }

    // ---------- The choice of a peer ----------

    /** The peer of a request without a session: each link of the chain is asked if the one before has nobody. */
    ghost function Chosen(r: Policies.Request, region: string, clock: Clock): Backend?
      reads this, backends, Breakers(), trafficPolicyEngine
    {
      if Choice(r) != null then Choice(r)
      else if Weighted() != null then Weighted()
      else Selection(region, clock)
    }

    /** The tickets that a request with a session draws: one if its lookup comes to select by weight, and one more if
        the lookup finds nobody. */
    ghost predicate SessionTickets(region: string, l: SharedStore.Lookup)
      reads this, backends, TheStore()
    {
      && (SharedStore.Selects(StoreData(), Prefix(), l) ==> Regional(region) || CanStart(weighted, current))
      && (SharedStore.Target(StoreData(), Prefix(), l) == None ==> CanStart(weighted, NextCurrent(region)))
    }

    /** The tickets that a request without one draws: none if the engine chooses, and up to three if nobody is found. */
    ghost predicate PolicyTickets(r: Policies.Request, region: string, clock: Clock)
      reads this, backends, Breakers(), trafficPolicyEngine
    {
      Choice(r) == null ==>
        && CanStart(weighted, current)
        && (Weighted() == null ==> RegionTickets(region, clock, if weighted == [] then current else Inc64(current)))
    }

    /** The same from the regional link on, with the counter at `next`. */
    ghost predicate RegionTickets(region: string, clock: Clock, next: uint64)
      reads this, backends, Breakers()
    {
      && (Regional(region) || CanStart(weighted, next))
      && (Selection(region, clock) == null ==> CanStart(weighted, if Regional(region) then next else Inc64(next)))
    }

    /** When a lookup finds nobody, the ticket drawn after it is for whom the next one was. */
    lemma NextHolder(session: string, region: string, now: int, clock: Clock, l: SharedStore.Lookup)
      requires Valid() && l == LookupAt(session, region, now, clock) && SessionTickets(region, l)
      requires SharedStore.Target(StoreData(), Prefix(), l) == None
      ensures CanStart(weighted, NextCurrent(region))
      ensures HolderOf(weighted, Alive(), NextCurrent(region)) == Weighted()
      ensures Weighted() == null <==> Weightless(backends, Alive())
    {
      HolderExact(backends, Alive(), NextCurrent(region));
      if !Regional(region) {
        HolderExact(backends, Alive(), current);
      }
    }

    /** The chain of `lbHandler`. It asks for no ticket that it does not draw. */
    method ChoosePeer(session: string, region: string, r: Policies.Request, now: int, clock: Clock)
      returns (peer: Backend?)
      requires Valid()
      requires session != "" ==> SessionTickets(region, LookupAt(session, region, now, clock))
      requires session == "" ==> PolicyTickets(r, region, clock)
      modifies this`current, this`stickySessions, Breakers()
      modifies if sessionManager == null then {} else {sessionManager.store}
      ensures session == "" ==>
          && peer == old(Chosen(r, region, clock))
          && (Choice(r) != null ==> peer == Choice(r))
          && (Choice(r) == null && old(Weighted()) != null ==> peer == old(Weighted()))
          && (Choice(r) == null && old(Weighted()) == null ==> peer == old(Selection(region, clock)))
          && (peer == null <==>
                Weightless(backends, Alive()) && Choice(r) == null && old(Selection(region, clock)) == null)
          && (Denies(r) ==>
                (peer == null <==> Weightless(backends, Alive()) && old(Selection(region, clock)) == null))
      ensures session != "" ==>
          var target := SharedStore.Target(old(StoreData()), old(Prefix()), old(LookupAt(session, region, now, clock)));
          && (if target == None then peer == old(Weighted()) else URLOf(peer) == target)
          && (peer == null <==> Weightless(backends, Alive()) && target == None)
      ensures peer != null && peer != Choice(r) ==> peer.alive
    {
      if session != "" {
        ghost var l := LookupAt(session, region, now, clock);
        ghost var target := SharedStore.Target(StoreData(), Prefix(), l);
        if target == None {
          NextHolder(session, region, now, clock, l);
        }
        peer := ChooseForSession(
          session, region, now, clock, l, target, NextCurrent(region), Alive(), Weighted());
      } else {
        peer := ChooseByPolicy(r, region, clock);
      }
    }

    /** The first link of the chain, for a request with a session. It leaves everybody as alive as before. */
    method AskSession(session: string, region: string, now: int, clock: Clock, ghost l: SharedStore.Lookup,
                      ghost target: Option<string>, ghost next: uint64, ghost alive: set<Backend>)
      returns (peer: Backend?)
      requires Valid() && l == LookupAt(session, region, now, clock) && SessionTickets(region, l)
      requires target == SharedStore.Target(StoreData(), Prefix(), l) && next == NextCurrent(region)
      requires alive == Alive()
      modifies this`current, this`stickySessions, Breakers()
      modifies if sessionManager == null then {} else {sessionManager.store}
      ensures URLOf(peer) == target && (peer == null ==> current == next)
      ensures forall b :: b in backends ==> (b.alive <==> b in alive)
      ensures peer != null ==> peer.alive
    {
      StoreApart(TheStore());
      peer := AskTarget(session, region, now, clock, l, target, next);
    }

    method AskTarget(session: string, region: string, now: int, clock: Clock, ghost l: SharedStore.Lookup,
                     ghost target: Option<string>, ghost next: uint64)
      returns (peer: Backend?)
      requires Valid() && l == LookupAt(session, region, now, clock) && SessionTickets(region, l)
      requires target == SharedStore.Target(StoreData(), Prefix(), l) && next == NextCurrent(region)
      modifies this`current, this`stickySessions, Breakers()
      modifies if sessionManager == null then {} else {sessionManager.store}
      ensures URLOf(peer) == target && (peer == null ==> current == next)
      ensures peer != null ==> peer.alive
    {
      peer := GetBackendForStickySession(session, region, now, clock, l);
    }

    method ChooseForSession(session: string, region: string, now: int, clock: Clock,
                            ghost l: SharedStore.Lookup, ghost target: Option<string>, ghost next: uint64,
                            ghost alive: set<Backend>, ghost holder: Backend?)
      returns (peer: Backend?)
      requires Valid() && l == LookupAt(session, region, now, clock) && SessionTickets(region, l)
      requires target == SharedStore.Target(StoreData(), Prefix(), l) && next == NextCurrent(region)
      requires alive == Alive()
      requires target == None ==>
          && CanStart(weighted, next) && HolderOf(weighted, alive, next) == holder
          && (holder == null <==> Weightless(backends, alive))
      modifies this`current, this`stickySessions, Breakers()
      modifies if sessionManager == null then {} else {sessionManager.store}
      ensures if target == None then peer == holder else URLOf(peer) == target
      ensures peer == null <==> Weightless(backends, Alive()) && target == None
      ensures peer != null ==> peer.alive
    {
      peer := AskSession(session, region, now, clock, l, target, next, alive);
      if peer == null {
        assert Alive() == alive;
        peer := GetNextPeerWeighted();
      }
    }

    method ChooseByPolicy(r: Policies.Request, region: string, clock: Clock) returns (peer: Backend?)
      requires Valid() && PolicyTickets(r, region, clock)
      modifies this`current, Breakers()
      ensures peer == old(Chosen(r, region, clock))
      ensures peer == null <==>
          Weightless(backends, Alive()) && Choice(r) == null && old(Selection(region, clock)) == null
      ensures peer != null && peer != Choice(r) ==> peer.alive
    {
      ghost var alive := Alive();
      peer := SelectBackendWithPolicy(r);
      assert Alive() == alive;
      if peer == null {
        HolderExact(backends, alive, old(current));
        HolderNever(backends, alive, current);
        assert Best(region, clock) == old(Best(region, clock)) && Regional(region) == old(Regional(region));
        peer := SelectElsewhere(region, clock);
      }
    }

    /** The end of the chain, for when weighted routing has just found nobody. */
    method SelectElsewhere(region: string, clock: Clock) returns (peer: Backend?)
      requires Valid() && Weightless(backends, Alive()) && RegionTickets(region, clock, current)
      modifies this`current, Breakers()
      ensures peer == old(Selection(region, clock))
      ensures peer != null ==> peer.alive
    {
      ghost var alive := Alive();
      peer := SelectBackend(region, clock);
      assert Alive() == alive;
      if peer == null {
        HolderExact(backends, alive, current);
        peer := GetNextPeerWeighted();
      }
    }
  }
}

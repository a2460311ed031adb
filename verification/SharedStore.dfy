/** Several balancer instances at work on one store under one key prefix, one call at a time. */
module SharedStore {
  import opened GoInts
  import opened Options
  import opened Redis

  /** A backend as an instance sees it at the moment of a call. */
  datatype Peer = Peer(url: string, alive: bool)

  /** One sticky lookup by some instance: the pool it has, what it remembers of the session itself, and what its
      own selection would come up with. Nothing is assumed about how these relate between calls or instances. */
  datatype Lookup = Lookup(
    session: string, region: string, now: int, pool: seq<Peer>, remembered: Option<Peer>, selected: Option<string>)

  datatype Event =
    | Route(lookup: Lookup)
    | Forget(session: string)
    | Decide(requests: int, threshold: int, now: int)
    | CountRequests(requests: int)

  /** Some living backend of the pool has that URL. */
  predicate LivesUnder(pool: seq<Peer>, url: string) {
    Peer(url, true) in pool
  }

  /** The store knows a URL for the session, and somebody living goes by it. */
  predicate Recalls(data: Data, prefix: string, l: Lookup) {
    var known := SessionURL(data, prefix, l.session);
    known.Some? && LivesUnder(l.pool, known.value)
  }

  /** Neither the store nor the instance's own memory has a living backend for the session. */
  predicate Selects(data: Data, prefix: string, l: Lookup) {
    !Recalls(data, prefix, l) && !(l.remembered.Some? && l.remembered.value.alive)
  }

  /** Where a lookup sends the session. */
  function Target(data: Data, prefix: string, l: Lookup): Option<string> {
    if Recalls(data, prefix, l) then SessionURL(data, prefix, l.session)
    else if Selects(data, prefix, l) then l.selected
    else Some(l.remembered.value.url)
  }

  /** What it leaves in the store. */
  function Routed(data: Data, prefix: string, l: Lookup): Data {
    var accessed := Accessed(data, prefix, l.session, l.now);
    var target := Target(data, prefix, l);
    if Recalls(data, prefix, l) || target == None then accessed
    else Stored(accessed, prefix, l.session, target.value, l.region, l.now)
  }

  function Next(data: Data, prefix: string, e: Event): Data {
    match e
    case Route(l) => Routed(data, prefix, l)
    case Forget(session) => data - {SessionKey(prefix, session)}
    case Decide(requests, threshold, now) => Decided(data, prefix, requests, threshold, now)
    case CountRequests(requests) => Counted(data, prefix, requests)
  }

  function Run(data: Data, prefix: string, es: seq<Event>): Data
    decreases |es|
  {
    if es == [] then data else Run(Next(data, prefix, es[0]), prefix, es[1..])
  }

  // ---------- Sticky routing ----------

  /** Whatever a lookup returns is what the store then holds for the session. */
  lemma {:induction false} TargetIsStored(data: Data, prefix: string, l: Lookup)
    ensures Target(data, prefix, l).Some? ==>
        SessionURL(Routed(data, prefix, l), prefix, l.session) == Target(data, prefix, l)
  {
  }

  /** Events that have nothing to do with a session leave its record alone. */
  lemma {:induction false} OthersDoNotDisturb(data: Data, prefix: string, session: string, e: Event)
    requires e.Route? ==> e.lookup.session != session
    requires e.Forget? ==> e.session != session
    ensures SessionURL(Next(data, prefix, e), prefix, session) == SessionURL(data, prefix, session)
  {
    match e
    case Route(l) => KeysApart(prefix, session, l.session);
    case Forget(other) => KeysApart(prefix, session, other);
    case Decide(_, _, _) => KeysApart(prefix, session, session);
    case CountRequests(_) => KeysApart(prefix, session, session);
  }

  /** The session is not deleted, and every lookup of it finds a living backend under `url`. */
  predicate KeepsFinding(es: seq<Event>, session: string, url: string) {
    forall e :: e in es ==>
      && !(e.Forget? && e.session == session)
      && (e.Route? && e.lookup.session == session ==> LivesUnder(e.lookup.pool, url))
  }

  /** The targets of the lookups of one session, in order. */
  function Targets(data: Data, prefix: string, es: seq<Event>, session: string): seq<Option<string>>
    decreases |es|
  {
    if es == [] then []
    else
      (if es[0].Route? && es[0].lookup.session == session then [Target(data, prefix, es[0].lookup)] else []) +
      Targets(Next(data, prefix, es[0]), prefix, es[1..], session)
  }

  /** Once the store holds a URL for a session, every instance sends the session there, until a lookup finds no
      living backend under it. */
  lemma {:induction false} Sticky(data: Data, prefix: string, es: seq<Event>, session: string, url: string)
    requires SessionURL(data, prefix, session) == Some(url) && KeepsFinding(es, session, url)
    ensures forall t :: t in Targets(data, prefix, es, session) ==> t == Some(url)
    ensures SessionURL(Run(data, prefix, es), prefix, session) == Some(url)
    decreases |es|
  {
    if es != [] {
      var e := es[0];
      assert e in es;
      if e.Route? && e.lookup.session == session {
        TargetIsStored(data, prefix, e.lookup);
      } else {
        OthersDoNotDisturb(data, prefix, session, e);
      }
      Sticky(Next(data, prefix, e), prefix, es[1..], session, url);
    }
  }

  /** From the first answer on: the lookup that was answered may have been made by any instance. */
  lemma {:induction false} StickyFromFirstAnswer(data: Data, prefix: string, first: Lookup, es: seq<Event>, url: string)
    requires Target(data, prefix, first) == Some(url) && KeepsFinding(es, first.session, url)
    ensures forall t :: t in Targets(Routed(data, prefix, first), prefix, es, first.session) ==> t == Some(url)
  {
    TargetIsStored(data, prefix, first);
    Sticky(Routed(data, prefix, first), prefix, es, first.session, url);
  }

  /** Where a lookup goes, and what it writes: to a living backend under the stored URL, which only stamps the record;
      else to the instance's own backend, if it lives; else to a new one. Both times the record is written anew. */
  lemma {:induction false} LookupCases(data: Data, prefix: string, l: Lookup)
    ensures var key := SessionKey(prefix, l.session);
      var known := if key in data then Some(AsSession(data[key])) else None;
      var target, after := Target(data, prefix, l), Routed(data, prefix, l);
      var stamped := if known.Some? then data[key := Session(known.value.(lastAccess := Some(l.now)))] else data;
      if known.Some? && Peer(known.value.backendURL, true) in l.pool
      then target == Some(known.value.backendURL) && after == stamped
      else
        && target ==
             (if l.remembered.Some? && l.remembered.value.alive then Some(l.remembered.value.url) else l.selected)
        && after ==
             if target == None then stamped
             else data[key := Session(SessionData(target.value, l.region, Some(l.now), Some(l.now)))]
  {
  }

  /** Every lookup of the session is made by an instance that remembers a living backend of that URL. */
  predicate AllRemember(es: seq<Event>, session: string, url: string) {
    forall e :: e in es && e.Route? && e.lookup.session == session ==> e.lookup.remembered == Some(Peer(url, true))
  }

  /** The instances' own memory carries a session over the loss of its record: it may be deleted any number of times,
      and need not be found in the pools. */
  lemma {:induction false} MemorySticks(data: Data, prefix: string, es: seq<Event>, session: string, url: string)
    requires SessionURL(data, prefix, session) in {None, Some(url)} && AllRemember(es, session, url)
    ensures forall t :: t in Targets(data, prefix, es, session) ==> t == Some(url)
    decreases |es|
  {
    if es != [] {
      var e := es[0];
      assert e in es;
      if e.Route? && e.lookup.session == session {
        TargetIsStored(data, prefix, e.lookup);
      } else if !(e.Forget? && e.session == session) {
        OthersDoNotDisturb(data, prefix, session, e);
      }
      MemorySticks(Next(data, prefix, e), prefix, es[1..], session, url);
    }
  }

  // ---------- Scaling ----------

  predicate Ups(data: Data, prefix: string, e: Event) {
    e.Decide? && ScalesUp(ScalingOf(data, prefix), e.requests, e.threshold, e.now)
  }

  predicate Downs(data: Data, prefix: string, e: Event) {
    e.Decide? && ScalesDown(ScalingOf(data, prefix), e.requests, e.threshold, e.now)
  }

  function UpTimes(data: Data, prefix: string, es: seq<Event>): seq<int>
    decreases |es|
  {
    if es == [] then []
    else
      var rest := UpTimes(Next(data, prefix, es[0]), prefix, es[1..]);
      if Ups(data, prefix, es[0]) then [es[0].now] + rest else rest
  }

  function DownTimes(data: Data, prefix: string, es: seq<Event>): seq<int>
    decreases |es|
  {
    if es == [] then []
    else
      var rest := DownTimes(Next(data, prefix, es[0]), prefix, es[1..]);
      if Downs(data, prefix, es[0]) then [es[0].now] + rest else rest
  }

  /** One event's effect on the scaling record: sessions have none. */
  lemma {:induction false} ScalingStep(data: Data, prefix: string, e: Event)
    ensures var s, s' := ScalingOf(data, prefix), ScalingOf(Next(data, prefix, e), prefix);
      var up, down := Ups(data, prefix, e), Downs(data, prefix, e);
      && s'.cooldownPeriod == s.cooldownPeriod
      && !(up && down)
      && s'.currentReplicas == s.currentReplicas + (if up then 1 else 0) - (if down then 1 else 0)
      && (down ==> 1 < s.currentReplicas)
      && s'.lastScaleUp == (if up then Some(e.now) else s.lastScaleUp)
      && s'.lastScaleDown == (if down then Some(e.now) else s.lastScaleDown)
      && s'.totalRequests == (if up || down then 0 else if e.CountRequests? then e.requests else s.totalRequests)
  {
    match e
    case Route(l) => KeysApart(prefix, l.session, l.session);
    case Forget(session) => KeysApart(prefix, session, session);
    case Decide(requests, threshold, now) =>
      var s := ScalingOf(data, prefix);
      NeverBothWays(s, s, requests, threshold, now);
    case CountRequests(_) =>
  }

  /** Replicas are what there was, plus the scale-ups, less the scale-downs, and at least one is always left. */
  lemma {:induction false} ReplicasConserved(data: Data, prefix: string, es: seq<Event>)
    ensures var s, s' := ScalingOf(data, prefix), ScalingOf(Run(data, prefix, es), prefix);
      && s'.currentReplicas ==
           s.currentReplicas + |UpTimes(data, prefix, es)| - |DownTimes(data, prefix, es)|
      && (1 <= s.currentReplicas ==> 1 <= s'.currentReplicas)
    decreases |es|
  {
    if es != [] {
      ScalingStep(data, prefix, es[0]);
      ReplicasConserved(Next(data, prefix, es[0]), prefix, es[1..]);
    }
  }

  /** Each instant is more than `gap` after the one before, and the first one more than `gap` after `last`. */
  predicate Spaced(last: Option<int>, times: seq<int>, gap: int)
    decreases |times|
  {
    times == [] || ((last.Some? ==> times[0] - last.value > gap) && Spaced(Some(times[0]), times[1..], gap))
  }

  lemma {:induction false} DecisionsSpaced(data: Data, prefix: string, es: seq<Event>)
    ensures var s := ScalingOf(data, prefix);
      && Spaced(s.lastScaleUp, UpTimes(data, prefix, es), s.cooldownPeriod)
      && Spaced(s.lastScaleDown, DownTimes(data, prefix, es), s.cooldownPeriod)
    decreases |es|
  {
    if es != [] {
      var rest := Next(data, prefix, es[0]);
      ScalingStep(data, prefix, es[0]);
      DecisionsSpaced(rest, prefix, es[1..]);
      if Ups(data, prefix, es[0]) {
        assert UpTimes(data, prefix, es)[1..] == UpTimes(rest, prefix, es[1..]);
      }
      if Downs(data, prefix, es[0]) {
        assert DownTimes(data, prefix, es)[1..] == DownTimes(rest, prefix, es[1..]);
      }
    }
  }

  lemma {:induction false} SpacedSpan(last: int, times: seq<int>, gap: int)
    requires Spaced(Some(last), times, gap) && times != []
    ensures Times(gap, |times|) < times[|times| - 1] - last
    decreases |times|
  {
    if |times| != 1 {
      SpacedSpan(times[0], times[1..], gap);
    }
  }

  /** `n` decisions the same way, `n >= 2`, take more than `n - 1` cooldowns. */
  lemma {:induction false} CooldownHolds(data: Data, prefix: string, es: seq<Event>)
    ensures var cooldown := ScalingOf(data, prefix).cooldownPeriod;
      var ups, downs := UpTimes(data, prefix, es), DownTimes(data, prefix, es);
      && (2 <= |ups| ==> (|ups| - 1) * cooldown < ups[|ups| - 1] - ups[0])
      && (2 <= |downs| ==> (|downs| - 1) * cooldown < downs[|downs| - 1] - downs[0])
  {
    var cooldown := ScalingOf(data, prefix).cooldownPeriod;
    DecisionsSpaced(data, prefix, es);
    SpanOf(ScalingOf(data, prefix).lastScaleUp, UpTimes(data, prefix, es), cooldown);
    SpanOf(ScalingOf(data, prefix).lastScaleDown, DownTimes(data, prefix, es), cooldown);
  }

  lemma {:induction false} SpanOf(last: Option<int>, times: seq<int>, gap: int)
    requires Spaced(last, times, gap)
    ensures 2 <= |times| ==> (|times| - 1) * gap < times[|times| - 1] - times[0]
  {
    if 2 <= |times| {
      SpacedSpan(times[0], times[1..], gap);
      TimesIsProduct(gap, |times| - 1);
    }
  }
}

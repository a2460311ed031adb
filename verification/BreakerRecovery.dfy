/** From a trip to the next closed window: how many probes get through, how fast, and that they can succeed. */
module BreakerRecovery {
  import opened GoInts
  import opened Breaker
  import opened BreakerRuns

  // ---------- Half-open progress ----------

  /** The steps a half-open breaker can still take before it must leave that state. */
  function Effort(cfg: Config, s: Sys): int {
    2 * (cfg.maxRequests - s.core.counts.requests) + s.unsettled[s.core.generation]
  }

  /** What can be said of a half-open breaker and its tokens alone, whatever came before. */
  ghost predicate Probing(cfg: Config, s: Sys) {
    && s.core.state == HalfOpen
    && s.core.counts.requests <= cfg.maxRequests
    && (0 < cfg.maxRequests == s.core.counts.requests ==> s.core.generation in s.unsettled)
    && (cfg.maxRequests == 0 ==> s.core.generation !in s.unsettled)
  }

  lemma {:induction false} InvProbing(cfg: Config, s: Sys)
    requires Inv(cfg, s) && s.core.state == HalfOpen
    ensures Probing(cfg, s)
  {
    WrapInc(Made(s));
  }

  /** A half-open breaker is never wedged: it lets a probe in or waits for one it let in. */
  lemma {:induction false} HalfOpenNeverStuck(cfg: Config, s: Sys)
    requires Inv(cfg, s) && s.core.state == HalfOpen && 0 < cfg.maxRequests
    ensures Admits(cfg, s.core) || s.core.generation in s.unsettled
    ensures 0 < Effort(cfg, s)
  {
    InvProbing(cfg, s);
  }

  /** Whatever touches the generation uses up effort or ends the episode; whatever does not changes nothing. */
  lemma {:induction false} HalfOpenProgress(cfg: Config, s: Sys, e: Event)
    requires Enabled(s, e)
    requires s.core.state == HalfOpen && Next(cfg, s, e).core.state == HalfOpen
    ensures var s' := Next(cfg, s, e);
      if Admitted(cfg, s, e) || (e.Settle? && e.token == s.core.generation)
      then Effort(cfg, s') < Effort(cfg, s)
      else s'.core == s.core && Effort(cfg, s') == Effort(cfg, s)
  {
  }

  /** The breaker closes on the first success that finds all its probes used, however few of them succeeded. */
  lemma {:induction false} ClosingExact(cfg: Config, s: Sys, e: Event)
    requires s.core.state == HalfOpen
    ensures Next(cfg, s, e).core.state == Closed <==>
        e.Settle? && e.success && e.token == s.core.generation && s.core.counts.requests >= cfg.maxRequests
  {
  }

  /** It closes on as many successes as it should exactly when the success is the last of its requests to settle. */
  lemma {:induction false} ClosingSuccesses(cfg: Config, s: Sys, e: Event)
    requires Inv(cfg, s) && Enabled(s, e) && 0 < cfg.maxRequests
    requires s.core.state == HalfOpen && Next(cfg, s, e).core.state == Closed
    ensures Count(CurrentLog(s), true) + 1 == cfg.maxRequests <==> s.unsettled[s.core.generation] == 1
    ensures Count(CurrentLog(s), true) + 1 <= cfg.maxRequests
  {
    ClosingExact(cfg, s, e);
    InvAccounted(cfg, s);
    TailBound(CurrentLog(s), true);
  }

  /** Probes that do not overlap: each one begins and succeeds before the next. */
  function Probes(token: uint64, times: seq<(int, int)>): seq<Event> {
    if times == [] then []
    else [Begin(times[0].0), Settle(token, true, times[0].1)] + Probes(token, times[1..])
  }

  lemma {:induction false} ProbesUnfold(cfg: Config, s: Sys, token: uint64, times: seq<(int, int)>)
    requires times != [] && Legal(cfg, s, Probes(token, times))
    ensures var begin := Begin(times[0].0);
      var settle := Settle(token, true, times[0].1);
      var s1 := Next(cfg, s, begin);
      var s2 := Next(cfg, s1, settle);
      && Enabled(s, begin) && Enabled(s1, settle)
      && Legal(cfg, s2, Probes(token, times[1..]))
      && Run(cfg, s, Probes(token, times)) == Run(cfg, s2, Probes(token, times[1..]))
  {
    var es := Probes(token, times);
    assert es[1..][1..] == Probes(token, times[1..]);
  }

  /** One probe that is let in and comes back successful. */
  lemma {:induction false} ProbeStep(cfg: Config, c: Core, begin: int, end: int)
    requires c.state == HalfOpen && c.counts.requests < cfg.maxRequests
    ensures var d := Settled(cfg, Requested(cfg, c, begin), c.generation, true, end);
      if c.counts.requests + 1 == cfg.maxRequests
      then d.state == Closed
      else
        && d.state == HalfOpen && d.generation == c.generation
        && d.counts.requests == c.counts.requests + 1
  {
  }

  /** From a fresh half-open generation it takes exactly `maxRequests` of them to close the breaker; from one that
      has used some places, as many as are left, whatever became of the others. */
  lemma {:induction false} SequentialProbes(cfg: Config, s: Sys, times: seq<(int, int)>)
    requires s.core.state == HalfOpen && s.core.counts.requests < cfg.maxRequests
    requires |times| <= cfg.maxRequests - s.core.counts.requests
    requires Legal(cfg, s, Probes(s.core.generation, times))
    ensures var end := Run(cfg, s, Probes(s.core.generation, times)).core;
      if |times| == cfg.maxRequests - s.core.counts.requests
      then end.state == Closed
      else end.state == HalfOpen && end.counts.requests == s.core.counts.requests + |times|
    decreases |times|
  {
    if times != [] {
      var g := s.core.generation;
      var begin, settle := Begin(times[0].0), Settle(g, true, times[0].1);
      var s1 := Next(cfg, s, begin);
      ProbesUnfold(cfg, s, g, times);
      ProbeStep(cfg, s.core, times[0].0, times[0].1);
      if s.core.counts.requests + 1 == cfg.maxRequests {
        assert times[1..] == [];
      } else {
        SequentialProbes(cfg, Next(cfg, s1, settle), times[1..]);
      }
    }
  }

  /** A half-open breaker that may admit nothing never leaves the state. */
  lemma {:induction false} NoProbesNoRecovery(cfg: Config, s: Sys, es: seq<Event>)
    requires Probing(cfg, s) && Legal(cfg, s, es) && cfg.maxRequests == 0
    ensures Run(cfg, s, es).core == s.core
    decreases |es|
  {
    if es != [] {
      assert Next(cfg, s, es[0]).core == s.core;
      NoProbesNoRecovery(cfg, Next(cfg, s, es[0]), es[1..]);
    }
  }

  /** Otherwise some continuation closes it, and never needs more steps than the effort left. */
  lemma {:induction false} Recovery(cfg: Config, s: Sys) returns (es: seq<Event>)
    requires Probing(cfg, s) && 0 < cfg.maxRequests
    ensures Legal(cfg, s, es) && |es| <= Effort(cfg, s)
    ensures Run(cfg, s, es).core.state == Closed
    decreases Effort(cfg, s)
  {
    var e := if Admits(cfg, s.core) then Begin(s.clock) else Settle(s.core.generation, true, s.clock);
    var s' := Next(cfg, s, e);
    ClosingExact(cfg, s, e);
    if s'.core.state == Closed {
      es := [e];
    } else {
      HalfOpenProgress(cfg, s, e);
      var rest := Recovery(cfg, s');
      es := [e] + rest;
      assert es[1..] == rest;
    }
  }

  lemma {:induction false} RecoveryExact(cfg: Config, s: Sys)
    requires Inv(cfg, s) && s.core.state == HalfOpen
    ensures 0 < cfg.maxRequests <==> exists es :: Legal(cfg, s, es) && Run(cfg, s, es).core.state == Closed
  {
    InvProbing(cfg, s);
    if 0 < cfg.maxRequests {
      var es := Recovery(cfg, s);
    } else {
      forall es | Legal(cfg, s, es) ensures Run(cfg, s, es).core.state != Closed {
        NoProbesNoRecovery(cfg, s, es);
      }
    }
  }

  // ---------- The probe rate after a trip ----------

  function Admissions(cfg: Config, s: Sys, es: seq<Event>): nat
    decreases |es|
  {
    if es == [] then 0
    else (if Admitted(cfg, s, es[0]) then 1 else 0) + Admissions(cfg, Next(cfg, s, es[0]), es[1..])
  }

  /** Half-open episodes that begin during the run. */
  function Episodes(cfg: Config, s: Sys, es: seq<Event>): nat
    decreases |es|
  {
    if es == [] then 0
    else
      var s' := Next(cfg, s, es[0]);
      (if s.core.state == Open && s'.core.state == HalfOpen then 1 else 0) + Episodes(cfg, s', es[1..])
  }

  /** The probes that the episode under way may still admit. */
  function Places(cfg: Config, s: Sys): int {
    if s.core.state == HalfOpen then cfg.maxRequests - s.core.counts.requests else 0
  }

  predicate NeverCloses(cfg: Config, s: Sys, es: seq<Event>)
    decreases |es|
  {
    s.core.state != Closed && (es != [] ==> NeverCloses(cfg, Next(cfg, s, es[0]), es[1..]))
  }

  /** The state right after a trip at `t`. */
  predicate Tripped(cfg: Config, s: Sys, t: int) {
    s.core.state == Open && s.core.expiry == At(t + cfg.timeout) && s.clock == t
  }

  /** All that the rate depends on; no counter of a breaker that is not closed can wrap. */
  ghost predicate Away(cfg: Config, s: Sys) {
    match s.core.state
    case Closed => true
    case Open => s.core.expiry.At? && s.core.expiry.instant - cfg.timeout <= s.clock
    case HalfOpen => s.core.counts.requests <= cfg.maxRequests
  }

  /** What a settlement can do to a breaker that is not closed. */
  lemma {:induction false} SettledAway(cfg: Config, c: Core, token: uint64, success: bool, now: int)
    requires c.state != Closed
    ensures var cur := Current(cfg, c, now);
      var d := Settled(cfg, c, token, success, now);
      || d.state == Closed
      || (d.state == Open && (d.expiry == At(now + cfg.timeout) || (cur.state == Open && d.expiry == cur.expiry)))
      || (d.state == HalfOpen == cur.state && d.counts.requests == cur.counts.requests)
  {
  }

  /** Whichever step opens the breaker, the timeout runs from that step. */
  lemma {:induction false} OpeningTrips(cfg: Config, s: Sys, e: Event)
    requires s.core.state != Open && Next(cfg, s, e).core.state == Open
    ensures e.Settle? && !e.success && Tripped(cfg, Next(cfg, s, e), e.now)
  {
  }

  lemma {:induction false} AdmissionBound(cfg: Config, s: Sys, es: seq<Event>)
    requires Away(cfg, s) && Legal(cfg, s, es) && NeverCloses(cfg, s, es)
    ensures Admissions(cfg, s, es) <= Times(cfg.maxRequests, Episodes(cfg, s, es)) + Places(cfg, s)
    decreases |es|
  {
    if es != [] {
      var s', rest := Next(cfg, s, es[0]), es[1..];
      AdmissionStep(cfg, s, es[0]);
      AdmissionBound(cfg, s', rest);
      var began := s.core.state == Open && s'.core.state == HalfOpen;
      var n, k := Admissions(cfg, s', rest), Episodes(cfg, s', rest);
      assert Admissions(cfg, s, es) == (if Admitted(cfg, s, es[0]) then 1 else 0) + n;
      assert Episodes(cfg, s, es) == if began then k + 1 else k;
      assert Times(cfg.maxRequests, k + 1) == Times(cfg.maxRequests, k) + cfg.maxRequests;
    }
  }

  /** Away from the closed state, an admission uses one of the `maxRequests` places of its episode. */
  lemma {:induction false} AdmissionStep(cfg: Config, s: Sys, e: Event)
    requires Away(cfg, s) && Enabled(s, e)
    requires s.core.state != Closed && Next(cfg, s, e).core.state != Closed
    ensures var s' := Next(cfg, s, e);
      var added := if s.core.state == Open && s'.core.state == HalfOpen then cfg.maxRequests else 0;
      && Away(cfg, s')
      && (if Admitted(cfg, s, e) then 1 else 0) + Places(cfg, s') <= Places(cfg, s) + added
  {
    if e.Settle? {
      SettledAway(cfg, s.core, e.token, e.success, e.now);
    }
  }

  /** Each episode costs more than one timeout, counted from the trip before it. */
  lemma {:induction false} EpisodeTime(cfg: Config, s: Sys, es: seq<Event>)
    requires Away(cfg, s) && Legal(cfg, s, es) && NeverCloses(cfg, s, es)
    ensures var k := Episodes(cfg, s, es);
      0 < k ==> Times(cfg.timeout, k) < Run(cfg, s, es).clock - Since(cfg, s)
    decreases |es|
  {
    if es != [] {
      var s', rest := Next(cfg, s, es[0]), es[1..];
      EpisodeStep(cfg, s, es[0]);
      EpisodeTime(cfg, s', rest);
      ClockMoves(cfg, s', rest);
      var began := s.core.state == Open && s'.core.state == HalfOpen;
      var k := Episodes(cfg, s', rest);
      assert Run(cfg, s, es) == Run(cfg, s', rest);
      assert Episodes(cfg, s, es) == if began then k + 1 else k;
      assert Times(cfg.timeout, k + 1) == Times(cfg.timeout, k) + cfg.timeout;
      SinceClock(cfg, s');
    }
  }

  /** Where the time of an episode is counted from. */
  function Since(cfg: Config, s: Sys): int {
    if s.core.state == Open && s.core.expiry.At? then s.core.expiry.instant - cfg.timeout else s.clock
  }

  lemma {:induction false} SinceClock(cfg: Config, s: Sys)
    requires Away(cfg, s)
    ensures Since(cfg, s) <= s.clock
  {
  }

  lemma {:induction false} EpisodeStep(cfg: Config, s: Sys, e: Event)
    requires Away(cfg, s) && Enabled(s, e)
    requires s.core.state != Closed && Next(cfg, s, e).core.state != Closed
    ensures var s' := Next(cfg, s, e);
      var waited := if s.core.state == Open && s'.core.state == HalfOpen then cfg.timeout + 1 else 0;
      Away(cfg, s') && Since(cfg, s) + waited <= Since(cfg, s')
  {
    match e
    case Begin(now) =>
    case Settle(token, success, now) => SettledAway(cfg, s.core, token, success, now);
    case Observe(now) =>
  }

  lemma {:induction false} ClockMoves(cfg: Config, s: Sys, es: seq<Event>)
    requires Legal(cfg, s, es)
    ensures s.clock <= Run(cfg, s, es).clock
    decreases |es|
  {
    if es != [] {
      ClockMoves(cfg, Next(cfg, s, es[0]), es[1..]);
    }
  }

  /** After a trip at `t`, and until the breaker closes: at most `maxRequests` admissions an episode, more than
      one timeout of waiting for each episode, and nothing at all up to and including `t + timeout`. */
  lemma {:induction false} ProbeRate(cfg: Config, s: Sys, t: int, es: seq<Event>)
    requires Legal(cfg, s, es) && Tripped(cfg, s, t) && NeverCloses(cfg, s, es)
    ensures var k := Episodes(cfg, s, es);
      var elapsed := Run(cfg, s, es).clock - t;
      && Admissions(cfg, s, es) <= cfg.maxRequests * k
      && (0 < k ==> k * cfg.timeout < elapsed)
      && (elapsed <= cfg.timeout ==> k == 0 == Admissions(cfg, s, es))
  {
    AdmissionBound(cfg, s, es);
    EpisodeTime(cfg, s, es);
    ClockMoves(cfg, s, es);
    TimesIsProduct(cfg.maxRequests, Episodes(cfg, s, es));
    TimesIsProduct(cfg.timeout, Episodes(cfg, s, es));
    AtLeastOnce(cfg.timeout, Episodes(cfg, s, es));
  }

  lemma {:induction false} AtLeastOnce(m: int, k: nat)
    ensures 0 < k && 0 <= m ==> m <= m * k
  {
    if 0 < k && 0 <= m {
      assert m * k == m + m * (k - 1);
    }
  }

  /** Put as a rate: fewer than `maxRequests` admissions for every timeout that passes. */
  lemma {:induction false} ProbeRateLaw(cfg: Config, s: Sys, t: int, es: seq<Event>)
    requires Legal(cfg, s, es) && Tripped(cfg, s, t) && NeverCloses(cfg, s, es) && 0 <= cfg.timeout
    ensures 0 < Admissions(cfg, s, es) ==>
        Admissions(cfg, s, es) * cfg.timeout < cfg.maxRequests * (Run(cfg, s, es).clock - t)
  {
    ProbeRate(cfg, s, t, es);
    RateFromEpisodes(Admissions(cfg, s, es), Episodes(cfg, s, es), cfg.maxRequests, cfg.timeout,
                     Run(cfg, s, es).clock - t);
  }

  lemma {:induction false} RateFromEpisodes(n: nat, k: nat, m: nat, timeout: int, elapsed: int)
    requires n <= m * k && 0 <= timeout && (0 < k ==> k * timeout < elapsed)
    ensures 0 < n ==> n * timeout < m * elapsed
  {
    if 0 < n {
      assert 0 < m * k;
      calc {
        n * timeout;
      <= { assert 0 <= (m * k - n) * timeout; }
        (m * k) * timeout;
      ==
        m * (k * timeout);
      <  { assert 0 < m * (elapsed - k * timeout); }
        m * elapsed;
      }
    }
  }
}

/** Runs that reach the corners of the breaker, for every configuration that can trip and recover. */
module BreakerScenarios {
  import opened GoInts
  import opened Breaker
  import opened BreakerRuns
  import opened BreakerObservers
  import BreakerRecovery

  /** `n` requests, one after the other, at one instant. */
  function Trials(token: uint64, success: bool, n: nat, now: int): seq<Event> {
    if n == 0 then [] else [Begin(now), Settle(token, success, now)] + Trials(token, success, n - 1, now)
  }

  /** `n` requests that begin and do not come back. */
  function Begins(n: nat, now: int): seq<Event> {
    if n == 0 then [] else [Begin(now)] + Begins(n - 1, now)
  }

  lemma {:induction false} RunOn(cfg: Config, s: Sys, es: seq<Event>, more: seq<Event>)
    requires Legal(cfg, s, es)
    ensures Legal(cfg, s, es + more) <==> Legal(cfg, Run(cfg, s, es), more)
    ensures Run(cfg, s, es + more) == Run(cfg, Run(cfg, s, es), more)
    decreases |es|
  {
    if es == [] {
      assert es + more == more;
    } else {
      assert (es + more)[1..] == es[1..] + more;
      RunOn(cfg, Next(cfg, s, es[0]), es[1..], more);
    }
  }

  /** A request that is let in and settles before anything else happens. */
  lemma {:induction false} TrialStep(cfg: Config, s: Sys, success: bool, now: int, more: seq<Event>)
    requires s.clock <= now && Current(cfg, s.core, now) == s.core && Admits(cfg, s.core)
    ensures var es := [Begin(now), Settle(s.core.generation, success, now)] + more;
      var s' := Next(cfg, Next(cfg, s, Begin(now)), Settle(s.core.generation, success, now));
      && s'.unsettled == s.unsettled
      && (Legal(cfg, s, es) <==> Legal(cfg, s', more))
      && Run(cfg, s, es) == Run(cfg, s', more)
  {
    var es := [Begin(now), Settle(s.core.generation, success, now)] + more;
    assert es[1..][1..] == more;
  }

  lemma {:induction false} FailureStep(cfg: Config, k: uint32, c: Core, now: int)
    requires TripsAt(cfg, k) && c.counts.consecutiveFailures < k
    requires c.state == Closed && !WindowOver(c, now)
    ensures var d := Settled(cfg, Requested(cfg, c, now), c.generation, false, now);
      if c.counts.consecutiveFailures + 1 == k
      then d == Core(Open, Inc64(c.generation), NO_COUNTS, At(now + cfg.timeout))
      else
        && d.state == Closed && d.generation == c.generation && d.expiry == c.expiry
        && d.counts.consecutiveFailures == c.counts.consecutiveFailures + 1
  {
  }

  /** The failures that are missing to the threshold open a closed breaker, if they all come inside its window. */
  lemma {:induction false} FailuresTrip(cfg: Config, k: uint32, s: Sys, n: nat, now: int)
    requires TripsAt(cfg, k) && 0 < n && s.core.counts.consecutiveFailures + n == k
    requires s.core.state == Closed && !WindowOver(s.core, now) && s.clock <= now
    ensures var es := Trials(s.core.generation, false, n, now);
      var s' := Run(cfg, s, es);
      && Legal(cfg, s, es)
      && s'.core == Core(Open, Inc64(s.core.generation), NO_COUNTS, At(now + cfg.timeout))
      && s'.unsettled == s.unsettled && s'.clock == now
    decreases n
  {
    var g := s.core.generation;
    var rest := Trials(g, false, n - 1, now);
    var s' := Next(cfg, Next(cfg, s, Begin(now)), Settle(g, false, now));
    TrialStep(cfg, s, false, now, rest);
    FailureStep(cfg, k, s.core, now);
    if n != 1 {
      FailuresTrip(cfg, k, s', n - 1, now);
    }
  }

  lemma {:induction false} SuccessStep(cfg: Config, c: Core, now: int)
    requires c.state == HalfOpen && c.counts.requests < cfg.maxRequests
    ensures var d := Settled(cfg, Requested(cfg, c, now), c.generation, true, now);
      if c.counts.requests + 1 == cfg.maxRequests
      then d == NewGeneration(cfg, c.(state := Closed), now)
      else
        && d.state == HalfOpen && d.generation == c.generation && d.expiry == c.expiry
        && d.counts.requests == c.counts.requests + 1
  {
  }

  /** The successes that are missing to `maxRequests` close a half-open one. */
  lemma {:induction false} SuccessesClose(cfg: Config, s: Sys, n: nat, now: int)
    requires s.core.state == HalfOpen && 0 < n && s.core.counts.requests + n == cfg.maxRequests && s.clock <= now
    ensures var es := Trials(s.core.generation, true, n, now);
      var s' := Run(cfg, s, es);
      && Legal(cfg, s, es)
      && s'.core == NewGeneration(cfg, s.core.(state := Closed), now)
      && s'.clock == now
    decreases n
  {
    var g := s.core.generation;
    var rest := Trials(g, true, n - 1, now);
    var s' := Next(cfg, Next(cfg, s, Begin(now)), Settle(g, true, now));
    TrialStep(cfg, s, true, now, rest);
    SuccessStep(cfg, s.core, now);
    if n != 1 {
      SuccessesClose(cfg, s', n - 1, now);
    }
  }

  // ---------- Requests given to `Execute` ----------

  datatype Job = Job(outcome: Outcome, begin: int, end: int)

  /** One after the other. */
  function ExecutedAll(cfg: Config, c: Core, jobs: seq<Job>): Core
    decreases |jobs|
  {
    if jobs == [] then c
    else ExecutedAll(cfg, Executed(cfg, c, jobs[0].outcome, jobs[0].begin, jobs[0].end), jobs[1..])
  }

  /** However many requests return, and whenever, a closed breaker stays closed. */
  lemma {:induction false} ReturnsKeepClosed(cfg: Config, c: Core, jobs: seq<Job>)
    requires c.state == Closed && forall job :: job in jobs ==> job.outcome == Returned
    ensures ExecutedAll(cfg, c, jobs).state == Closed
    decreases |jobs|
  {
    if jobs != [] {
      assert jobs[0] in jobs;
      ReturnsKeepClosed(cfg, Executed(cfg, c, Returned, jobs[0].begin, jobs[0].end), jobs[1..]);
    }
  }

  ghost predicate InsideWindow(c: Core, job: Job) {
    !WindowOver(c, job.begin) && !WindowOver(c, job.end)
  }

  /** One request inside the window: a return is counted as a success and ends the row of failures, an error or a panic
      makes it longer. */
  lemma {:induction false} JobStep(cfg: Config, k: uint32, c: Core, job: Job)
    requires TripsAt(cfg, k) && c.state == Closed && InsideWindow(c, job) && c.counts.consecutiveFailures < k
    ensures var d := Executed(cfg, c, job.outcome, job.begin, job.end);
      if job.outcome != Returned && c.counts.consecutiveFailures + 1 == k
      then d.state == Open && d.expiry == At(job.end + cfg.timeout)
      else
        && d.state == Closed && d.generation == c.generation && d.expiry == c.expiry
        && d.counts.requests == Inc32(c.counts.requests)
        && (job.outcome == Returned ==>
              d.counts.consecutiveFailures == 0 && d.counts.totalSuccesses == Inc32(c.counts.totalSuccesses))
        && (job.outcome != Returned ==>
              && d.counts.consecutiveFailures == c.counts.consecutiveFailures + 1
              && d.counts.totalSuccesses == c.counts.totalSuccesses)
  {
  }

  /** Requests that err or panic in a row, all inside the window: the one that makes it `k` opens the breaker, and none
      before it does. */
  lemma {:induction false} FailuresInARow(cfg: Config, k: uint32, c: Core, jobs: seq<Job>)
    requires TripsAt(cfg, k) && c.state == Closed && c.counts.consecutiveFailures < k
    requires c.counts.consecutiveFailures + |jobs| <= k
    requires forall job :: job in jobs ==> job.outcome != Returned && InsideWindow(c, job)
    ensures var d := ExecutedAll(cfg, c, jobs);
      d.state == if c.counts.consecutiveFailures + |jobs| == k then Open else Closed
    decreases |jobs|
  {
    if jobs != [] {
      var job := jobs[0];
      assert job in jobs;
      JobStep(cfg, k, c, job);
      if c.counts.consecutiveFailures + 1 == k {
        assert jobs[1..] == [];
      } else {
        FailuresInARow(cfg, k, Executed(cfg, c, job.outcome, job.begin, job.end), jobs[1..]);
      }
    }
  }

  /** From a new breaker to its first half-open episode: failures up to the threshold, and a look when the timeout
      is over. */
  function ToHalfOpen(cfg: Config, k: uint32): seq<Event> {
    Trials(0, false, k, 0) + [Observe(cfg.timeout + 1)]
  }

  lemma {:induction false} HalfOpenReached(cfg: Config, k: uint32)
    requires TripsAt(cfg, k) && 0 < k && 0 <= cfg.timeout
    ensures var es := ToHalfOpen(cfg, k);
      var s := Run(cfg, Start(0), es);
      && Legal(cfg, Start(0), es)
      && s.core == Core(HalfOpen, 2, NO_COUNTS, Zero)
      && s.unsettled == multiset{} && s.clock == cfg.timeout + 1
  {
    var fails, look := Trials(0, false, k, 0), Observe(cfg.timeout + 1);
    var tripped := Run(cfg, Start(0), fails);
    FailuresTrip(cfg, k, Start(0), k, 0);
    RunOn(cfg, Start(0), fails, [look]);
    assert Run(cfg, tripped, [look]) == Next(cfg, tripped, look);
  }

  /** And on to the closed state, with as many successes as it takes. */
  function ToRecovered(cfg: Config, k: uint32): seq<Event> {
    ToHalfOpen(cfg, k) + Trials(2, true, cfg.maxRequests, cfg.timeout + 1)
  }

  lemma {:induction false} RecoveredReached(cfg: Config, k: uint32)
    requires TripsAt(cfg, k) && 0 < k && 0 <= cfg.timeout && 0 < cfg.maxRequests
    ensures Legal(cfg, Start(0), ToRecovered(cfg, k))
    ensures var s := Run(cfg, Start(0), ToRecovered(cfg, k));
      && s.core == NewGeneration(cfg, Core(Closed, 2, NO_COUNTS, Zero), cfg.timeout + 1)
      && s.clock == cfg.timeout + 1
  {
    HalfOpenReached(cfg, k);
    Recovered(cfg, Start(0), ToHalfOpen(cfg, k), cfg.timeout + 1);
  }

  lemma {:induction false} Recovered(cfg: Config, start: Sys, es: seq<Event>, now: int)
    requires Legal(cfg, start, es) && 0 < cfg.maxRequests
    requires var s := Run(cfg, start, es); s.core == Core(HalfOpen, 2, NO_COUNTS, Zero) && s.clock <= now
    ensures var more := Trials(2, true, cfg.maxRequests, now);
      var s := Run(cfg, start, es + more);
      && Legal(cfg, start, es + more)
      && s.core == NewGeneration(cfg, Core(Closed, 2, NO_COUNTS, Zero), now)
      && s.clock == now
  {
    RunOn(cfg, start, es, Trials(2, true, cfg.maxRequests, now));
    SuccessesClose(cfg, Run(cfg, start, es), cfg.maxRequests, now);
  }

  /** With an interval, windows that can be rolled do come about: after the first recovery. */
  lemma {:induction false} RollingReached(cfg: Config, k: uint32, s: Sys)
    requires TripsAt(cfg, k) && 0 < k && 0 <= cfg.timeout && 0 < cfg.maxRequests && 0 < cfg.interval
    requires s == Run(cfg, Start(0), ToRecovered(cfg, k))
    ensures Legal(cfg, Start(0), ToRecovered(cfg, k))
    ensures var due := cfg.timeout + 1 + cfg.interval;
      && s.core == Core(Closed, 3, NO_COUNTS, At(due))
      && s.clock <= due && !Rolls(cfg, s, Observe(due)) && Rolls(cfg, s, Observe(due + 1))
  {
    RecoveredReached(cfg, k);
  }

  lemma {:induction false} ProbesInFlight(cfg: Config, s: Sys, n: nat, now: int)
    requires s.core.state == HalfOpen && s.core.counts.requests + n <= cfg.maxRequests && s.clock <= now
    ensures var es := Begins(n, now);
      var s' := Run(cfg, s, es);
      && Legal(cfg, s, es)
      && s'.core == s.core.(counts := s.core.counts.(requests := s.core.counts.requests + n))
      && s'.unsettled[s.core.generation] == s.unsettled[s.core.generation] + n
      && s'.history == s.history && s'.clock <= now
    decreases n
  {
    if n != 0 {
      var es := Begins(n, now);
      assert es[1..] == Begins(n - 1, now);
      ProbesInFlight(cfg, Next(cfg, s, Begin(now)), n - 1, now);
    }
  }

  lemma {:induction false} AllInFlight(cfg: Config, k: uint32)
    requires TripsAt(cfg, k) && 0 < k && 0 <= cfg.timeout
    ensures var es := ToHalfOpen(cfg, k) + Begins(cfg.maxRequests, cfg.timeout + 1);
      var s := Run(cfg, Start(0), es);
      && Legal(cfg, Start(0), es)
      && s.core == Core(HalfOpen, 2, NO_COUNTS.(requests := cfg.maxRequests), Zero)
      && s.unsettled[2] == cfg.maxRequests && s.clock <= cfg.timeout + 1
  {
    HalfOpenReached(cfg, k);
    RunOn(cfg, Start(0), ToHalfOpen(cfg, k), Begins(cfg.maxRequests, cfg.timeout + 1));
    ProbesInFlight(cfg, Run(cfg, Start(0), ToHalfOpen(cfg, k)), cfg.maxRequests, cfg.timeout + 1);
  }

  /** The closing test counts requests, not successes: with all probes in flight, the first one to succeed passes for
      `maxRequests` successes and closes the breaker while the others are still out. */
  lemma {:induction false} OneSuccessCloses(cfg: Config, k: uint32, s: Sys)
    requires TripsAt(cfg, k) && 0 < k && 0 <= cfg.timeout && 0 < cfg.maxRequests
    requires s == Run(cfg, Start(0), ToHalfOpen(cfg, k) + Begins(cfg.maxRequests, cfg.timeout + 1))
    ensures Legal(cfg, Start(0), ToHalfOpen(cfg, k) + Begins(cfg.maxRequests, cfg.timeout + 1))
    ensures var success := Settle(2, true, cfg.timeout + 1);
      var s' := Next(cfg, s, success);
      var counts := Tallied(s.core.counts, true);
      && Enabled(s, success)
      && s.core.state == HalfOpen && s'.core.state == Closed
      && counts.totalSuccesses == 1 && counts.Successes() == cfg.maxRequests
      && s'.unsettled[2] == cfg.maxRequests - 1
  {
    AllInFlight(cfg, k);
    assert s.core == Core(HalfOpen, 2, NO_COUNTS.(requests := cfg.maxRequests), Zero);
    BreakerRecovery.ClosingExact(cfg, s, Settle(2, true, cfg.timeout + 1));
  }

  /** Both happen to the breaker of every backend: five failures, thirty seconds, and then three successes, or one
      success with two probes in flight. */
  lemma {:induction false} BackendScenarios()
    ensures var es := ToRecovered(BACKEND_CONFIG, 5);
      && Legal(BACKEND_CONFIG, Start(0), es)
      && Rolls(BACKEND_CONFIG, Run(BACKEND_CONFIG, Start(0), es), Observe(40 * SECOND + 2))
    ensures var es := ToHalfOpen(BACKEND_CONFIG, 5) + Begins(3, 30 * SECOND + 1);
      var s' := Next(BACKEND_CONFIG, Run(BACKEND_CONFIG, Start(0), es), Settle(2, true, 30 * SECOND + 1));
      && Legal(BACKEND_CONFIG, Start(0), es)
      && s'.core.state == Closed && s'.unsettled[2] == 2
  {
    ConfiguredThresholds();
    RollingReached(BACKEND_CONFIG, 5, Run(BACKEND_CONFIG, Start(0), ToRecovered(BACKEND_CONFIG, 5)));
    OneSuccessCloses(BACKEND_CONFIG, 5,
      Run(BACKEND_CONFIG, Start(0), ToHalfOpen(BACKEND_CONFIG, 5) + Begins(3, 30 * SECOND + 1)));
  }
}

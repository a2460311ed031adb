/** `State()` is a reader that writes: when is calling it invisible to everybody else? */
module BreakerObservers {
  import opened GoInts
  import opened Breaker
  import opened BreakerRuns

  /** The one lazy transition whose effect does not depend on when it is taken. */
  function Ripened(cfg: Config, c: Core, now: int): Core {
    if c.state == Open && c.expiry.Before(now) then Moved(cfg, c, HalfOpen, now) else c
  }

  /** Equal but for a breaker that is due to leave the open state and has not been looked at yet. */
  predicate Alike(cfg: Config, a: Sys, b: Sys, now: int) {
    && Ripened(cfg, a.core, now) == Ripened(cfg, b.core, now)
    && a.unsettled == b.unsettled
    && a.history == b.history
  }

  predicate Rolls(cfg: Config, s: Sys, e: Event) {
    e.Observe? && cfg.interval != 0 && WindowOver(s.core, e.now)
  }

  /** No observation of the run comes upon a closed window that is over. */
  predicate Unobtrusive(cfg: Config, s: Sys, es: seq<Event>)
    decreases |es|
  {
    es == [] || (!Rolls(cfg, s, es[0]) && Unobtrusive(cfg, Next(cfg, s, es[0]), es[1..]))
  }

  function Requests(es: seq<Event>): seq<Event> {
    if es == [] then []
    else (if es[0].Observe? then [] else [es[0]]) + Requests(es[1..])
  }

  /** What the callers see: for each request the decision and the token, for each settlement whether it was
      counted, and in both cases the breaker it leaves behind. */
  datatype Output = Output(admitted: bool, token: uint64, counted: bool, after: Core)

  function Seen(cfg: Config, s: Sys, e: Event): Output {
    var cur := Current(cfg, s.core, e.now);
    var next := Next(cfg, s, e).core;
    Output(Admitted(cfg, s, e), cur.generation, e.Settle? && e.token == cur.generation, next)
  }

  function Outputs(cfg: Config, s: Sys, es: seq<Event>): seq<Output>
    decreases |es|
  {
    if es == [] then []
    else
      (if es[0].Observe? then [] else [Seen(cfg, s, es[0])]) + Outputs(cfg, Next(cfg, s, es[0]), es[1..])
  }

  lemma {:induction false} RipeningKeeps(cfg: Config, c: Core, now: int, later: int)
    requires now <= later
    ensures Ripened(cfg, Ripened(cfg, c, now), later) == Ripened(cfg, c, later)
    ensures Current(cfg, Ripened(cfg, c, now), later) == Current(cfg, c, later)
    ensures Ripened(cfg, Current(cfg, c, now), now) == Current(cfg, c, now)
  {
  }

  /** Breakers that are alike answer alike and stay alike. */
  lemma {:induction false} SameStep(cfg: Config, a: Sys, b: Sys, now: int, e: Event)
    requires Alike(cfg, a, b, now) && now <= e.now
    ensures Seen(cfg, a, e) == Seen(cfg, b, e)
    ensures Alike(cfg, Next(cfg, a, e), Next(cfg, b, e), e.now)
  {
    RipeningKeeps(cfg, a.core, now, e.now);
    RipeningKeeps(cfg, b.core, now, e.now);
  }

  /** Without an interval no window has a deadline; nothing else is needed of the breaker's past. */
  predicate NoStrayDeadline(cfg: Config, c: Core) {
    cfg.interval == 0 && c.state == Closed ==> c.expiry == Zero
  }

  lemma {:induction false} HiddenObservation(cfg: Config, a: Sys, b: Sys, now: int, e: Event)
    requires Alike(cfg, a, b, now) && now <= e.now && e.Observe? && !Rolls(cfg, a, e)
    requires NoStrayDeadline(cfg, a.core)
    ensures Alike(cfg, Next(cfg, a, e), b, e.now)
  {
    RipeningKeeps(cfg, a.core, now, e.now);
    RipeningKeeps(cfg, b.core, now, e.now);
  }

  /** Taking the observations out of a run changes no decision, no token and no count, as long as none of them
      rolls a closed window. The two systems stay alike to the end. */
  lemma {:induction false} Transparency(cfg: Config, a: Sys, b: Sys, now: int, es: seq<Event>)
    requires NoStrayDeadline(cfg, a.core) && Legal(cfg, a, es)
    requires a.clock == now && Alike(cfg, a, b, now) && b.clock <= now && Unobtrusive(cfg, a, es)
    ensures Legal(cfg, b, Requests(es))
    ensures Outputs(cfg, a, es) == Outputs(cfg, b, Requests(es))
    ensures var a' := Run(cfg, a, es);
      var b' := Run(cfg, b, Requests(es));
      b'.clock <= a'.clock && Alike(cfg, a', b', a'.clock)
    decreases |es|
  {
    if es != [] {
      var e, rest := es[0], es[1..];
      if e.Observe? {
        HiddenObservation(cfg, a, b, now, e);
        Transparency(cfg, Next(cfg, a, e), b, e.now, rest);
        assert Requests(es) == Requests(rest);
      } else {
        SameStep(cfg, a, b, now, e);
        Transparency(cfg, Next(cfg, a, e), Next(cfg, b, e), e.now, rest);
        assert Requests(es) == [e] + Requests(rest);
        assert Requests(es)[1..] == Requests(rest);
      }
    }
  }

  lemma {:induction false} NoIntervalUnobtrusive(cfg: Config, s: Sys, es: seq<Event>)
    requires cfg.interval == 0
    ensures Unobtrusive(cfg, s, es)
    decreases |es|
  {
    if es != [] {
      NoIntervalUnobtrusive(cfg, Next(cfg, s, es[0]), es[1..]);
    }
  }

  /** Without an interval, any number of `State()` calls anywhere in a run is invisible. */
  lemma {:induction false} TransparentWithoutInterval(cfg: Config, s: Sys, es: seq<Event>)
    requires cfg.interval == 0 && NoStrayDeadline(cfg, s.core) && Legal(cfg, s, es)
    ensures Legal(cfg, s, Requests(es)) && Outputs(cfg, s, es) == Outputs(cfg, s, Requests(es))
  {
    NoIntervalUnobtrusive(cfg, s, es);
    Transparency(cfg, s, s, s.clock, es);
  }

  /** The condition is exact for each call: an observation goes unnoticed at every later instant if and only if
      it does not roll a closed window. */
  lemma {:induction false} ObservationExact(cfg: Config, s: Sys, now: int)
    requires NoStrayDeadline(cfg, s.core)
    ensures !Rolls(cfg, s, Observe(now)) <==>
        forall later | now <= later :: Current(cfg, Current(cfg, s.core, now), later) == Current(cfg, s.core, later)
  {
    if Rolls(cfg, s, Observe(now)) {
      var next := Current(cfg, Current(cfg, s.core, now), now + 1);
      assert next != Current(cfg, s.core, now + 1);
    } else {
      forall later | now <= later
        ensures Current(cfg, Current(cfg, s.core, now), later) == Current(cfg, s.core, later)
      {
        RipeningKeeps(cfg, s.core, now, later);
      }
    }
  }

  /** Rolling shows: with a positive interval, two requests can tell whether the observation took place. */
  lemma {:induction false} RollingIsSeen(cfg: Config, s: Sys, now: int)
    requires 0 < cfg.interval && Rolls(cfg, s, Observe(now))
    ensures var first, second := Begin(now + 1), Begin(now + cfg.interval + 1);
      var observed := Next(cfg, s, Observe(now));
      && Seen(cfg, s, first).token == Seen(cfg, observed, first).token
      && Seen(cfg, Next(cfg, s, first), second).token == Inc64(s.core.generation)
      && Seen(cfg, Next(cfg, observed, first), second).token == Inc64(Inc64(s.core.generation))
  {
  }
}

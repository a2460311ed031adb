/** The circuit breaker of `loadbalancer/circuitbreaker.go`.

    The functions on `Core` describe what one locked section does to the breaker's fields;
    the class `CircuitBreaker` updates the fields step by step and is proved against them.
    Instants and durations are in nanoseconds. */
module Breaker {
  import opened GoInts

  const SECOND := 1_000_000_000

  datatype State = Closed | Open | HalfOpen

  datatype Counts = Counts(
    requests: uint32,
    totalSuccesses: uint32,
    totalFailures: uint32,
    consecutiveSuccesses: uint32,
    consecutiveFailures: uint32)
  {
    function Successes(): uint32 { Sub32(requests, consecutiveFailures) }
  }

  const NO_COUNTS := Counts(0, 0, 0, 0, 0)

  /** A `time.Time`: the zero time lies before every reading of the clock. */
  datatype Deadline = Zero | At(instant: int)
  {
    predicate Before(now: int) { At? ==> instant < now }
  }

  datatype Config = Config(maxRequests: uint32, interval: int, timeout: int, readyToTrip: Counts -> bool)

  /** What `NewCircuitBreaker` uses when no option is given. */
  const DEFAULT_CONFIG := Config(1, 60 * SECOND, 60 * SECOND, (c: Counts) => c.consecutiveFailures > 5)

  /** What `main` and the Consul rebuild give every backend. */
  const BACKEND_CONFIG := Config(3, 10 * SECOND, 30 * SECOND, (c: Counts) => c.consecutiveFailures >= 5)

  /** The predicate of `cfg` is "at least `k` failures in a row". */
  ghost predicate TripsAt(cfg: Config, k: nat) {
    forall c :: cfg.readyToTrip(c) <==> c.consecutiveFailures >= k
  }

  datatype Core = Core(state: State, generation: uint64, counts: Counts, expiry: Deadline)

  const NEW_CORE := Core(Closed, 0, NO_COUNTS, Zero)

  function NewGeneration(cfg: Config, c: Core, now: int): Core {
    var expiry :=
      match c.state
      case Closed => if cfg.interval == 0 then Zero else At(now + cfg.interval)
      case Open => At(now + cfg.timeout)
      case HalfOpen => Zero;
    Core(c.state, Inc64(c.generation), NO_COUNTS, expiry)
  }

  function Moved(cfg: Config, c: Core, state: State, now: int): Core {
    if c.state == state then c else NewGeneration(cfg, c.(state := state), now)
  }

  /** A closed window with a deadline that has passed. */
  predicate WindowOver(c: Core, now: int) {
    c.state == Closed && c.expiry.At? && c.expiry.Before(now)
  }

  /** The lazy, time-driven transitions. */
  function Current(cfg: Config, c: Core, now: int): Core {
    if WindowOver(c, now) then NewGeneration(cfg, c, now)
    else if c.state == Open && c.expiry.Before(now) then Moved(cfg, c, HalfOpen, now)
    else c
  }

  /** Whether a breaker that is up to date lets a request in. */
  predicate Admits(cfg: Config, c: Core) {
    c.state == Closed || (c.state == HalfOpen && c.counts.requests < cfg.maxRequests)
  }

  function Requested(cfg: Config, c: Core, now: int): Core {
    var cur := Current(cfg, c, now);
    if Admits(cfg, cur) then cur.(counts := cur.counts.(requests := Inc32(cur.counts.requests))) else cur
  }

  /** The counters after one more outcome. */
  function Tallied(c: Counts, success: bool): Counts {
    if success
    then Counts(c.requests, Inc32(c.totalSuccesses), c.totalFailures, Inc32(c.consecutiveSuccesses), 0)
    else Counts(c.requests, c.totalSuccesses, Inc32(c.totalFailures), 0, Inc32(c.consecutiveFailures))
  }

  function Succeeded(cfg: Config, c: Core, now: int): Core {
    var d := c.(counts := Tallied(c.counts, true));
    if c.state == HalfOpen && d.counts.Successes() >= cfg.maxRequests then Moved(cfg, d, Closed, now) else d
  }

  function Failed(cfg: Config, c: Core, now: int): Core {
    var d := c.(counts := Tallied(c.counts, false));
    if (c.state == Closed && cfg.readyToTrip(d.counts)) || c.state == HalfOpen
    then Moved(cfg, d, Open, now)
    else d
  }

  function Settled(cfg: Config, c: Core, token: uint64, success: bool, now: int): Core {
    var cur := Current(cfg, c, now);
    if cur.generation != token then cur
    else if success then Succeeded(cfg, cur, now)
    else Failed(cfg, cur, now)
  }

  /** How a request given to `Execute` ends. */
  datatype Outcome = Returned | Errored | Panicked

  /** A request from beginning to end: the token it is admitted with settles once, whatever becomes of it. */
  function Executed(cfg: Config, c: Core, outcome: Outcome, begin: int, end: int): Core {
    var mid := Requested(cfg, c, begin);
    if Admits(cfg, Current(cfg, c, begin)) then Settled(cfg, mid, mid.generation, outcome == Returned, end) else mid
  }

  class CircuitBreaker {
    const config: Config
    var state: State
    var generation: uint64
    var counts: Counts
    var expiry: Deadline

    ghost function View(): Core
      reads this
    {
      Core(state, generation, counts, expiry)
    }

    constructor (config: Config)
      ensures this.config == config && View() == NEW_CORE
    {
      this.config := config;
      state, generation, counts, expiry := Closed, 0, NO_COUNTS, Zero;
    }

    method ToNewGeneration(now: int)
      modifies this
      ensures View() == NewGeneration(config, old(View()), now)
    {
      generation := Inc64(generation);
      counts := NO_COUNTS;
      match state {
        case Closed =>
          if config.interval == 0 {
            expiry := Zero;
          } else {
            expiry := At(now + config.interval);
          }
        case Open => expiry := At(now + config.timeout);
        case HalfOpen => expiry := Zero;
      }
    }

    method SetState(next: State, now: int)
      modifies this
      ensures View() == Moved(config, old(View()), next, now)
    {
      if state == next {
        return;
      }
      state := next;
      ToNewGeneration(now);
    }

    method CurrentState(now: int) returns (s: State, g: uint64)
      modifies this
      ensures View() == Current(config, old(View()), now)
      ensures s == state && g == generation
    {
      match state {
        case Closed =>
          if expiry.At? && expiry.Before(now) {
            ToNewGeneration(now);
          }
        case Open =>
          if expiry.Before(now) {
            SetState(HalfOpen, now);
          }
        case HalfOpen =>
      }
      s, g := state, generation;
    }

    method BeforeRequest(now: int) returns (admitted: bool, token: uint64)
      modifies this
      ensures View() == Requested(config, old(View()), now)
      ensures admitted == Admits(config, Current(config, old(View()), now))
      ensures token == generation
    {
      var s, g := CurrentState(now);
      if s == Open || (s == HalfOpen && counts.requests >= config.maxRequests) {
        return false, g;
      }
      counts := counts.(requests := Inc32(counts.requests));
      return true, g;
    }

    method OnSuccess(s: State, now: int)
      requires s == state
      modifies this
      ensures View() == Succeeded(config, old(View()), now)
    {
      counts := counts.(
        totalSuccesses := Inc32(counts.totalSuccesses),
        consecutiveSuccesses := Inc32(counts.consecutiveSuccesses),
        consecutiveFailures := 0);
      if s == HalfOpen && counts.Successes() >= config.maxRequests {
        SetState(Closed, now);
      }
    }

    method OnFailure(s: State, now: int)
      requires s == state
      modifies this
      ensures View() == Failed(config, old(View()), now)
    {
      counts := counts.(
        totalFailures := Inc32(counts.totalFailures),
        consecutiveFailures := Inc32(counts.consecutiveFailures),
        consecutiveSuccesses := 0);
      match s {
        case Closed =>
          if config.readyToTrip(counts) {
            SetState(Open, now);
          }
        case HalfOpen => SetState(Open, now);
        case Open =>
      }
    }

    method AfterRequest(before: uint64, success: bool, now: int)
      modifies this
      ensures View() == Settled(config, old(View()), before, success, now)
    {
      var s, g := CurrentState(now);
      if g != before {
        return;
      }
      if success {
        OnSuccess(s, now);
      } else {
        OnFailure(s, now);
      }
    }

    /** `State()`: a reader that may still move the breaker. */
    method GetState(now: int) returns (s: State)
      modifies this
      ensures View() == Current(config, old(View()), now)
      ensures s == state
    {
      var g;
      s, g := CurrentState(now);
    }

    /** One request that no other request overlaps. A panic settles the token as a failure before it goes on. */
    method Execute(outcome: Outcome, begin: int, end: int) returns (rejected: bool)
      modifies this
      ensures rejected == !Admits(config, Current(config, old(View()), begin))
      ensures View() == Executed(config, old(View()), outcome, begin, end)
    {
      var admitted, token := BeforeRequest(begin);
      if !admitted {
        return true;
      }
      AfterRequest(token, outcome == Returned, end);
      return false;
    }
  }
}

/** One backend of `serverpool.go`: its running averages and its score. */
module Backends {
  import opened Breaker

  datatype Averages = Averages(latency: real, success: real)

  const NO_AVERAGES := Averages(0.0, 0.0)

  datatype Sample = Sample(seconds: real, success: bool)

  function Recorded(a: Averages, s: Sample): Averages {
    var latency := if a.latency == 0.0 then s.seconds else 0.2 * s.seconds + 0.8 * a.latency;
    var base := if a.success == 0.0 then 1.0 else a.success;
    Averages(latency, 0.1 * (if s.success then 1.0 else 0.0) + 0.9 * base)
  }

  function History(samples: seq<Sample>): Averages {
    if samples == [] then NO_AVERAGES
    else Recorded(History(samples[..|samples| - 1]), samples[|samples| - 1])
  }

  /** After any samples at all, the latency average lies within every range that holds them, and the success
      average within (0, 1]. */
  lemma {:induction false} AveragesInRange(samples: seq<Sample>, low: real, high: real)
    requires samples != [] && forall s :: s in samples ==> low <= s.seconds <= high
    ensures low <= History(samples).latency <= high
    ensures 0.0 < History(samples).success <= 1.0
    decreases |samples|
  {
    var before, last := samples[..|samples| - 1], samples[|samples| - 1];
    assert last in samples;
    if before != [] {
      AveragesInRange(before, low, high);
    }
  }

  /** `factor` multiplied `n` times onto `x`. */
  function Shrunk(x: real, factor: real, n: nat): real {
    if n == 0 then x else factor * Shrunk(x, factor, n - 1)
  }

  /** Samples all alike. */
  function Repeat(s: Sample, n: nat): seq<Sample> {
    if n == 0 then [] else Repeat(s, n - 1) + [s]
  }

  predicate Timed(samples: seq<Sample>) {
    forall x :: x in samples ==> 0.0 < x.seconds
  }

  /** Every sample but the first moves the latency a fifth of the way to it, and every sample moves the success a tenth
      of the way to one or to zero, starting from one. */
  lemma {:induction false} SampleMoves(before: seq<Sample>, s: Sample)
    requires Timed(before)
    ensures var a, b := History(before), History(before + [s]);
      && (before == [] ==> b.latency == s.seconds)
      && (before != [] ==> 5.0 * (b.latency - a.latency) == s.seconds - a.latency)
      && var rate := if before == [] then 1.0 else a.success;
         10.0 * (b.success - rate) == (if s.success then 1.0 else 0.0) - rate
  {
    assert (before + [s])[..|before|] == before;
    if before != [] {
      LatencyPositive(before);
      SuccessPositive(before);
    }
  }

  lemma {:induction false} LatencyPositive(samples: seq<Sample>)
    requires samples != [] && Timed(samples)
    ensures 0.0 < History(samples).latency
    decreases |samples|
  {
    var before, last := samples[..|samples| - 1], samples[|samples| - 1];
    assert last in samples;
    if before != [] {
      LatencyPositive(before);
    }
  }

  lemma {:induction false} SuccessPositive(samples: seq<Sample>)
    requires samples != []
    ensures 0.0 < History(samples).success
    decreases |samples|
  {
    var before := samples[..|samples| - 1];
    if before != [] {
      SuccessPositive(before);
    }
  }

  lemma {:induction false} SettlingStep(before: seq<Sample>, s: Sample)
    requires before != [] && Timed(before) && 0.0 < s.seconds
    ensures var a, b := History(before), History(before + [s]);
      && b.latency - s.seconds == 0.8 * (a.latency - s.seconds)
      && (s.success ==> 1.0 - b.success == 0.9 * (1.0 - a.success))
      && (!s.success ==> b.success == 0.9 * a.success)
  {
    SampleMoves(before, s);
  }

  /** Whatever came before, `n` samples alike bring the latency down to 0.8^n of its distance from them, and the success
      average to 0.9^n of its distance from one or from zero. */
  lemma {:induction false} Settling(before: seq<Sample>, s: Sample, n: nat)
    requires before != [] && Timed(before) && 0.0 < s.seconds
    ensures var a, b := History(before), History(before + Repeat(s, n));
      && b.latency - s.seconds == Shrunk(a.latency - s.seconds, 0.8, n)
      && (s.success ==> 1.0 - b.success == Shrunk(1.0 - a.success, 0.9, n))
      && (!s.success ==> b.success == Shrunk(a.success, 0.9, n))
  {
    if n == 0 {
      assert before + Repeat(s, 0) == before;
    } else {
      var so := before + Repeat(s, n - 1);
      Settling(before, s, n - 1);
      assert before + Repeat(s, n) == so + [s];
      RepeatMembers(s, n - 1);
      SettlingStep(so, s);
    }
  }

  lemma {:induction false} RepeatMembers(s: Sample, n: nat)
    ensures forall x :: x in Repeat(s, n) ==> x == s
  {
    if n != 0 {
      RepeatMembers(s, n - 1);
    }
  }

  /** What the proxied call did: it wrote a status, or it panicked. */
  datatype Response = Status(code: int) | Panic

  /** How that looks to the breaker: the function it executes returns no error, whatever the status. */
  function OutcomeOf(r: Response): Outcome {
    if r.Panic? then Panicked else Returned
  }

  /** Success by status, a missing one standing for a bad gateway. */
  predicate IsSuccess(r: Response) {
    r.Status? && (if r.code == 0 then 502 else r.code) < 500
  }

  /** A score is a number, or the top value that no candidate is chosen at. */
  datatype Score = Finite(value: real) | Top
  {
    predicate Below(other: Score) { Finite? && (other.Top? || value < other.value) }
  }

  function Max(x: real, y: real): real {
    if x < y then y else x
  }

  function ScoreIn(a: Averages, weight: int, active: int, state: State): Score {
    if state == Open then Top
    else
      var latency := if a.latency == 0.0 then 0.1 else a.latency;
      var base := latency / Max(weight as real, 1.0);
      var penalty := 1.0 / Max(a.success, 0.1);
      var load := 1.0 + active as real;
      Finite(base * penalty * load * if state == HalfOpen then 2.0 else 1.0)
  }

  /** Only an open breaker puts a backend out of the running, and of two otherwise equal backends the one with fewer
      connections, or with the closed rather than the half-open breaker, scores lower. */
  lemma {:induction false} ScoreOrder(a: Averages, weight: int, active: nat, more: nat, state: State)
    requires 0.0 <= a.latency && active < more
    ensures ScoreIn(a, weight, active, state).Top? <==> state == Open
    ensures state != Open ==> ScoreIn(a, weight, active, state).Below(ScoreIn(a, weight, more, state))
    ensures ScoreIn(a, weight, active, Closed).Below(ScoreIn(a, weight, active, HalfOpen))
  {
    var latency := if a.latency == 0.0 then 0.1 else a.latency;
    var base, penalty := latency / Max(weight as real, 1.0), 1.0 / Max(a.success, 0.1);
    assert 0.0 < base && 0.0 < penalty;
    var unit := base * penalty;
    assert 0.0 < unit;
    Scales(unit, 1.0 + active as real, 1.0 + more as real);
  }

  lemma {:induction false} Scales(unit: real, x: real, y: real)
    requires 0.0 < unit && 0.0 < x < y
    ensures unit * x * 1.0 < unit * y * 1.0
    ensures unit * x * 2.0 < unit * y * 2.0
    ensures unit * x * 1.0 < unit * x * 2.0
  {
    assert 0.0 < unit * (y - x);
    assert 0.0 < unit * x;
  }

  lemma {:induction false} DivisorOrder(x: real, v: real, w: real)
    requires 0.0 < x && 0.0 < v < w
    ensures 0.0 < x / w < x / v
  {
    var p, q := x / v, x / w;
    assert p * v == x && q * w == x;
    assert 0.0 < q;
    assert (p - q) * v == q * (w - v);
    assert 0.0 < q * (w - v);
  }

  lemma {:induction false} FactorOrder(x: real, y: real, others: real)
    requires x < y && 0.0 < others
    ensures x * others < y * others
  {
    assert 0.0 < (y - x) * others;
  }

  /** A score is latency per weight, times one over the success average, times one more than the connections, doubled
      for a half-open breaker. */
  lemma {:induction false} ScoreValue(a: Averages, weight: int, active: nat, state: State)
    requires 0.0 < a.latency && 1 <= weight && 0.1 <= a.success && state != Open
    ensures ScoreIn(a, weight, active, state).Finite?
    ensures var s := ScoreIn(a, weight, active, state).value;
      var probe := if state == HalfOpen then 2.0 else 1.0;
      && 0.0 < s
      && s == a.latency / (weight as real) * (1.0 / a.success * (1.0 + active as real) * probe)
      && s == 1.0 / a.success * (a.latency / (weight as real) * (1.0 + active as real) * probe)
  {
    var base, penalty, load := a.latency / (weight as real), 1.0 / a.success, 1.0 + active as real;
    var probe := if state == HalfOpen then 2.0 else 1.0;
    Reordered(base, penalty, load, probe);
  }

  lemma {:induction false} Reordered(base: real, penalty: real, load: real, probe: real)
    requires 0.0 < base && 0.0 < penalty && 0.0 < load && 0.0 < probe
    ensures 0.0 < base * penalty * load * probe
    ensures base * penalty * load * probe == base * (penalty * load * probe)
    ensures base * penalty * load * probe == penalty * (base * load * probe)
    ensures 0.0 < penalty * load * probe && 0.0 < base * load * probe
  {
    assert 0.0 < base * penalty && 0.0 < penalty * load && 0.0 < base * load;
    assert 0.0 < base * penalty * load;
  }

  /** All else equal, the heavier backend scores lower. */
  lemma {:induction false} HeavierScoresLower(a: Averages, v: int, w: int, active: nat, state: State)
    requires 0.0 < a.latency && 0.1 <= a.success && 1 <= v < w && state != Open
    ensures ScoreIn(a, w, active, state).Below(ScoreIn(a, v, active, state))
  {
    ScoreValue(a, v, active, state);
    ScoreValue(a, w, active, state);
    DivisorOrder(a.latency, v as real, w as real);
    var probe := if state == HalfOpen then 2.0 else 1.0;
    var load := 1.0 + active as real;
    Reordered(1.0, 1.0 / a.success, load, probe);
    FactorOrder(a.latency / (w as real), a.latency / (v as real), 1.0 / a.success * load * probe);
  }

  /** The more successful one scores lower. */
  lemma {:induction false} SuccessScoresLower(
      latency: real, p: real, q: real, weight: int, active: nat, state: State)
    requires 0.0 < latency && 1 <= weight && 0.1 <= p < q && state != Open
    ensures ScoreIn(Averages(latency, q), weight, active, state).Below(
              ScoreIn(Averages(latency, p), weight, active, state))
  {
    ScoreValue(Averages(latency, p), weight, active, state);
    ScoreValue(Averages(latency, q), weight, active, state);
    DivisorOrder(1.0, p, q);
    var probe := if state == HalfOpen then 2.0 else 1.0;
    var load := 1.0 + active as real;
    Reordered(latency / (weight as real), 1.0, load, probe);
    FactorOrder(1.0 / q, 1.0 / p, latency / (weight as real) * load * probe);
  }

  /** The slower one scores higher. */
  lemma {:induction false} SlowerScoresHigher(
      x: real, y: real, success: real, weight: int, active: nat, state: State)
    requires 0.0 < x < y && 1 <= weight && 0.1 <= success && state != Open
    ensures ScoreIn(Averages(x, success), weight, active, state).Below(
              ScoreIn(Averages(y, success), weight, active, state))
  {
    ScoreValue(Averages(x, success), weight, active, state);
    ScoreValue(Averages(y, success), weight, active, state);
    var probe := if state == HalfOpen then 2.0 else 1.0;
    var load := 1.0 + active as real;
    Reordered(1.0, 1.0 / success, load, probe);
    FactorOrder(x, y, 1.0 / (weight as real));
    FactorOrder(x / (weight as real), y / (weight as real), 1.0 / success * load * probe);
  }

  /** What is too small to count: no samples count as a tenth of a second and a success average of a tenth, a smaller
      success average as a tenth, and a smaller weight as one. */
  lemma {:induction false} ScoreFloors(a: Averages, weight: int, active: nat, state: State)
    ensures ScoreIn(NO_AVERAGES, weight, active, state) == ScoreIn(Averages(0.1, 0.1), weight, active, state)
    ensures a.latency == 0.0 ==>
        ScoreIn(a, weight, active, state) == ScoreIn(a.(latency := 0.1), weight, active, state)
    ensures a.success <= 0.1 ==>
        ScoreIn(a, weight, active, state) == ScoreIn(a.(success := 0.1), weight, active, state)
    ensures weight <= 1 ==> ScoreIn(a, weight, active, state) == ScoreIn(a, 1, active, state)
  {
    SameFactors(NO_AVERAGES, Averages(0.1, 0.1), weight, weight, active, state);
    if a.latency == 0.0 {
      SameFactors(a, a.(latency := 0.1), weight, weight, active, state);
    }
    if a.success <= 0.1 {
      SameFactors(a, a.(success := 0.1), weight, weight, active, state);
    }
    if weight <= 1 {
      SameFactors(a, a, weight, 1, active, state);
    }
  }

  lemma {:induction false} SameFactors(a: Averages, b: Averages, v: int, w: int, active: nat, state: State)
    requires (if a.latency == 0.0 then 0.1 else a.latency) == if b.latency == 0.0 then 0.1 else b.latency
    requires Max(a.success, 0.1) == Max(b.success, 0.1) && Max(v as real, 1.0) == Max(w as real, 1.0)
    ensures ScoreIn(a, v, active, state) == ScoreIn(b, w, active, state)
  {
  }

  class Backend {
    const url: string
    const weight: int
    const region: string
    const breaker: CircuitBreaker?
    var alive: bool
    var latency: real
    var success: real
    var active: int

    constructor (url: string, weight: int, region: string, breaker: CircuitBreaker?)
      ensures this.url == url && this.weight == weight && this.region == region && this.breaker == breaker
      ensures alive && View() == NO_AVERAGES && active == 0
    {
      this.url, this.weight, this.region, this.breaker := url, weight, region, breaker;
      alive, latency, success, active := true, 0.0, 0.0, 0;
    }

    ghost function View(): Averages
      reads this
    {
      Averages(latency, success)
    }

    method RecordMetrics(seconds: real, ok: bool)
      modifies this`latency, this`success
      ensures View() == Recorded(old(View()), Sample(seconds, ok))
    {
      if latency == 0.0 {
        latency := seconds;
      } else {
        latency := 0.2 * seconds + 0.8 * latency;
      }
      if success == 0.0 {
        success := 1.0;
      }
      var value := if ok then 1.0 else 0.0;
      success := 0.1 * value + 0.9 * success;
    }

    method IncrementActive()
      modifies this`active
      ensures active == old(active) + 1
    {
      active := active + 1;
    }

    method DecrementActive()
      modifies this`active
      ensures active == old(active) - 1
    {
      active := active - 1;
    }

    /** Without a breaker every request is executed. */
    method ExecuteRequest(outcome: Outcome, begin: int, end: int) returns (rejected: bool)
      modifies breaker
      ensures breaker == null ==> !rejected
      ensures breaker != null ==>
          && rejected == !Admits(breaker.config, Current(breaker.config, old(breaker.View()), begin))
          && breaker.View() == Executed(breaker.config, old(breaker.View()), outcome, begin, end)
    {
      if breaker == null {
        return false;
      }
      rejected := breaker.Execute(outcome, begin, end);
    }

    /** The part of `lbHandler` after the choice of this peer, with no other handler in between. The count is lowered
        again on every way out; a panic goes past the metrics. A response of any status is a success to the breaker,
        but not to the metrics. */
    method Serve(response: Response, begin: int, end: int, seconds: real) returns (rejected: bool)
      modifies this`active, this`latency, this`success, breaker
      ensures active == old(active)
      ensures breaker == null ==> !rejected
      ensures breaker != null ==>
          && rejected == !Admits(breaker.config, Current(breaker.config, old(breaker.View()), begin))
          && var outcome := if response.Panic? then Panicked else Returned;
             breaker.View() == Executed(breaker.config, old(breaker.View()), outcome, begin, end)
      ensures !rejected && response.Panic? ==> View() == old(View())
      ensures rejected || response.Status? ==>
          var success := !rejected && response.code != 0 && response.code < 500;
          View() == Recorded(old(View()), Sample(seconds, success))
    {
      IncrementActive();
      rejected := ExecuteRequest(OutcomeOf(response), begin, end);
      if rejected || !response.Panic? {
        var ok := !rejected && IsSuccess(response);
        RecordMetrics(seconds, ok);
      }
      DecrementActive();
    }

    /** The state a look at the breaker would report. */
    ghost function StateAt(now: int): State
      reads this, breaker
    {
      if breaker == null then Closed else Current(breaker.config, breaker.View(), now).state
    }

    ghost function ScoreAt(now: int): Score
      reads this, breaker
    {
      ScoreIn(View(), weight, active, StateAt(now))
    }

    method GetCircuitBreakerState(now: int) returns (s: State)
      modifies breaker
      ensures s == old(StateAt(now))
      ensures s == if breaker == null then Closed else breaker.state
      ensures breaker != null ==> breaker.View() == Current(breaker.config, old(breaker.View()), now)
    {
      if breaker == null {
        return Closed;
      }
      s := breaker.GetState(now);
    }

    /** Looks at the breaker twice, each time by the clock; the two looks agree, and whoever looks from then on finds
        what would have been found without them. */
    method Score(first: int, second: int) returns (score: Score)
      requires first <= second
      modifies breaker
      ensures score == old(ScoreAt(first))
      ensures forall later :: second <= later ==> StateAt(later) == old(StateAt(later))
    {
      var average, rate := latency, success;
      var state := GetCircuitBreakerState(first);
      if state == Open {
        return Top;
      }
      if average == 0.0 {
        average := 0.1;
      }
      if rate < 0.1 {
        rate := 0.1;
      }
      var base := average / Max(weight as real, 1.0);
      var penalty := 1.0 / rate;
      var load := 1.0 + active as real;
      var multiplier := 1.0;
      state := GetCircuitBreakerState(second);
      match state {
        case HalfOpen => multiplier := 2.0;
        case Open => multiplier := 100.0;
        case Closed =>
      }
      score := Finite(base * penalty * load * multiplier);
    }
  }
}

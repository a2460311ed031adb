/** Runs of one breaker under any interleaving of requests.

    Every admitted request holds the token it was given until it settles. The history records every
    settlement, stale or not; which of them the breaker counts is then a matter of proof. */
module BreakerRuns {
  import opened GoInts
  import opened Breaker

  datatype Event =
    | Begin(now: int)
    | Settle(token: uint64, success: bool, now: int)
    | Observe(now: int)

  datatype Settlement = Settlement(token: uint64, success: bool)

  datatype Sys = Sys(core: Core, unsettled: multiset<uint64>, history: seq<Settlement>, clock: int)

  function Start(clock: int): Sys {
    Sys(NEW_CORE, multiset{}, [], clock)
  }

  predicate Enabled(s: Sys, e: Event) {
    s.clock <= e.now && (e.Settle? ==> e.token in s.unsettled)
  }

  predicate Admitted(cfg: Config, s: Sys, e: Event) {
    e.Begin? && Admits(cfg, Current(cfg, s.core, e.now))
  }

  function Next(cfg: Config, s: Sys, e: Event): Sys {
    match e
    case Begin(now) =>
      var core := Requested(cfg, s.core, now);
      var held := if Admitted(cfg, s, e) then s.unsettled + multiset{core.generation} else s.unsettled;
      Sys(core, held, s.history, now)
    case Settle(token, success, now) =>
      Sys(Settled(cfg, s.core, token, success, now), s.unsettled - multiset{token},
          s.history + [Settlement(token, success)], now)
    case Observe(now) =>
      s.(core := Current(cfg, s.core, now), clock := now)
  }

  /** A request given to `Execute` is two of these steps, or one if it is rejected: it settles the token it was given,
      as a success only if it returns without an error. */
  lemma {:induction false} ExecutedIsRun(cfg: Config, s: Sys, outcome: Outcome, begin: int, end: int)
    requires s.clock <= begin <= end
    ensures var mid := Next(cfg, s, Begin(begin));
      var settle := Settle(mid.core.generation, outcome == Returned, end);
      && Enabled(s, Begin(begin))
      && (Admitted(cfg, s, Begin(begin)) ==>
            Enabled(mid, settle) && Executed(cfg, s.core, outcome, begin, end) == Next(cfg, mid, settle).core)
      && (!Admitted(cfg, s, Begin(begin)) ==>
            mid.unsettled == s.unsettled && Executed(cfg, s.core, outcome, begin, end) == mid.core)
  {
  }

  predicate Legal(cfg: Config, s: Sys, es: seq<Event>)
    decreases |es|
  {
    es == [] || (Enabled(s, es[0]) && Legal(cfg, Next(cfg, s, es[0]), es[1..]))
  }

  function Run(cfg: Config, s: Sys, es: seq<Event>): Sys
    decreases |es|
  {
    if es == [] then s else Run(cfg, Next(cfg, s, es[0]), es[1..])
  }

  /** The outcomes of the requests that held tokens of generation `g`, in the order they settled. */
  function Log(history: seq<Settlement>, g: uint64): seq<bool> {
    if history == [] then []
    else
      var last := history[|history| - 1];
      var log := Log(history[..|history| - 1], g);
      if last.token == g then log + [last.success] else log
  }

  function Count(log: seq<bool>, b: bool): nat {
    if log == [] then 0 else Count(log[..|log| - 1], b) + if log[|log| - 1] == b then 1 else 0
  }

  /** How many entries at the end of the log are all `b`. */
  function Tail(log: seq<bool>, b: bool): nat {
    if log == [] || log[|log| - 1] != b then 0 else Tail(log[..|log| - 1], b) + 1
  }

  /** The counters are those of the log, as far as 32 bits go, and every request not yet in the log still holds
      its token. */
  ghost predicate Accounts(c: Counts, log: seq<bool>, held: nat) {
    && c.totalSuccesses == Wrap32(Count(log, true))
    && c.totalFailures == Wrap32(Count(log, false))
    && c.consecutiveSuccesses == Wrap32(Tail(log, true))
    && c.consecutiveFailures == Wrap32(Tail(log, false))
    && c.requests == Wrap32(|log| + held)
  }

  /** What each state adds to that. Only the first closed window and windows without an interval have no deadline. */
  ghost predicate Shape(cfg: Config, core: Core, log: seq<bool>, held: nat) {
    match core.state
    case Closed => core.expiry == Zero <==> cfg.interval == 0 || core.generation == 0
    case Open => |log| == 0 == held && core.expiry.At?
    case HalfOpen =>
      && Count(log, false) == 0
      && |log| + held <= cfg.maxRequests
      && (0 < cfg.maxRequests == |log| + held ==> 0 < held)
      && core.expiry == Zero
  }

  /** Nobody holds or brought back a token of a generation that is yet to come. */
  ghost predicate Past(s: Sys) {
    && (forall t :: t in s.unsettled ==> t <= s.core.generation)
    && (forall h :: h in s.history ==> h.token <= s.core.generation)
  }

  /** The outcomes settled in the current generation. */
  function CurrentLog(s: Sys): seq<bool> {
    Log(s.history, s.core.generation)
  }

  /** What every interleaving keeps. */
  ghost predicate Inv(cfg: Config, s: Sys) {
    var held := s.unsettled[s.core.generation];
    && Accounts(s.core.counts, CurrentLog(s), held)
    && Past(s)
    && Shape(cfg, s.core, CurrentLog(s), held)
  }

  /** The generation has not come to the end of its 64 bits. */
  predicate Room(s: Sys) {
    s.core.generation + 1 < TWO_64
  }

  lemma {:induction false} LogOfNewGeneration(history: seq<Settlement>, g: uint64)
    requires forall h :: h in history ==> h.token != g
    ensures Log(history, g) == []
  {
    if history != [] {
      assert history[|history| - 1] in history;
      LogOfNewGeneration(history[..|history| - 1], g);
    }
  }

  lemma {:induction false} LogAppend(history: seq<Settlement>, h: Settlement, g: uint64)
    ensures Log(history + [h], g) == if h.token == g then Log(history, g) + [h.success] else Log(history, g)
  {
    assert (history + [h])[..|history|] == history;
  }

  lemma {:induction false} CountAppend(log: seq<bool>, x: bool, b: bool)
    ensures Count(log + [x], b) == Count(log, b) + if x == b then 1 else 0
    ensures Tail(log + [x], b) == if x == b then Tail(log, b) + 1 else 0
  {
    assert (log + [x])[..|log|] == log;
  }

  lemma {:induction false} TailBound(log: seq<bool>, b: bool)
    ensures Tail(log, b) <= Count(log, b)
    ensures Count(log, b) + Count(log, !b) == |log|
  {
    if log != [] {
      TailBound(log[..|log| - 1], b);
    }
  }

  /** Nothing has happened yet to a new breaker. */
  lemma {:induction false} StartInv(cfg: Config, clock: int)
    ensures Inv(cfg, Start(clock))
  {
    LogOfNewGeneration(Start(clock).history, 0);
  }

  /** A generation that has just begun. */
  ghost predicate Fresh(cfg: Config, c: Core) {
    && c.counts == NO_COUNTS
    && match c.state
       case Closed => 0 < c.generation && (c.expiry == Zero <==> cfg.interval == 0)
       case Open => c.expiry.At?
       case HalfOpen => c.expiry == Zero
  }

  lemma {:induction false} FreshInv(cfg: Config, s: Sys)
    requires Fresh(cfg, s.core)
    requires forall t :: t in s.unsettled ==> t < s.core.generation
    requires forall h :: h in s.history ==> h.token < s.core.generation
    ensures Inv(cfg, s) && |CurrentLog(s)| == 0
  {
    LogOfNewGeneration(s.history, s.core.generation);
  }

  /** Taking the lazy transitions keeps the accounting, and leaves nobody holding a token of a fresh generation. */
  lemma {:induction false} CurrentInv(cfg: Config, s: Sys, now: int)
    requires Inv(cfg, s) && Room(s)
    ensures var core := Current(cfg, s.core, now);
      && Inv(cfg, s.(core := core))
      && (core != s.core ==>
            && core.generation == s.core.generation + 1
            && core.generation !in s.unsettled
            && |Log(s.history, core.generation)| == 0)
  {
    var core := Current(cfg, s.core, now);
    if core != s.core {
      assert Fresh(cfg, core);
      FreshInv(cfg, s.(core := core));
    }
  }

  /** One more request, with the token it is given. */
  lemma {:induction false} AdmittedInv(cfg: Config, s: Sys, s': Sys)
    requires Inv(cfg, s) && Admits(cfg, s.core)
    requires s'.core == s.core.(counts := s.core.counts.(requests := Inc32(s.core.counts.requests)))
    requires s'.unsettled == s.unsettled + multiset{s.core.generation} && s'.history == s.history
    ensures Inv(cfg, s')
  {
    WrapInc(Made(s));
  }

  lemma {:induction false} BeginInv(cfg: Config, s: Sys, now: int)
    requires Inv(cfg, s) && Room(s)
    ensures Inv(cfg, Next(cfg, s, Begin(now)))
    ensures Next(cfg, s, Begin(now)).core.generation == Current(cfg, s.core, now).generation
  {
    CurrentInv(cfg, s, now);
    var cur := s.(core := Current(cfg, s.core, now));
    if Admits(cfg, cur.core) {
      AdmittedInv(cfg, cur, Next(cfg, s, Begin(now)));
    }
  }

  /** One more outcome in the log, with its token given back. */
  lemma {:induction false} AccountsAppend(c: Counts, log: seq<bool>, held: nat, success: bool)
    requires Accounts(c, log, held + 1)
    ensures Accounts(Tallied(c, success), log + [success], held)
  {
    CountAppend(log, success, true);
    CountAppend(log, success, false);
    WrapInc(Count(log, success));
    WrapInc(Tail(log, success));
  }

  /** A settlement that the breaker counts either stays in the generation or starts the next one. */
  lemma {:induction false} SettledCases(cfg: Config, c: Core, log: seq<bool>, held: nat, success: bool, now: int)
    requires Accounts(c.counts, log, held) && Shape(cfg, c, log, held) && c.generation + 1 < TWO_64
    requires c.state != Open && Current(cfg, c, now) == c
    ensures var d := Settled(cfg, c, c.generation, success, now);
      if d.generation == c.generation
      then
        && d == Core(c.state, c.generation, Tallied(c.counts, success), c.expiry)
        && (c.state == HalfOpen ==> success && |log| + held < cfg.maxRequests)
      else d.generation == c.generation + 1 && Fresh(cfg, d)
  {
    WrapInc(|log| + held);
  }

  lemma {:induction false} StayInv(cfg: Config, s: Sys, s': Sys, success: bool)
    requires Inv(cfg, s) && s.core.generation in s.unsettled
    requires s'.core == Core(s.core.state, s.core.generation, Tallied(s.core.counts, success), s.core.expiry)
    requires s.core.state == HalfOpen ==>
        success && |CurrentLog(s)| + s.unsettled[s.core.generation] < cfg.maxRequests
    requires s'.unsettled == s.unsettled - multiset{s.core.generation}
    requires s'.history == s.history + [Settlement(s.core.generation, success)]
    ensures Inv(cfg, s')
  {
    var g, log := s.core.generation, CurrentLog(s);
    LogAppend(s.history, Settlement(g, success), g);
    AccountsAppend(s.core.counts, log, s.unsettled[g] - 1, success);
    CountAppend(log, success, false);
  }

  /** A settlement inside its generation. */
  lemma {:induction false} CountedInv(cfg: Config, s: Sys, success: bool, now: int)
    requires Inv(cfg, s) && Room(s) && s.core.generation in s.unsettled
    requires Current(cfg, s.core, now) == s.core
    ensures var s' := Next(cfg, s, Settle(s.core.generation, success, now));
      && Inv(cfg, s')
      && s.core.generation <= s'.core.generation <= s.core.generation + 1
  {
    var s' := Next(cfg, s, Settle(s.core.generation, success, now));
    SettledCases(cfg, s.core, CurrentLog(s), s.unsettled[s.core.generation], success, now);
    if s'.core.generation == s.core.generation {
      StayInv(cfg, s, s', success);
    } else {
      FreshInv(cfg, s');
    }
  }

  lemma {:induction false} SettleInv(cfg: Config, s: Sys, token: uint64, success: bool, now: int)
    requires Inv(cfg, s) && Room(s) && token in s.unsettled
    ensures var s' := Next(cfg, s, Settle(token, success, now));
      && Inv(cfg, s')
      && s.core.generation <= s'.core.generation <= s.core.generation + 1
  {
    CurrentInv(cfg, s, now);
    var cur := Current(cfg, s.core, now);
    LogAppend(s.history, Settlement(token, success), cur.generation);
    if token == cur.generation {
      CountedInv(cfg, s, success, now);
    }
  }

  /** One step of any kind keeps the accounting, until the generation has used up its 64 bits. */
  lemma {:induction false} StepInv(cfg: Config, s: Sys, e: Event)
    requires Inv(cfg, s) && Enabled(s, e) && Room(s)
    ensures Inv(cfg, Next(cfg, s, e))
    ensures s.core.generation <= Next(cfg, s, e).core.generation <= s.core.generation + 1
  {
    match e
    case Begin(now) =>
      BeginInv(cfg, s, now);
      CurrentInv(cfg, s, now);
    case Settle(token, success, now) => SettleInv(cfg, s, token, success, now);
    case Observe(now) => CurrentInv(cfg, s, now);
  }

  lemma {:induction false} RunInv(cfg: Config, s: Sys, es: seq<Event>)
    requires Inv(cfg, s) && Legal(cfg, s, es) && s.core.generation + |es| < TWO_64
    ensures Inv(cfg, Run(cfg, s, es))
    decreases |es|
  {
    if es != [] {
      StepInv(cfg, s, es[0]);
      RunInv(cfg, Next(cfg, s, es[0]), es[1..]);
    }
  }

  /** The requests made in the current generation: those settled, and those that still hold its token. */
  function Made(s: Sys): nat {
    |CurrentLog(s)| + s.unsettled[s.core.generation]
  }

  /** The counters as integers, without the wrap: requests are successes, failures and tokens still out, and
      subtracting the consecutive failures never goes below zero. */
  ghost predicate Accounted(s: Sys) {
    var c := s.core.counts;
    && c.totalSuccesses == Count(CurrentLog(s), true)
    && c.totalFailures == Count(CurrentLog(s), false)
    && c.requests == c.totalSuccesses + c.totalFailures + s.unsettled[s.core.generation]
    && c.consecutiveFailures <= c.totalFailures <= c.requests
    && c.Successes() == c.requests - c.consecutiveFailures
  }

  lemma {:induction false} InvAccounted(cfg: Config, s: Sys)
    requires Inv(cfg, s)
    ensures s.core.state != Closed ==> Made(s) < TWO_32
    ensures Made(s) < TWO_32 ==> Accounted(s)
  {
    var log := CurrentLog(s);
    TailBound(log, true);
    TailBound(log, false);
    if Made(s) < TWO_32 {
      WrapInc(Made(s));
      WrapInc(Count(log, true));
      WrapInc(Count(log, false));
      WrapInc(Tail(log, false));
    }
  }

  /** Token accounting over whole runs, whatever the interleaving: the counters are the true numbers up to the wrap
      at 2^32, and exactly those numbers outside the closed state and in any generation of fewer than 2^32 requests. */
  lemma {:induction false} Accounting(cfg: Config, s: Sys, es: seq<Event>)
    requires Inv(cfg, s) && Legal(cfg, s, es) && s.core.generation + |es| < TWO_64
    ensures var s' := Run(cfg, s, es);
      && Accounts(s'.core.counts, CurrentLog(s'), s'.unsettled[s'.core.generation])
      && (s'.core.state != Closed || Made(s') < TWO_32 ==> Accounted(s'))
  {
    RunInv(cfg, s, es);
    InvAccounted(cfg, Run(cfg, s, es));
  }

  /** No success comes after a failure. */
  ghost predicate FailuresLast(log: seq<bool>) {
    forall i, j :: 0 <= i < j < |log| && !log[i] ==> !log[j]
  }

  lemma {:induction false} FailuresLastExact(log: seq<bool>)
    ensures Count(log, false) == Tail(log, false) <==> FailuresLast(log)
  {
    if log != [] {
      var rest, last := log[..|log| - 1], log[|log| - 1];
      FailuresLastExact(rest);
      TailBound(rest, false);
      assert forall i :: 0 <= i < |rest| ==> rest[i] == log[i];
      if last {
        CountZero(rest, false);
      }
    }
  }

  lemma {:induction false} CountZero(log: seq<bool>, b: bool)
    ensures Count(log, b) == 0 <==> forall i :: 0 <= i < |log| ==> log[i] != b
  {
    if log != [] {
      var rest := log[..|log| - 1];
      CountZero(rest, b);
      assert forall i :: 0 <= i < |rest| ==> rest[i] == log[i];
    }
  }

  /** `Successes()` counts the successes only once nothing of the generation is in flight and no success came after
      a failure. */
  lemma {:induction false} SuccessesExact(cfg: Config, s: Sys)
    requires Inv(cfg, s) && (s.core.state == Closed ==> Made(s) < TWO_32)
    ensures var c := s.core.counts;
      c.Successes() == c.totalSuccesses <==>
        s.core.generation !in s.unsettled && FailuresLast(CurrentLog(s))
  {
    InvAccounted(cfg, s);
    TailBound(CurrentLog(s), false);
    WrapInc(Tail(CurrentLog(s), false));
    FailuresLastExact(CurrentLog(s));
  }

  /** An open breaker counts nothing: no token of its generation is out, before or after it ripens. */
  lemma {:induction false} OpenCountsNothing(cfg: Config, s: Sys, token: uint64, success: bool, now: int)
    requires Inv(cfg, s) && Room(s)
    requires s.core.state == Open && Enabled(s, Settle(token, success, now))
    ensures s.core.counts == NO_COUNTS && |CurrentLog(s)| == 0 && s.core.generation !in s.unsettled
    ensures Next(cfg, s, Settle(token, success, now)).core == Current(cfg, s.core, now)
  {
    CurrentInv(cfg, s, now);
    TailBound(CurrentLog(s), true);
  }

  ghost predicate EndsWith(log: seq<bool>, b: bool, k: nat) {
    k <= |log| && forall i :: |log| - k <= i < |log| ==> log[i] == b
  }

  /** The counted tail is the longest run of equal outcomes at the end of the log. */
  lemma {:induction false} TailIsSuffix(log: seq<bool>, b: bool, k: nat)
    ensures k <= Tail(log, b) <==> EndsWith(log, b, k)
  {
    if log != [] && 0 < k {
      var rest := log[..|log| - 1];
      TailIsSuffix(rest, b, k - 1);
      if log[|log| - 1] == b && EndsWith(rest, b, k - 1) {
        forall i | |log| - k <= i < |log| ensures log[i] == b {
          assert i < |log| - 1 ==> rest[i] == b;
        }
      }
    }
  }

  /** A closed breaker has not yet seen `k` failures in a row. */
  ghost predicate BelowThreshold(k: uint32, s: Sys) {
    s.core.state == Closed ==> Tail(CurrentLog(s), false) < k
  }

  lemma {:induction false} ClosedSettles(cfg: Config, k: uint32, c: Core, success: bool, now: int)
    requires TripsAt(cfg, k) && 0 < k && c.counts.consecutiveFailures < k
    requires c.state == Closed && !WindowOver(c, now)
    ensures var d := Settled(cfg, c, c.generation, success, now);
      && d.state == (if !success && c.counts.consecutiveFailures + 1 == k then Open else Closed)
      && (d.state == Closed ==> d.generation == c.generation)
  {
  }

  /** A settlement that a closed breaker counts. */
  lemma {:induction false} CountedInClosed(cfg: Config, k: uint32, s: Sys, e: Event)
    requires Inv(cfg, s) && TripsAt(cfg, k) && 0 < k && BelowThreshold(k, s) && s.core.state == Closed
    requires e.Settle? && e.token == s.core.generation && !WindowOver(s.core, e.now)
    ensures var s' := Next(cfg, s, e);
      var tail := Tail(Log(s'.history, s.core.generation), false);
      && tail == (if e.success then 0 else Tail(CurrentLog(s), false) + 1)
      && s'.core.state == (if k <= tail then Open else Closed)
      && (s'.core.state == Closed ==> s'.core.generation == s.core.generation)
  {
    var log := CurrentLog(s);
    LogAppend(s.history, Settlement(e.token, e.success), s.core.generation);
    CountAppend(log, e.success, false);
    WrapInc(Tail(log, false));
    ClosedSettles(cfg, k, s.core, e.success, e.now);
  }

  /** A closed breaker opens exactly when a settlement arrives inside its window and makes the last `k`
      outcomes of its generation failures. */
  lemma {:induction false} TripExact(cfg: Config, k: uint32, s: Sys, e: Event)
    requires Inv(cfg, s) && Enabled(s, e) && Room(s)
    requires TripsAt(cfg, k) && 0 < k && BelowThreshold(k, s) && s.core.state == Closed
    ensures var s' := Next(cfg, s, e);
      s'.core.state == Open <==>
        e.Settle? && !WindowOver(s.core, e.now) && EndsWith(Log(s'.history, s.core.generation), false, k)
  {
    var g, s' := s.core.generation, Next(cfg, s, e);
    TailIsSuffix(Log(s'.history, g), false, k);
    if e.Settle? {
      if WindowOver(s.core, e.now) {
        CurrentInv(cfg, s, e.now);
      } else if e.token == g {
        CountedInClosed(cfg, k, s, e);
      } else {
        LogAppend(s.history, Settlement(e.token, e.success), g);
      }
    }
  }

  lemma {:induction false} ThresholdStep(cfg: Config, k: uint32, s: Sys, e: Event)
    requires Inv(cfg, s) && Enabled(s, e) && Room(s)
    requires TripsAt(cfg, k) && 0 < k && BelowThreshold(k, s)
    ensures BelowThreshold(k, Next(cfg, s, e))
  {
    var s' := Next(cfg, s, e);
    if s'.core.state == Closed {
      CurrentInv(cfg, s, e.now);
      if e.Settle? {
        LogAppend(s.history, Settlement(e.token, e.success), s'.core.generation);
        if s'.core.generation != s.core.generation {
          NewClosedLog(cfg, s, e);
        } else if e.token == s.core.generation {
          CountedInClosed(cfg, k, s, e);
        }
      }
    }
  }

  /** A settlement that begins a closed generation is not in that generation's log. */
  lemma {:induction false} NewClosedLog(cfg: Config, s: Sys, e: Event)
    requires Inv(cfg, s) && Enabled(s, e) && Room(s) && e.Settle?
    requires Next(cfg, s, e).core.generation != s.core.generation
    ensures |CurrentLog(Next(cfg, s, e))| == 0
  {
    var s' := Next(cfg, s, e);
    StepInv(cfg, s, e);
    LogOfNewGeneration(s'.history, s'.core.generation);
  }

  /** One step adds at most its own failure to the run of failures of a closed breaker, and opens it only at `k`. */
  lemma {:induction false} TailStep(cfg: Config, k: uint32, s: Sys, e: Event)
    requires Inv(cfg, s) && Enabled(s, e) && Room(s)
    requires TripsAt(cfg, k) && 0 < k && BelowThreshold(k, s) && s.core.state == Closed
    ensures var s' := Next(cfg, s, e);
      var tail := Tail(CurrentLog(s), false) + if e.Settle? && !e.success then 1 else 0;
      if s'.core.state == Closed then Tail(CurrentLog(s'), false) <= tail else k <= tail
  {
    CurrentInv(cfg, s, e.now);
    if e.Settle? {
      var s' := Next(cfg, s, e);
      if s'.core.generation != s.core.generation && s'.core.state == Closed {
        NewClosedLog(cfg, s, e);
      } else if e.token == s.core.generation && !WindowOver(s.core, e.now) {
        CountedInClosed(cfg, k, s, e);
      } else {
        LogAppend(s.history, Settlement(e.token, e.success), s.core.generation);
      }
    }
  }

  /** In every run, a closed breaker's generation never ends in `k` failures. */
  lemma {:induction false} ClosedRunsStayBelow(cfg: Config, k: uint32, s: Sys, es: seq<Event>)
    requires Inv(cfg, s) && Legal(cfg, s, es) && s.core.generation + |es| < TWO_64
    requires TripsAt(cfg, k) && 0 < k && BelowThreshold(k, s)
    ensures var s' := Run(cfg, s, es);
      s'.core.state == Closed ==> !EndsWith(CurrentLog(s'), false, k)
    decreases |es|
  {
    if es == [] {
      TailIsSuffix(CurrentLog(s), false, k);
    } else {
      StepInv(cfg, s, es[0]);
      ThresholdStep(cfg, k, s, es[0]);
      ClosedRunsStayBelow(cfg, k, Next(cfg, s, es[0]), es[1..]);
    }
  }

  /** A closed window ends at some later instant if and only if there is an interval and the breaker has opened
      before: the first window has no deadline. */
  lemma {:induction false} RollsExact(cfg: Config, s: Sys)
    requires Inv(cfg, s) && s.core.state == Closed
    ensures (exists now :: s.clock <= now && WindowOver(s.core, now)) <==>
        cfg.interval != 0 && s.core.generation != 0
  {
    if s.core.expiry.At? {
      var due := s.core.expiry.instant + 1;
      assert WindowOver(s.core, if s.clock <= due then due else s.clock);
    }
  }

  predicate NeverOpens(cfg: Config, s: Sys, es: seq<Event>)
    decreases |es|
  {
    s.core.state != Open && (es != [] ==> NeverOpens(cfg, Next(cfg, s, es[0]), es[1..]))
  }

  /** So until it first opens, a breaker stays in its first window, whatever the interval. */
  lemma {:induction false} FirstWindowNeverRolls(cfg: Config, s: Sys, es: seq<Event>)
    requires s.core.state == Closed && s.core.expiry == Zero && NeverOpens(cfg, s, es)
    ensures Run(cfg, s, es).core.state == Closed && Run(cfg, s, es).core.generation == s.core.generation
    decreases |es|
  {
    if es != [] {
      var s' := Next(cfg, s, es[0]);
      assert s'.core.state == Closed && s'.core.expiry == Zero && s'.core.generation == s.core.generation;
      FirstWindowNeverRolls(cfg, s', es[1..]);
    }
  }

  /** The breaker of every backend trips on five failures in a row; the default one on six. */
  lemma {:induction false} ConfiguredThresholds()
    ensures TripsAt(BACKEND_CONFIG, 5) && TripsAt(DEFAULT_CONFIG, 6)
  {
  }
}

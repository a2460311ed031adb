/** Many runs of `lbHandler` at once: each raises the active count of its peer, goes through the peer's breaker,
    and lowers the count in a deferred call. */
module Handlers {
  import opened GoInts
  import opened Breaker
  import opened BreakerRuns
  import opened Backends
  import opened Options

  /** How far a handler is with the peer it chose. */
  datatype Phase =
    | Counted(host: nat)
    | InFlight(host: nat, token: uint64)
    | Executed(host: nat)
    | Gone

  datatype Host = Host(cfg: Config, sys: Sys, active: int)

  datatype World = World(hosts: seq<Host>, handlers: seq<Phase>)

  datatype Action =
    | Arrive(host: nat)
    | Enter(handler: nat, now: int)
    | Leave(handler: nat, response: Response, now: int)
    | Exit(handler: nat)
    | Look(host: nat, now: int)

  /** The breaker event that an action amounts to, if any, and where. */
  function HostOf(w: World, a: Action): nat {
    match a
    case Arrive(host) => host
    case Look(host, _) => host
    case Enter(h, _) => if h < |w.handlers| && !w.handlers[h].Gone? then w.handlers[h].host else 0
    case Leave(h, _, _) => if h < |w.handlers| && !w.handlers[h].Gone? then w.handlers[h].host else 0
    case Exit(h) => if h < |w.handlers| && !w.handlers[h].Gone? then w.handlers[h].host else 0
  }

  /** What a handler may do next; nothing is asked here about the breaker's tokens. */
  predicate Possible(w: World, a: Action) {
    && HostOf(w, a) < |w.hosts|
    && match a
       case Arrive(_) => true
       case Enter(h, now) =>
         h < |w.handlers| && w.handlers[h].Counted? && w.hosts[HostOf(w, a)].sys.clock <= now
       case Leave(h, _, now) =>
         h < |w.handlers| && w.handlers[h].InFlight? && w.hosts[HostOf(w, a)].sys.clock <= now
       case Exit(h) => h < |w.handlers| && w.handlers[h].Executed?
       case Look(b, now) => w.hosts[b].sys.clock <= now
  }

  function Step(w: World, a: Action): World
    requires Possible(w, a)
  {
    var b := HostOf(w, a);
    var host := w.hosts[b];
    match a
    case Arrive(_) =>
      World(w.hosts[b := host.(active := host.active + 1)], w.handlers + [Counted(b)])
    case Enter(h, now) =>
      var e := Begin(now);
      var sys := Next(host.cfg, host.sys, e);
      var phase := if Admitted(host.cfg, host.sys, e) then InFlight(b, sys.core.generation) else Executed(b);
      World(w.hosts[b := host.(sys := sys)], w.handlers[h := phase])
    case Leave(h, response, now) =>
      var e := Settle(w.handlers[h].token, OutcomeOf(response) == Returned, now);
      World(w.hosts[b := host.(sys := Next(host.cfg, host.sys, e))], w.handlers[h := Executed(b)])
    case Exit(h) =>
      World(w.hosts[b := host.(active := host.active - 1)], w.handlers[h := Gone])
    case Look(_, now) =>
      World(w.hosts[b := host.(sys := Next(host.cfg, host.sys, Observe(now)))], w.handlers)
  }

  predicate At(p: Phase, b: nat) {
    !p.Gone? && p.host == b
  }

  /** Handlers between the increment and the deferred decrement of a host. */
  function Present(handlers: seq<Phase>, b: nat): nat {
    if handlers == [] then 0 else (if At(handlers[0], b) then 1 else 0) + Present(handlers[1..], b)
  }

  lemma {:induction false} PresentUpdate(handlers: seq<Phase>, h: nat, p: Phase, b: nat)
    requires h < |handlers|
    ensures Present(handlers[h := p], b) + (if At(handlers[h], b) then 1 else 0) ==
        Present(handlers, b) + (if At(p, b) then 1 else 0)
    decreases |handlers|
  {
    var after := handlers[h := p];
    if h == 0 {
      assert after[1..] == handlers[1..];
    } else {
      PresentUpdate(handlers[1..], h - 1, p, b);
      assert after[1..] == handlers[1..][h - 1 := p];
    }
  }

  lemma {:induction false} PresentAppend(handlers: seq<Phase>, p: Phase, b: nat)
    ensures Present(handlers + [p], b) == Present(handlers, b) + (if At(p, b) then 1 else 0)
    decreases |handlers|
  {
    if handlers == [] {
      assert handlers + [p] == [p];
    } else {
      PresentAppend(handlers[1..], p, b);
      assert (handlers + [p])[1..] == handlers[1..] + [p];
    }
  }

  /** The tokens in `held` are those that handlers hold at `b`. */
  ghost predicate HeldAt(held: multiset<uint64>, handlers: seq<Phase>, b: nat) {
    forall t: uint64 :: held[t] == multiset(handlers)[InFlight(b, t)]
  }

  lemma {:induction false} HeldBound(held: multiset<uint64>, handlers: seq<Phase>, b: nat)
    requires HeldAt(held, handlers, b)
    ensures |held| <= Present(handlers, b)
    decreases |handlers|
  {
    if handlers == [] {
      assert forall t :: t in held ==> held[t] == multiset(handlers)[InFlight(b, t)];
      assert held == multiset{};
    } else {
      var p, rest := handlers[0], handlers[1..];
      var held' := if p.InFlight? && p.host == b then held - multiset{p.token} else held;
      HeldRest(held, held', handlers, b);
      HeldBound(held', rest, b);
    }
  }

  lemma {:induction false} HeldRest(held: multiset<uint64>, held': multiset<uint64>, handlers: seq<Phase>, b: nat)
    requires HeldAt(held, handlers, b) && handlers != []
    requires var p := handlers[0];
      held' == if p.InFlight? && p.host == b then held - multiset{p.token} else held
    ensures HeldAt(held', handlers[1..], b)
    ensures |held| == |held'| + if handlers[0].InFlight? && handlers[0].host == b then 1 else 0
  {
    var p, rest := handlers[0], handlers[1..];
    assert multiset(handlers) == multiset{p} + multiset(rest) by { assert handlers == [p] + rest; }
    if p.InFlight? && p.host == b {
      assert held[p.token] == multiset(handlers)[InFlight(b, p.token)];
      assert p.token in held;
    }
    forall t: uint64 ensures held'[t] == multiset(rest)[InFlight(b, t)] {
      assert held[t] == multiset(handlers)[InFlight(b, t)];
    }
  }

  /** Every count is the number of handlers present, and the tokens out are exactly the ones handlers hold. */
  ghost predicate Conserved(w: World) {
    forall b :: 0 <= b < |w.hosts| ==> HostConserved(w, b)
  }

  ghost predicate HostConserved(w: World, b: nat)
    requires b < |w.hosts|
  {
    && w.hosts[b].active == Present(w.handlers, b)
    && HeldAt(w.hosts[b].sys.unsettled, w.handlers, b)
  }

  lemma {:induction false} CountConserved(w: World, a: Action, b: nat)
    requires Possible(w, a) && b < |w.hosts| && w.hosts[b].active == Present(w.handlers, b)
    ensures Step(w, a).hosts[b].active == Present(Step(w, a).handlers, b)
  {
    match a
    case Arrive(host) => PresentAppend(w.handlers, Counted(host), b);
    case Enter(h, _) => PresentUpdate(w.handlers, h, Step(w, a).handlers[h], b);
    case Leave(h, _, _) => PresentUpdate(w.handlers, h, Step(w, a).handlers[h], b);
    case Exit(h) => PresentUpdate(w.handlers, h, Step(w, a).handlers[h], b);
    case Look(_, _) =>
  }

  function Is(p: Phase, b: nat, t: uint64): nat {
    if p == InFlight(b, t) then 1 else 0
  }

  /** Handler `h` moves on to `p`, and the tokens out change to match. */
  lemma {:induction false} HeldUpdate(
      held: multiset<uint64>, held': multiset<uint64>, handlers: seq<Phase>, h: nat, p: Phase, b: nat)
    requires HeldAt(held, handlers, b) && h < |handlers|
    requires forall t: uint64 :: held'[t] + Is(handlers[h], b, t) == held[t] + Is(p, b, t)
    ensures HeldAt(held', handlers[h := p], b)
  {
    assert multiset(handlers[h := p]) == multiset(handlers) - multiset{handlers[h]} + multiset{p};
    forall t: uint64 ensures held'[t] == multiset(handlers[h := p])[InFlight(b, t)] {
      assert held[t] == multiset(handlers)[InFlight(b, t)];
      assert handlers[h] in multiset(handlers);
    }
  }

  lemma {:induction false} EnterTokens(w: World, h: nat, now: int, b: nat)
    requires Possible(w, Enter(h, now)) && b < |w.hosts| && HeldAt(w.hosts[b].sys.unsettled, w.handlers, b)
    ensures var w' := Step(w, Enter(h, now)); HeldAt(w'.hosts[b].sys.unsettled, w'.handlers, b)
  {
    var c := w.handlers[h].host;
    var host, e := w.hosts[c], Begin(now);
    var sys := Next(host.cfg, host.sys, e);
    var p := if Admitted(host.cfg, host.sys, e) then InFlight(c, sys.core.generation) else Executed(c);
    var held := w.hosts[b].sys.unsettled;
    HeldUpdate(held, if b == c then sys.unsettled else held, w.handlers, h, p, b);
  }

  lemma {:induction false} LeaveTokens(w: World, h: nat, response: Response, now: int, b: nat)
    requires Possible(w, Leave(h, response, now)) && b < |w.hosts| && HeldAt(w.hosts[b].sys.unsettled, w.handlers, b)
    ensures var w' := Step(w, Leave(h, response, now)); HeldAt(w'.hosts[b].sys.unsettled, w'.handlers, b)
  {
    var p := w.handlers[h];
    var c, token := p.host, p.token;
    var host := w.hosts[c];
    var sys := Next(host.cfg, host.sys, Settle(token, OutcomeOf(response) == Returned, now));
    assert sys.unsettled == host.sys.unsettled - multiset{token};
    var held := w.hosts[b].sys.unsettled;
    if b == c {
      GivenBack(held, w.handlers, h, b, token);
      HeldUpdate(held, sys.unsettled, w.handlers, h, Executed(c), b);
    } else {
      HeldUpdate(held, held, w.handlers, h, Executed(c), b);
    }
  }

  lemma {:induction false} GivenBack(held: multiset<uint64>, handlers: seq<Phase>, h: nat, b: nat, token: uint64)
    requires HeldAt(held, handlers, b) && h < |handlers| && handlers[h] == InFlight(b, token)
    ensures token in held
    ensures forall t: uint64 :: (held - multiset{token})[t] + Is(handlers[h], b, t) == held[t]
  {
    assert handlers[h] in multiset(handlers);
    assert held[token] == multiset(handlers)[InFlight(b, token)];
  }

  lemma {:induction false} TokensConserved(w: World, a: Action, b: nat)
    requires Possible(w, a) && b < |w.hosts| && HeldAt(w.hosts[b].sys.unsettled, w.handlers, b)
    ensures HeldAt(Step(w, a).hosts[b].sys.unsettled, Step(w, a).handlers, b)
  {
    var held := w.hosts[b].sys.unsettled;
    match a
    case Arrive(host) =>
      assert multiset(w.handlers + [Counted(host)]) == multiset(w.handlers) + multiset{Counted(host)};
    case Enter(h, now) => EnterTokens(w, h, now, b);
    case Leave(h, response, now) => LeaveTokens(w, h, response, now, b);
    case Exit(h) => HeldUpdate(held, held, w.handlers, h, Gone, b);
    case Look(_, _) =>
  }

  lemma {:induction false} StepConserved(w: World, a: Action)
    requires Conserved(w) && Possible(w, a)
    ensures Conserved(Step(w, a))
  {
    var w' := Step(w, a);
    forall b | 0 <= b < |w'.hosts| ensures HostConserved(w', b) {
      assert HostConserved(w, b);
      CountConserved(w, a, b);
      TokensConserved(w, a, b);
    }
  }

  /** A token that a handler brings back is one that its breaker still waits for. */
  lemma {:induction false} HolderIsExpected(w: World, h: nat)
    requires Conserved(w) && h < |w.handlers| && w.handlers[h].InFlight? && w.handlers[h].host < |w.hosts|
    ensures w.handlers[h].token in w.hosts[w.handlers[h].host].sys.unsettled
  {
    var p := w.handlers[h];
    assert HostConserved(w, p.host);
    assert p in multiset(w.handlers);
  }

  predicate PossibleRun(w: World, acts: seq<Action>)
    decreases |acts|
  {
    acts == [] || (Possible(w, acts[0]) && PossibleRun(Step(w, acts[0]), acts[1..]))
  }

  function RunOf(w: World, acts: seq<Action>): World
    requires PossibleRun(w, acts)
    decreases |acts|
  {
    if acts == [] then w else RunOf(Step(w, acts[0]), acts[1..])
  }

  /** Over any run of any handlers, returning or panicking: the active count of a backend is the number of handlers
      between increment and decrement, so it is never negative; and it bounds the tokens of the backend that are out,
      over all generations. */
  lemma {:induction false} Conservation(w: World, acts: seq<Action>, b: nat)
    requires Conserved(w) && PossibleRun(w, acts) && b < |w.hosts|
    ensures var w' := RunOf(w, acts);
      && |w'.hosts| == |w.hosts|
      && 0 <= w'.hosts[b].active == Present(w'.handlers, b)
      && |w'.hosts[b].sys.unsettled| <= w'.hosts[b].active
    decreases |acts|
  {
    if acts == [] {
      assert HostConserved(w, b);
      HeldBound(w.hosts[b].sys.unsettled, w.handlers, b);
    } else {
      StepConserved(w, acts[0]);
      Conservation(Step(w, acts[0]), acts[1..], b);
    }
  }

  /** The breakers keep their own accounting, and none of them is past generation `n`. */
  ghost predicate Sound(w: World, n: nat) {
    forall b :: 0 <= b < |w.hosts| ==> HostSound(w.hosts[b], n)
  }

  ghost predicate HostSound(host: Host, n: nat) {
    Inv(host.cfg, host.sys) && host.sys.core.generation <= n
  }

  /** The breaker event that an action amounts to at its host, if any. */
  function EventOf(w: World, a: Action): Option<Event>
    requires Possible(w, a)
  {
    match a
    case Enter(_, now) => Some(Begin(now))
    case Leave(h, response, now) => Some(Settle(w.handlers[h].token, OutcomeOf(response) == Returned, now))
    case Look(_, now) => Some(Observe(now))
    case _ => None
  }

  /** What an action does to the breaker of any host: a step that the breaker allows, or nothing. */
  lemma {:induction false} HostStep(w: World, a: Action, b: nat)
    requires Conserved(w) && Possible(w, a) && b < |w.hosts|
    ensures var host, host', e := w.hosts[b], Step(w, a).hosts[b], EventOf(w, a);
      && host'.cfg == host.cfg
      && if HostOf(w, a) == b && e.Some?
         then Enabled(host.sys, e.value) && host'.sys == Next(host.cfg, host.sys, e.value)
         else host'.sys == host.sys
  {
    if a.Leave? {
      HolderIsExpected(w, a.handler);
    }
  }

  lemma {:induction false} StepSound(w: World, a: Action, n: nat)
    requires Conserved(w) && Sound(w, n) && Possible(w, a) && n + 1 < TWO_64
    ensures Sound(Step(w, a), n + 1)
  {
    var w' := Step(w, a);
    forall b | 0 <= b < |w'.hosts| ensures HostSound(w'.hosts[b], n + 1) {
      assert HostSound(w.hosts[b], n);
      HostStep(w, a, b);
      if HostOf(w, a) == b && EventOf(w, a).Some? {
        StepInv(w.hosts[b].cfg, w.hosts[b].sys, EventOf(w, a).value);
      }
    }
  }

  /** And the accounting of every breaker holds, until a generation has used up its 64 bits. */
  lemma {:induction false} BreakersAccount(w: World, acts: seq<Action>, n: nat, b: nat)
    requires Conserved(w) && Sound(w, n) && PossibleRun(w, acts) && n + |acts| < TWO_64 && b < |w.hosts|
    ensures |RunOf(w, acts).hosts| == |w.hosts|
    ensures var host := RunOf(w, acts).hosts[b];
      Inv(host.cfg, host.sys) && (Made(host.sys) < TWO_32 ==> Accounted(host.sys))
    decreases |acts|
  {
    if acts == [] {
      assert HostSound(w.hosts[b], n);
      InvAccounted(w.hosts[b].cfg, w.hosts[b].sys);
    } else {
      StepConserved(w, acts[0]);
      StepSound(w, acts[0], n);
      BreakersAccount(Step(w, acts[0]), acts[1..], n + 1, b);
    }
  }

  /** New backends, one for each configuration, and no requests yet. */
  function NewWorld(cfgs: seq<Config>, clock: int): World {
    World(seq(|cfgs|, i requires 0 <= i < |cfgs| => Host(cfgs[i], Start(clock), 0)), [])
  }

  /** Where all of this starts from. */
  lemma {:induction false} NewWorldConserved(cfgs: seq<Config>, clock: int)
    ensures var w := NewWorld(cfgs, clock);
      |w.hosts| == |cfgs| && Conserved(w) && Sound(w, 0)
  {
    var w := NewWorld(cfgs, clock);
    forall b | 0 <= b < |w.hosts| ensures HostConserved(w, b) && HostSound(w.hosts[b], 0) {
      StartInv(cfgs[b], clock);
    }
  }

  /** When all handlers are gone, nothing is active and no token is out. */
  lemma {:induction false} Quiescence(w: World, b: nat)
    requires Conserved(w) && b < |w.hosts| && forall h :: h in w.handlers ==> h.Gone?
    ensures w.hosts[b].active == 0 && w.hosts[b].sys.unsettled == multiset{}
  {
    assert HostConserved(w, b);
    NobodyPresent(w.handlers, b);
    HeldBound(w.hosts[b].sys.unsettled, w.handlers, b);
  }

  lemma {:induction false} NobodyPresent(handlers: seq<Phase>, b: nat)
    requires forall h :: h in handlers ==> h.Gone?
    ensures Present(handlers, b) == 0
    decreases |handlers|
  {
    if handlers != [] {
      NobodyPresent(handlers[1..], b);
    }
  }

  // ---------- What opens the breaker of a backend ----------

  /** A handler that went into backend `b` panics. */
  predicate PanicsAt(w: World, a: Action, b: nat) {
    a.Leave? && HostOf(w, a) == b && a.response.Panic?
  }

  /** What `lbHandler` gives the breaker to execute never returns an error. So a closed breaker opens in a step if and
      only if that step is a handler's panic, inside the window, that makes the last `k` outcomes of its generation
      failures. */
  lemma {:induction false} OpensExact(w: World, a: Action, b: nat, k: uint32)
    requires Conserved(w) && Possible(w, a) && b < |w.hosts|
    requires var host := w.hosts[b];
      && Inv(host.cfg, host.sys) && Room(host.sys) && host.sys.core.state == Closed
      && TripsAt(host.cfg, k) && 0 < k && BelowThreshold(k, host.sys)
    ensures var sys, sys' := w.hosts[b].sys, Step(w, a).hosts[b].sys;
      sys'.core.state != Closed <==>
        && PanicsAt(w, a, b)
        && !WindowOver(sys.core, a.now)
        && EndsWith(Log(sys'.history, sys.core.generation), false, k)
  {
    var host := w.hosts[b];
    HostStep(w, a, b);
    if HostOf(w, a) == b && EventOf(w, a).Some? {
      var e := EventOf(w, a).value;
      TripExact(host.cfg, k, host.sys, e);
      if e.Settle? && e.success {
        var g := host.sys.core.generation;
        LogAppend(host.sys.history, Settlement(e.token, true), g);
        CountAppend(CurrentLog(host.sys), true, false);
        TailIsSuffix(Log(Next(host.cfg, host.sys, e).history, g), false, k);
      }
    }
  }

  /** The panics of handlers at `b` during a run. */
  function Panics(w: World, acts: seq<Action>, b: nat): nat
    requires PossibleRun(w, acts)
    decreases |acts|
  {
    if acts == [] then 0
    else (if PanicsAt(w, acts[0], b) then 1 else 0) + Panics(Step(w, acts[0]), acts[1..], b)
  }

  /** Over whole runs: a closed breaker that is found in another state has seen at least as many panics of its handlers
      as it was short of its threshold, whatever the backends answered. */
  lemma {:induction false} OpeningTakesPanics(w: World, acts: seq<Action>, n: nat, b: nat, k: uint32)
    requires Conserved(w) && Sound(w, n) && PossibleRun(w, acts) && n + |acts| < TWO_64 && b < |w.hosts|
    requires var host := w.hosts[b];
      && host.sys.core.state == Closed && TripsAt(host.cfg, k) && 0 < k && BelowThreshold(k, host.sys)
    ensures |RunOf(w, acts).hosts| == |w.hosts|
    ensures RunOf(w, acts).hosts[b].sys.core.state != Closed ==>
        k <= Tail(CurrentLog(w.hosts[b].sys), false) + Panics(w, acts, b)
    decreases |acts|
  {
    if acts == [] {
    } else {
      var a := acts[0];
      assert HostSound(w.hosts[b], n);
      PanicStep(w, a, b, k);
      StepConserved(w, a);
      StepSound(w, a, n);
      if Step(w, a).hosts[b].sys.core.state == Closed {
        OpeningTakesPanics(Step(w, a), acts[1..], n + 1, b, k);
      } else {
        Conservation(w, acts, b);
      }
    }
  }

  lemma {:induction false} PanicStep(w: World, a: Action, b: nat, k: uint32)
    requires Conserved(w) && Possible(w, a) && b < |w.hosts|
    requires var host := w.hosts[b];
      && Inv(host.cfg, host.sys) && Room(host.sys) && host.sys.core.state == Closed
      && TripsAt(host.cfg, k) && 0 < k && BelowThreshold(k, host.sys)
    ensures var sys, host' := w.hosts[b].sys, Step(w, a).hosts[b];
      var tail := Tail(CurrentLog(sys), false) + if PanicsAt(w, a, b) then 1 else 0;
      && TripsAt(host'.cfg, k) && BelowThreshold(k, host'.sys)
      && if host'.sys.core.state == Closed then Tail(CurrentLog(host'.sys), false) <= tail else k <= tail
  {
    var host := w.hosts[b];
    HostStep(w, a, b);
    if HostOf(w, a) == b && EventOf(w, a).Some? {
      var e := EventOf(w, a).value;
      ThresholdStep(host.cfg, k, host.sys, e);
      TailStep(host.cfg, k, host.sys, e);
    }
  }

  /** Without panics, no breaker of a backend ever leaves the closed state; this needs no accounting. */
  lemma {:induction false} OnlyPanicsTrip(w: World, acts: seq<Action>, b: nat)
    requires PossibleRun(w, acts) && b < |w.hosts| && w.hosts[b].sys.core.state == Closed
    requires forall a :: a in acts && a.Leave? ==> a.response.Status?
    ensures |RunOf(w, acts).hosts| == |w.hosts| && RunOf(w, acts).hosts[b].sys.core.state == Closed
    decreases |acts|
  {
    if acts != [] {
      assert acts[0] in acts;
      OnlyPanicsTrip(Step(w, acts[0]), acts[1..], b);
    }
  }
}

/** The traffic policy engine of `loadbalancer/trafficpolicies.go`. */
module Policies {
  import opened Options

  datatype PolicyType = Header | Geo | Path | Canary | Default | Unknown

  datatype Action = Allow | Deny | Redirect | Other

  datatype Rule = Rule(field: string, operator: string, value: string, action: Action, backend: string)

  datatype Policy = Policy(
    name: string,
    kind: PolicyType,
    rules: seq<Rule>,
    enabled: bool,
    priority: int,
    percentage: int,
    createdAt: int,
    updatedAt: int)

  /** What the engine looks at in a request: which rules of a header, geo or path policy it matches, and its hash. */
  datatype Request = Request(matches: (PolicyType, Rule) -> bool, hash: nat)

  /** `EvaluateRequest` fails with the name of the policy that denies, or returns a backend or nothing. */
  datatype Verdict<T> = Denied(policy: string) | Chosen(backend: T) | NoChoice

  // ---------- Order ----------

  predicate Sorted(ps: seq<Policy>) {
    forall i, j :: 0 <= i < j < |ps| ==> ps[i].priority <= ps[j].priority
  }

  /** One pass of the exchange sort over a sorted list and a newcomer: the newcomer takes the first place whose
      holder has a larger priority, and every holder that has to move is carried to the next such place. */
  function Carried(ps: seq<Policy>, p: Policy): (r: seq<Policy>)
    ensures |r| == |ps| + 1
  {
    if ps == [] then [p]
    else if ps[0].priority > p.priority then [p] + Carried(ps[1..], ps[0])
    else [ps[0]] + Carried(ps[1..], p)
  }

  /** Place `i` compared with the last one. */
  function Exchanged(ps: seq<Policy>, i: nat): (r: seq<Policy>)
    requires i < |ps|
    ensures |r| == |ps|
  {
    var n := |ps| - 1;
    if ps[i].priority > ps[n].priority then ps[i := ps[n]][n := ps[i]] else ps
  }

  /** The sort has settled the first `i` places, the next are those of the old list, and the last one holds what
      is being carried. */
  ghost predicate Passing(ps: seq<Policy>, p: Policy, list: seq<Policy>, i: nat) {
    && i <= |ps| && |list| == |ps| + 1
    && (forall k :: i <= k < |ps| ==> list[k] == ps[k])
    && list[..i] + Carried(ps[i..], list[|ps|]) == Carried(ps, p)
  }

  lemma {:induction false} PassBegins(ps: seq<Policy>, p: Policy)
    ensures Passing(ps, p, ps + [p], 0)
  {
    assert ps[0..] == ps;
  }

  lemma {:induction false} PassStep(ps: seq<Policy>, p: Policy, at: seq<Policy>, list: seq<Policy>, i: nat)
    requires i < |ps| && Passing(ps, p, at, i) && list == Exchanged(at, i)
    ensures Passing(ps, p, list, i + 1)
  {
    var n := |ps|;
    var rest := Carried(ps[i + 1..], list[n]);
    CarriedStep(ps, at[n], i);
    assert Carried(ps[i..], at[n]) == [list[i]] + rest;
    Regroup(at[..i], list[i], rest);
    assert list[..i + 1] == at[..i] + [list[i]];
  }

  lemma {:induction false} Regroup<T>(s: seq<T>, x: T, t: seq<T>)
    ensures s + ([x] + t) == s + [x] + t
  {
  }

  lemma {:induction false} PassEnds(ps: seq<Policy>, p: Policy, list: seq<Policy>)
    requires Passing(ps, p, list, |ps|)
    ensures list == Carried(ps, p)
  {
    assert ps[|ps|..] == [];
    assert list == list[..|ps|] + [list[|ps|]];
  }

  /** What the pass does at place `i`, with `p` waiting in the last place. */
  lemma {:induction false} CarriedStep(ps: seq<Policy>, p: Policy, i: nat)
    requires i < |ps|
    ensures Carried(ps[i..], p) ==
      if ps[i].priority > p.priority then [p] + Carried(ps[i + 1..], ps[i]) else [ps[i]] + Carried(ps[i + 1..], p)
  {
    assert ps[i..][1..] == ps[i + 1..];
  }

  lemma {:induction false} CarriedMembers(ps: seq<Policy>, p: Policy, q: Policy)
    requires q in Carried(ps, p)
    ensures q == p || q in ps
    decreases |ps|
  {
    if ps != [] && q in Carried(ps, p)[1..] {
      CarriedMembers(ps[1..], if ps[0].priority > p.priority then ps[0] else p, q);
    }
  }

  lemma {:induction false} CarriedSorted(ps: seq<Policy>, p: Policy)
    requires Sorted(ps)
    ensures Sorted(Carried(ps, p))
    decreases |ps|
  {
    if ps != [] {
      var (low, high) := if ps[0].priority > p.priority then (p, ps[0]) else (ps[0], p);
      var rest := Carried(ps[1..], high);
      CarriedSorted(ps[1..], high);
      forall i | 0 <= i < |rest| ensures low.priority <= rest[i].priority {
        CarriedMembers(ps[1..], high, rest[i]);
      }
      assert Carried(ps, p) == [low] + rest;
    }
  }

  /** Where a stable sort would put the newcomer: behind everything of the same priority. */
  function Inserted(ps: seq<Policy>, p: Policy): seq<Policy> {
    if ps == [] || ps[0].priority > p.priority then [p] + ps
    else [ps[0]] + Inserted(ps[1..], p)
  }

  /** Above `floor`, no two different policies share a priority. */
  ghost predicate NoTies(ps: seq<Policy>, floor: int) {
    forall a, b :: a in ps && b in ps && floor < a.priority == b.priority ==> a == b
  }

  lemma {:induction false} ConsEqual<T>(a: T, s: seq<T>, b: T, t: seq<T>)
    ensures [a] + s == [b] + t <==> a == b && s == t
  {
    assert ([a] + s)[1..] == s && ([b] + t)[1..] == t;
  }

  lemma {:induction false} NoTiesCons(p: Policy, ps: seq<Policy>, floor: int)
    ensures NoTies([p] + ps, floor) <==>
        NoTies(ps, floor) && (floor < p.priority ==> forall q :: q in ps && q.priority == p.priority ==> q == p)
  {
    assert forall q :: q in [p] + ps <==> q == p || q in ps;
  }

  lemma {:induction false} SortedCons(p: Policy, ps: seq<Policy>)
    ensures Sorted([p] + ps) <==> Sorted(ps) && (forall q :: q in ps ==> p.priority <= q.priority)
  {
    var all := [p] + ps;
    assert all[1..] == ps;
    if Sorted(all) {
      forall q | q in ps ensures p.priority <= q.priority {
        var i :| 0 <= i < |ps| && ps[i] == q;
        assert all[0].priority <= all[i + 1].priority;
      }
      forall i, j | 0 <= i < j < |ps| ensures ps[i].priority <= ps[j].priority {
        assert all[i + 1].priority <= all[j + 1].priority;
      }
    }
  }

  /** The pass is a stable insertion exactly when it carries along no two different policies of one priority. */
  lemma {:induction false} StableExact(ps: seq<Policy>, p: Policy)
    requires Sorted(ps)
    ensures Carried(ps, p) == Inserted(ps, p) <==> NoTies(ps, p.priority)
    decreases |ps|
  {
    if ps != [] {
      var q, rest := ps[0], ps[1..];
      assert ps == [q] + rest;
      SortedCons(q, rest);
      if q.priority > p.priority {
        ConsEqual(p, Carried(rest, q), p, ps);
        PushedAlong(rest, q, p.priority);
      } else {
        ConsEqual(q, Carried(rest, p), q, Inserted(rest, p));
        NoTiesCons(q, rest, p.priority);
        StableExact(rest, p);
      }
    }
  }

  /** Carrying `p` through a sorted list above it amounts to putting it in front, under the same condition. */
  lemma {:induction false} PushedAlong(ps: seq<Policy>, p: Policy, floor: int)
    requires Sorted([p] + ps) && floor < p.priority
    ensures Carried(ps, p) == [p] + ps <==> NoTies([p] + ps, floor)
    decreases |ps|
  {
    if ps == [] {
      NoTiesCons(p, ps, floor);
      assert NoTies(ps, floor);
    } else {
      var q, rest := ps[0], ps[1..];
      assert ps == [q] + rest;
      SortedCons(p, ps);
      SortedCons(q, rest);
      if q.priority > p.priority {
        NoTiesCons(p, ps, floor);
        ConsEqual(p, Carried(rest, q), p, ps);
        PushedAlong(rest, q, floor);
      } else {
        SortedCons(p, rest);
        PushedAlong(rest, p, floor);
        PushedTie(rest, q, p, floor);
      }
    }
  }

  /** One more policy of the priority that is being carried. */
  lemma {:induction false} PushedTie(rest: seq<Policy>, q: Policy, p: Policy, floor: int)
    requires q.priority == p.priority && floor < p.priority
    requires Carried(rest, p) == [p] + rest <==> NoTies([p] + rest, floor)
    ensures Carried([q] + rest, p) == [p] + ([q] + rest) <==> NoTies([p] + ([q] + rest), floor)
  {
    assert ([q] + rest)[1..] == rest;
    ConsEqual(q, Carried(rest, p), p, [q] + rest);
    NoTiesCons(p, [q] + rest, floor);
    NoTiesCons(q, rest, floor);
    NoTiesCons(p, rest, floor);
    assert q in [q] + rest;
  }

  // ---------- Histories ----------

  /** What neither switching a policy on or off nor moving it about changes. */
  function Body(p: Policy): Policy {
    p.(enabled := false, updatedAt := 0)
  }

  function Stamped(p: Policy, now: int): Policy {
    p.(createdAt := now, updatedAt := now)
  }

  /** The first policy of that name switched. */
  function Switched(ps: seq<Policy>, name: string, enabled: bool, now: int): seq<Policy> {
    if ps == [] then []
    else if ps[0].name == name then [ps[0].(enabled := enabled, updatedAt := now)] + ps[1..]
    else [ps[0]] + Switched(ps[1..], name, enabled, now)
  }

  lemma {:induction false} SwitchedAt(ps: seq<Policy>, name: string, enabled: bool, now: int, i: nat)
    requires i <= |ps| && forall k :: 0 <= k < i ==> ps[k].name != name
    ensures i == |ps| ==> Switched(ps, name, enabled, now) == ps
    ensures i < |ps| && ps[i].name == name ==>
        Switched(ps, name, enabled, now) == ps[i := ps[i].(enabled := enabled, updatedAt := now)]
    decreases |ps|
  {
    if i != 0 {
      SwitchedAt(ps[1..], name, enabled, now, i - 1);
    }
  }

  datatype Op = Add(policy: Policy, now: int) | Enable(name: string, enabled: bool, now: int)

  function After(ps: seq<Policy>, ops: seq<Op>): seq<Policy>
    decreases |ops|
  {
    if ops == [] then ps
    else
      var last := ops[|ops| - 1];
      var before := After(ps, ops[..|ops| - 1]);
      match last
      case Add(p, now) => Carried(before, Stamped(p, now))
      case Enable(name, enabled, now) => Switched(before, name, enabled, now)
  }

  function Bodies(ps: seq<Policy>): multiset<Policy> {
    if ps == [] then multiset{} else multiset{Body(ps[0])} + Bodies(ps[1..])
  }

  function Added(ops: seq<Op>): multiset<Policy> {
    if ops == [] then multiset{}
    else
      var last := ops[|ops| - 1];
      Added(ops[..|ops| - 1]) +
      if last.Add? then multiset{last.policy.(enabled := false, createdAt := last.now, updatedAt := 0)} else multiset{}
  }

  /** `r` is `s` with `y` added; so are they with `x` in front, and `x` is the one added if `y` was in front. */
  lemma {:induction false} AddedBehind<T>(x: T, y: T, s: seq<T>, r: seq<T>)
    requires multiset(r) == multiset(s) + multiset{y}
    ensures multiset([x] + r) == multiset([x] + s) + multiset{y}
    ensures multiset([x] + r) == multiset([y] + s) + multiset{x}
  {
  }

  lemma {:induction false} CarriedPermutes(ps: seq<Policy>, p: Policy)
    ensures multiset(Carried(ps, p)) == multiset(ps) + multiset{p}
    decreases |ps|
  {
    if ps != [] {
      assert ps == [ps[0]] + ps[1..];
      if ps[0].priority > p.priority {
        CarriedPermutes(ps[1..], ps[0]);
        AddedBehind(p, ps[0], ps[1..], Carried(ps[1..], ps[0]));
      } else {
        CarriedPermutes(ps[1..], p);
        AddedBehind(ps[0], p, ps[1..], Carried(ps[1..], p));
      }
    }
  }

  lemma {:induction false} CarriedBodies(ps: seq<Policy>, p: Policy)
    ensures Bodies(Carried(ps, p)) == Bodies(ps) + multiset{Body(p)}
    decreases |ps|
  {
    if ps != [] {
      var (low, high) := if ps[0].priority > p.priority then (p, ps[0]) else (ps[0], p);
      CarriedBodies(ps[1..], high);
      assert Carried(ps, p)[0] == low && Carried(ps, p)[1..] == Carried(ps[1..], high);
    }
  }

  lemma {:induction false} SwitchedKeeps(ps: seq<Policy>, name: string, enabled: bool, now: int)
    ensures var r := Switched(ps, name, enabled, now);
      && |r| == |ps| && Bodies(r) == Bodies(ps)
      && forall i :: 0 <= i < |ps| ==> r[i].priority == ps[i].priority
    decreases |ps|
  {
    if ps != [] {
      var r := Switched(ps, name, enabled, now);
      if ps[0].name == name {
        assert r[1..] == ps[1..];
      } else {
        SwitchedKeeps(ps[1..], name, enabled, now);
        assert r[1..] == Switched(ps[1..], name, enabled, now);
      }
    }
  }

  /** Any sequence of additions and switches leaves the added policies, each as often as it was added, in
      ascending order of priority. */
  lemma {:induction false} ListRefinement(ops: seq<Op>)
    ensures Sorted(After([], ops)) && Bodies(After([], ops)) == Added(ops)
    decreases |ops|
  {
    if ops != [] {
      var before, last := After([], ops[..|ops| - 1]), ops[|ops| - 1];
      ListRefinement(ops[..|ops| - 1]);
      match last
      case Add(p, now) =>
        CarriedSorted(before, Stamped(p, now));
        CarriedBodies(before, Stamped(p, now));
      case Enable(name, enabled, now) =>
        SwitchedKeeps(before, name, enabled, now);
    }
  }

  // ---------- Decisions ----------

  /** The first rule the request matches. */
  function Matched(r: Request, kind: PolicyType, rules: seq<Rule>): Option<Rule> {
    if rules == [] then None
    else if r.matches(kind, rules[0]) then Some(rules[0])
    else Matched(r, kind, rules[1..])
  }

  /** The rule names a backend that the engine knows. */
  predicate Known<T>(rule: Rule, backends: map<string, T>) {
    rule.backend != "" && rule.backend in backends
  }

  /** The backend of the first rule that names a known one, whether the request matches that rule or not. */
  function RuleBackend<T>(rules: seq<Rule>, backends: map<string, T>): Option<T> {
    if rules == [] then None
    else if Known(rules[0], backends) then Some(backends[rules[0].backend])
    else RuleBackend(rules[1..], backends)
  }

  datatype Match = Match(action: Action, backend: string)

  /** `evaluatePolicy`: nothing, or an action with the backend it names. */
  function Evaluated(r: Request, p: Policy): Option<Match> {
    match p.kind
    case Default => Some(Match(Allow, ""))
    case Canary => if p.percentage > 0 && r.hash % 100 < p.percentage then Some(Match(Allow, "")) else None
    case Unknown => None
    case _ =>
      match Matched(r, p.kind, p.rules)
      case None => None
      case Some(rule) => Some(Match(rule.action, rule.backend))
  }

  /** What a single policy decides, if anything. A redirect to an unknown backend decides nothing;
      an allowing policy without a known backend decides to leave the choice to the caller. */
  function Decision<T>(r: Request, p: Policy, backends: map<string, T>): Option<Verdict<T>> {
    match Evaluated(r, p)
    case None => None
    case Some(m) =>
      match m.action
      case Deny => Some(Denied(p.name))
      case Redirect =>
        if m.backend != "" && m.backend in backends then Some(Chosen(backends[m.backend])) else None
      case Allow =>
        Some(match RuleBackend(p.rules, backends) case None => NoChoice case Some(b) => Chosen(b))
      case Other => None
  }

  /** Policy `i` is the first enabled one that decides. */
  ghost predicate DecidedBy<T>(ps: seq<Policy>, r: Request, backends: map<string, T>, i: nat) {
    && i < |ps| && ps[i].enabled && Decision(r, ps[i], backends).Some?
    && forall j :: 0 <= j < i && ps[j].enabled ==> Decision(r, ps[j], backends) == None
  }

  /** The verdict on a request: that of the first enabled policy that decides. */
  function Ruling<T>(ps: seq<Policy>, r: Request, backends: map<string, T>): Verdict<T> {
    if ps == [] then NoChoice
    else
      var d := if ps[0].enabled then Decision(r, ps[0], backends) else None;
      if d.Some? then d.value else Ruling(ps[1..], r, backends)
  }

  lemma {:induction false} RulingExact<T>(ps: seq<Policy>, r: Request, backends: map<string, T>, i: nat)
    ensures DecidedBy(ps, r, backends, i) ==> Some(Ruling(ps, r, backends)) == Decision(r, ps[i], backends)
    ensures (forall j: nat :: !DecidedBy(ps, r, backends, j)) ==> Ruling(ps, r, backends) == NoChoice
    decreases |ps|
  {
    if ps != [] {
      if ps[0].enabled && Decision(r, ps[0], backends).Some? {
        assert DecidedBy(ps, r, backends, 0);
      } else {
        RulingExact(ps[1..], r, backends, if i == 0 then 0 else i - 1);
        forall j: nat ensures DecidedBy(ps[1..], r, backends, j) ==> DecidedBy(ps, r, backends, j + 1) {
          assert forall k :: 0 <= k < |ps[1..]| ==> ps[1..][k] == ps[k + 1];
        }
      }
    }
  }

  class TrafficPolicyEngine<T> {
    var policies: seq<Policy>
    const backendMap: map<string, T>

    ghost predicate Valid()
      reads this
    {
      Sorted(policies)
    }

    constructor (backendMap: map<string, T>)
      ensures Valid() && policies == [] && this.backendMap == backendMap
    {
      this.backendMap := backendMap;
      policies := [];
    }

    method AddPolicy(policy: Policy, now: int)
      requires Valid()
      modifies this
      ensures Valid() && policies == Carried(old(policies), Stamped(policy, now))
      ensures multiset(policies) ==
          multiset(old(policies)) + multiset{policy.(createdAt := now, updatedAt := now)}
    {
      ghost var ps := policies;
      CarriedSorted(ps, Stamped(policy, now));
      CarriedPermutes(ps, Stamped(policy, now));
      policies := policies + [policy.(createdAt := now, updatedAt := now)];
      Sort(ps, Stamped(policy, now));
    }

    /** The outer loop of the sort, with a newcomer `p` behind a sorted list. */
    method Sort(ghost ps: seq<Policy>, ghost p: Policy)
      requires Sorted(ps) && policies == ps + [p]
      modifies this
      ensures policies == Carried(ps, p)
    {
      var i := 0;
      PassBegins(ps, p);
      while i < |policies| - 1
        invariant i <= |ps| && |policies| == |ps| + 1
        invariant Passing(ps, p, policies, i)
      {
        ghost var at := policies;
        SettlePlace(i);
        PassStep(ps, p, at, policies, i);
        i := i + 1;
      }
      PassEnds(ps, p, policies);
    }

    /** The inner loop of the sort, over the places behind `i`; all but the last are in order. */
    method SettlePlace(i: nat)
      requires i < |policies| - 1
      requires forall k :: i <= k < |policies| - 1 ==> policies[i].priority <= policies[k].priority
      modifies this
      ensures policies == Exchanged(old(policies), i)
    {
      ghost var at := policies;
      var j := i + 1;
      while j < |policies|
        invariant i < j <= |at| == |policies|
        invariant policies == if j == |at| then Exchanged(at, i) else at
      {
        if policies[i].priority > policies[j].priority {
          policies := policies[i := policies[j]][j := policies[i]];
        }
        j := j + 1;
      }
    }

    method EnablePolicy(name: string, enabled: bool, now: int) returns (found: bool)
      requires Valid()
      modifies this
      ensures Valid() && policies == Switched(old(policies), name, enabled, now)
      ensures found == exists p :: p in old(policies) && p.name == name
    {
      SwitchedKeeps(policies, name, enabled, now);
      var i := 0;
      while i < |policies|
        invariant 0 <= i <= |policies| && policies == old(policies)
        invariant forall k :: 0 <= k < i ==> policies[k].name != name
      {
        if policies[i].name == name {
          SwitchedAt(policies, name, enabled, now, i);
          policies := policies[i := policies[i].(enabled := enabled, updatedAt := now)];
          return true;
        }
        i := i + 1;
      }
      SwitchedAt(policies, name, enabled, now, i);
      return false;
    }

    method EvaluatePolicy(r: Request, p: Policy) returns (m: Option<Match>)
      ensures m == Evaluated(r, p)
    {
      match p.kind {
        case Default => return Some(Match(Allow, ""));
        case Canary =>
          if p.percentage > 0 {
            if r.hash % 100 < p.percentage {
              return Some(Match(Allow, ""));
            }
          }
          return None;
        case Unknown => return None;
        case _ =>
          for i := 0 to |p.rules|
            invariant Matched(r, p.kind, p.rules) == Matched(r, p.kind, p.rules[i..])
          {
            assert p.rules[i..][1..] == p.rules[i + 1..];
            if r.matches(p.kind, p.rules[i]) {
              return Some(Match(p.rules[i].action, p.rules[i].backend));
            }
          }
          return None;
      }
    }

    method SelectBackendByPolicy(p: Policy) returns (b: Option<T>)
      ensures b == RuleBackend(p.rules, backendMap)
    {
      for i := 0 to |p.rules|
        invariant RuleBackend(p.rules, backendMap) == RuleBackend(p.rules[i..], backendMap)
      {
        assert p.rules[i..][1..] == p.rules[i + 1..];
        if p.rules[i].backend != "" {
          if p.rules[i].backend in backendMap {
            return Some(backendMap[p.rules[i].backend]);
          }
        }
      }
      return None;
    }

    /** The verdict is that of the first enabled policy that decides. */
    method EvaluateRequest(r: Request) returns (v: Verdict<T>)
      ensures v == Ruling(policies, r, backendMap)
      ensures (exists i: nat ::
              DecidedBy(policies, r, backendMap, i) && Some(v) == Decision(r, policies[i], backendMap))
           || (v == NoChoice && forall i: nat :: !DecidedBy(policies, r, backendMap, i))
    {
      for i := 0 to |policies|
        invariant forall j :: 0 <= j < i && policies[j].enabled ==> Decision(r, policies[j], backendMap) == None
        invariant Ruling(policies, r, backendMap) == Ruling(policies[i..], r, backendMap)
      {
        assert policies[i..][1..] == policies[i + 1..];
        var policy := policies[i];
        if !policy.enabled {
          continue;
        }
        var m := EvaluatePolicy(r, policy);
        if m.Some? {
          if m.value.action == Deny {
            assert DecidedBy(policies, r, backendMap, i);
            return Denied(policy.name);
          }
          if m.value.action == Redirect && m.value.backend != "" {
            if m.value.backend in backendMap {
              assert DecidedBy(policies, r, backendMap, i);
              return Chosen(backendMap[m.value.backend]);
            }
          }
          if m.value.action == Allow {
            var b := SelectBackendByPolicy(policy);
            assert DecidedBy(policies, r, backendMap, i);
            if b.Some? {
              return Chosen(b.value);
            }
            return NoChoice;
          }
        }
      }
      return NoChoice;
    }
  }

  /** In a list the engine keeps, the policy that decides has the smallest priority number of all that would:
      the comment above the sort promises the opposite. */
  lemma {:induction false} SmallestNumberWins<T>(
      ps: seq<Policy>, r: Request, backends: map<string, T>, i: nat, j: nat)
    requires Sorted(ps) && DecidedBy(ps, r, backends, i) && WouldDecide(ps, r, backends, j)
    ensures ps[i].priority <= ps[j].priority
  {
  }

  /** Policy `j` is enabled and would decide if its turn came. */
  predicate WouldDecide<T>(ps: seq<Policy>, r: Request, backends: map<string, T>, j: nat) {
    j < |ps| && ps[j].enabled && Decision(r, ps[j], backends).Some?
  }

  /** The promise is kept, and no policy of a larger number is passed over, exactly when all that would decide have the
      same number. */
  lemma {:induction false} PromisedOrderExact<T>(ps: seq<Policy>, r: Request, backends: map<string, T>, i: nat)
    requires Sorted(ps) && DecidedBy(ps, r, backends, i)
    ensures (forall j: nat :: WouldDecide(ps, r, backends, j) ==> ps[j].priority <= ps[i].priority) <==>
        forall j: nat, k: nat :: WouldDecide(ps, r, backends, j) && WouldDecide(ps, r, backends, k) ==>
          ps[j].priority == ps[k].priority
  {
    assert WouldDecide(ps, r, backends, i);
    forall j: nat | WouldDecide(ps, r, backends, j) ensures ps[i].priority <= ps[j].priority {
      SmallestNumberWins(ps, r, backends, i, j);
    }
  }

  const ALLOW_ALL := Policy("allow", Default, [], true, 1, 0, 0, 0)
  const DENY_MATCHING := Policy("deny", Header, [Rule("X-Blocked", "equals", "yes", Deny, "")], true, 9, 0, 0, 0)

  /** A request that the policy of priority 9 denies is let through by the one of priority 1. */
  lemma {:induction false} LargerNumberPassedOver<T>(r: Request, backends: map<string, T>)
    requires r.matches(Header, DENY_MATCHING.rules[0])
    ensures var ps := After([], [Add(DENY_MATCHING, 0), Add(ALLOW_ALL, 0)]);
      && ps == [ALLOW_ALL, DENY_MATCHING]
      && Decision(r, DENY_MATCHING, backends) == Some(Denied("deny"))
      && DecidedBy(ps, r, backends, 0) && Ruling(ps, r, backends) == NoChoice
  {
    var first, second := Add(DENY_MATCHING, 0), Add(ALLOW_ALL, 0);
    var ops := [first, second];
    assert ops[..1] == [first] && ops[..1][..0] == [];
    assert After([], ops[..1]) == Carried([], DENY_MATCHING);
    assert [DENY_MATCHING][1..] == [];
    assert After([], ops) == [ALLOW_ALL] + Carried([], DENY_MATCHING);
    assert Decision(r, ALLOW_ALL, backends) == Some(NoChoice);
    RulingExact(After([], ops), r, backends, 0);
  }

  /** Rule `i` is the first one that the request matches. */
  ghost predicate FirstMatch(r: Request, p: Policy, i: nat) {
    && i < |p.rules| && r.matches(p.kind, p.rules[i])
    && forall j :: 0 <= j < i ==> !r.matches(p.kind, p.rules[j])
  }

  lemma {:induction false} MatchedExact(r: Request, kind: PolicyType, rules: seq<Rule>, i: nat)
    requires i <= |rules| && forall j :: 0 <= j < i ==> !r.matches(kind, rules[j])
    ensures i == |rules| ==> Matched(r, kind, rules) == None
    ensures i < |rules| && r.matches(kind, rules[i]) ==> Matched(r, kind, rules) == Some(rules[i])
    decreases |rules|
  {
    if i != 0 {
      MatchedExact(r, kind, rules[1..], i - 1);
    }
  }

  /** What a header, geo or path policy decides, by the first of its rules that the request matches: a redirect goes to
      the backend that rule names, if it is known; a denial is one; an allowance chooses some backend or none; any other
      action, and no match at all, decide nothing. */
  lemma {:induction false} RuleDecides<T>(r: Request, p: Policy, backends: map<string, T>, i: nat)
    requires (p.kind == Header || p.kind == Geo || p.kind == Path) && FirstMatch(r, p, i)
    ensures var rule, d := p.rules[i], Decision(r, p, backends);
      match rule.action
      case Redirect =>
        d == if rule.backend != "" && rule.backend in backends then Some(Chosen(backends[rule.backend])) else None
      case Deny => d == Some(Denied(p.name))
      case Allow => d.Some? && !d.value.Denied?
      case Other => d == None
  {
    MatchedExact(r, p.kind, p.rules, i);
  }

  lemma {:induction false} NoMatchDecidesNothing<T>(r: Request, p: Policy, backends: map<string, T>)
    requires p.kind == Header || p.kind == Geo || p.kind == Path
    requires forall rule :: rule in p.rules ==> !r.matches(p.kind, rule)
    ensures Decision(r, p, backends) == None
  {
    MatchedExact(r, p.kind, p.rules, |p.rules|);
  }

  /** A default policy allows everything, one of an unknown type decides nothing, and a canary policy allows the
      requests whose hash falls in its share of a hundred. */
  lemma {:induction false} KindDecides<T>(r: Request, p: Policy, backends: map<string, T>)
    ensures p.kind == Default ==> Decision(r, p, backends).Some? && !Decision(r, p, backends).value.Denied?
    ensures p.kind == Unknown ==> Decision(r, p, backends) == None
    ensures p.kind == Canary ==> (Decision(r, p, backends).Some? <==> r.hash % 100 < p.percentage)
  {
  }

  lemma {:induction false} InBlock(q: nat, k: nat)
    requires k < 100
    ensures (100 * q + k) % 100 == k
  {
  }

  /** Of the hashes from `100 * q` on, how many of the first `n` a policy decides on. */
  function Cohort<T>(r: Request, p: Policy, backends: map<string, T>, q: nat, n: nat): nat {
    if n == 0 then 0
    else
      Cohort(r, p, backends, q, n - 1) +
      if Decision(r.(hash := 100 * q + n - 1), p, backends).Some? then 1 else 0
  }

  /** In every block of a hundred hashes, a canary policy decides on as many as its percentage says. */
  lemma {:induction false} CanaryShare<T>(r: Request, p: Policy, backends: map<string, T>, q: nat, n: nat)
    requires p.kind == Canary && n <= 100
    ensures Cohort(r, p, backends, q, n) ==
        if p.percentage <= 0 then 0 else if p.percentage <= n then p.percentage else n
  {
    if n != 0 {
      CanaryShare(r, p, backends, q, n - 1);
      InBlock(q, n - 1);
      KindDecides(r.(hash := 100 * q + n - 1), p, backends);
    }
  }

  /** A redirect is followed: if the first enabled policy that decides redirects by its first matching rule, the request
      goes to the backend the rule names. */
  lemma {:induction false} RedirectFollowed<T>(
      ps: seq<Policy>, r: Request, backends: map<string, T>, i: nat, j: nat)
    requires i < |ps| && ps[i].enabled && (ps[i].kind == Header || ps[i].kind == Geo || ps[i].kind == Path)
    requires FirstMatch(r, ps[i], j) && ps[i].rules[j].action == Redirect && Known(ps[i].rules[j], backends)
    requires forall k :: 0 <= k < i && ps[k].enabled ==> Decision(r, ps[k], backends) == None
    ensures Ruling(ps, r, backends) == Chosen(backends[ps[i].rules[j].backend])
  {
    RuleDecides(r, ps[i], backends, j);
    assert DecidedBy(ps, r, backends, i);
    RulingExact(ps, r, backends, i);
  }

  /** The name in the first rule that names a known backend. */
  function FirstKnown<T>(rules: seq<Rule>, backends: map<string, T>): Option<string> {
    if rules == [] then None
    else if Known(rules[0], backends) then Some(rules[0].backend)
    else FirstKnown(rules[1..], backends)
  }

  lemma {:induction false} FirstKnownBackend<T>(rules: seq<Rule>, backends: map<string, T>)
    ensures match FirstKnown(rules, backends)
      case None => RuleBackend(rules, backends) == None && forall rule :: rule in rules ==> !Known(rule, backends)
      case Some(name) => name != "" && name in backends && RuleBackend(rules, backends) == Some(backends[name])
  {
    if rules != [] && !Known(rules[0], backends) {
      FirstKnownBackend(rules[1..], backends);
    }
  }

  lemma {:induction false} MatchedMember(r: Request, kind: PolicyType, rules: seq<Rule>)
    ensures Matched(r, kind, rules).Some? ==> Matched(r, kind, rules).value in rules
  {
    if rules != [] {
      MatchedMember(r, kind, rules[1..]);
    }
  }

  /** No two names stand for one backend. */
  ghost predicate Distinct<T>(backends: map<string, T>) {
    forall a, b :: a in backends && b in backends && backends[a] == backends[b] ==> a == b
  }

  /** What the rule that a request matches asks for when it allows it: the backend it names, or no one in particular. */
  function Own<T>(m: Rule, backends: map<string, T>): Verdict<T> {
    if Known(m, backends) then Chosen(backends[m.backend]) else NoChoice
  }

  /** A request that rule `m` allows gets what `m` asks for if and only if the first rule that names a known backend
      names the same one as `m`, or no rule names any. */
  lemma {:induction false} AllowExact<T>(r: Request, p: Policy, m: Rule, backends: map<string, T>)
    requires p.kind == Header || p.kind == Geo || p.kind == Path
    requires Matched(r, p.kind, p.rules) == Some(m) && m.action == Allow && Distinct(backends)
    ensures Decision(r, p, backends) == Some(Own(m, backends)) <==>
        FirstKnown(p.rules, backends) == None || FirstKnown(p.rules, backends) == Some(m.backend)
  {
    FirstKnownBackend(p.rules, backends);
    MatchedMember(r, p.kind, p.rules);
  }

  /** The geographic policy that `main` configures. */
  const GEO_POLICY := Policy("Geo-Based Routing", Geo,
    [Rule("region", "equals", "us-east", Allow, ""),
     Rule("region", "equals", "asia", Redirect, "http://localhost:8083")],
    true, 100, 0, 0, 0)

  /** A request that is merely allowed goes to the backend of a rule it does not match. */
  lemma {:induction false} AllowTakesAnotherRulesBackend<T>(backends: map<string, T>)
    requires "http://localhost:8083" in backends
    ensures var usEast := Request((kind: PolicyType, rule: Rule) => rule.value == "us-east", 0);
      Decision(usEast, GEO_POLICY, backends) == Some(Chosen(backends["http://localhost:8083"]))
  {
    var rules := GEO_POLICY.rules;
    assert rules[1..][0] == Rule("region", "equals", "asia", Redirect, "http://localhost:8083");
    assert RuleBackend(rules, backends) == RuleBackend(rules[1..], backends);
  }

  /** And with the same policy a request from asia goes to the backend meant for it. */
  lemma {:induction false} AsiaIsRedirected<T>(backends: map<string, T>)
    requires "http://localhost:8083" in backends
    ensures var asia := Request((kind: PolicyType, rule: Rule) => rule.value == "asia", 0);
      Ruling([GEO_POLICY], asia, backends) == Chosen(backends["http://localhost:8083"])
  {
    var asia := Request((kind: PolicyType, rule: Rule) => rule.value == "asia", 0);
    assert GEO_POLICY.rules[0].value[0] != GEO_POLICY.rules[1].value[0];
    assert FirstMatch(asia, GEO_POLICY, 1);
    RedirectFollowed([GEO_POLICY], asia, backends, 0, 1);
  }
}

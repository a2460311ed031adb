/** Going round a ring of slots, some of them down: what the balancer's three cyclic scans have in common. */
module Rotation {
  import opened Options

  /** The slot `d` steps after `start`. */
  function Slot(n: nat, start: nat, d: nat): (i: nat)
    requires start < n && d <= n
    ensures i < n
  {
    if start + d < n then start + d else start + d - n
  }

  lemma {:induction false} MulAtLeast(n: nat, z: nat)
    requires 0 < z
    ensures n <= n * z
  {
    if z != 1 {
      MulAtLeast(n, z - 1);
      assert n * z == n * (z - 1) + n;
    }
  }

  lemma {:induction false} ModSum(x: int, q: int, n: nat, i: nat)
    requires i < n && x == q * n + i
    ensures x % n == i
  {
    var p, r := x / n, x % n;
    var z := p - q;
    assert n * z == i - r;
    if 0 < z {
      MulAtLeast(n, z);
    } else if z < 0 {
      MulAtLeast(n, -z);
    }
  }

  lemma {:induction false} ModTurn(x: nat, n: nat)
    requires 0 < n
    ensures (x + n) % n == x % n
  {
    var q, i := x / n, x % n;
    assert x + n == (q + 1) * n + i;
    ModSum(x + n, q + 1, n, i);
  }

  /** The remainder that the code takes is the slot. */
  lemma {:induction false} SlotIsRemainder(n: nat, start: nat, d: nat)
    requires start < n && d <= n
    ensures (start + d) % n == Slot(n, start, d)
  {
    ModSum(start + d, if start + d < n then 0 else 1, n, Slot(n, start, d));
  }

  /** The number of steps from `start` to the first slot that is up, counting on from `d`; `|up|` if there is none. */
  function Steps(up: seq<bool>, start: nat, d: nat): (r: nat)
    requires start < |up| && d <= |up|
    ensures d <= r <= |up|
    ensures r < |up| ==> up[Slot(|up|, start, r)]
    ensures forall k :: d <= k < r ==> !up[Slot(|up|, start, k)]
    decreases |up| - d
  {
    if d == |up| || up[Slot(|up|, start, d)] then d else Steps(up, start, d + 1)
  }

  /** The first slot that is up, cyclically at or after `start`. */
  function NextUp(up: seq<bool>, start: nat): Option<nat>
    requires start < |up|
  {
    var d := Steps(up, start, 0);
    if d == |up| then None else Some(Slot(|up|, start, d))
  }

  ghost predicate AnyUp(up: seq<bool>) {
    exists i :: 0 <= i < |up| && up[i]
  }

  /** A scan finds nothing exactly when nothing is up. */
  lemma {:induction false} NoneExact(up: seq<bool>, start: nat)
    requires start < |up|
    ensures NextUp(up, start) == None <==> !AnyUp(up)
  {
    if AnyUp(up) {
      var n := |up|;
      var i :| 0 <= i < n && up[i];
      var k := if start <= i then i - start else i + n - start;
      assert Slot(n, start, k) == i;
    }
  }

  // ---------- Tickets ----------

  /** Which slots belong to somebody who is alive. */
  function Flags<T(==)>(ring: seq<T>, alive: set<T>): seq<bool> {
    seq(|ring|, i requires 0 <= i < |ring| => ring[i] in alive)
  }

  /** Who serves a ticket that starts from slot `start`. */
  function ServeFrom<T(==)>(ring: seq<T>, alive: set<T>, start: nat): Option<T>
    requires start < |ring|
  {
    match NextUp(Flags(ring, alive), start)
    case None => None
    case Some(i) => Some(ring[i])
  }

  /** Who serves ticket `t`. */
  function Serve<T(==)>(ring: seq<T>, alive: set<T>, t: nat): Option<T> {
    if ring == [] then None else ServeFrom(ring, alive, t % |ring|)
  }

  /** Who serves the `n` tickets from `t` on. */
  function Served<T(==)>(ring: seq<T>, alive: set<T>, t: nat, n: nat): (r: seq<Option<T>>)
    ensures |r| == n
  {
    if n == 0 then [] else Served(ring, alive, t, n - 1) + [Serve(ring, alive, t + n - 1)]
  }

  lemma {:induction false} ServedFirst<T>(ring: seq<T>, alive: set<T>, t: nat, n: nat)
    ensures Served(ring, alive, t, n + 1) == [Serve(ring, alive, t)] + Served(ring, alive, t + 1, n)
  {
    if n != 0 {
      ServedFirst(ring, alive, t, n - 1);
    }
  }

  lemma {:induction false} ServedLast<T>(ring: seq<T>, alive: set<T>, t: nat, n: nat)
    requires 0 < n
    ensures Served(ring, alive, t, n) == Served(ring, alive, t, n - 1) + [Serve(ring, alive, t + n - 1)]
  {
  }

  lemma {:induction false} NextTurn<T>(ring: seq<T>, alive: set<T>, t: nat)
    ensures Serve(ring, alive, t + |ring|) == Serve(ring, alive, t)
  {
    if ring != [] {
      ModTurn(t, |ring|);
    }
  }

  lemma {:induction false} Turned<T>(x: T, s: seq<T>)
    ensures multiset([x] + s) == multiset(s + [x])
  {
  }

  lemma {:induction false} ShiftedTurn<T>(ring: seq<T>, alive: set<T>, t: nat, n: nat)
    requires 0 < n == |ring|
    ensures multiset(Served(ring, alive, t, n)) == multiset(Served(ring, alive, t + 1, n))
  {
    var first := Serve(ring, alive, t);
    var mid := Served(ring, alive, t + 1, n - 1);
    assert Served(ring, alive, t, n) == [first] + mid by {
      ServedFirst(ring, alive, t, n - 1);
    }
    assert Served(ring, alive, t + 1, n) == mid + [first] by {
      NextTurn(ring, alive, t);
      ServedLast(ring, alive, t + 1, n);
    }
    Turned(first, mid);
  }

  /** A full turn serves the same backends, as often, whichever ticket it starts from. */
  lemma {:induction false} FullTurn<T>(ring: seq<T>, alive: set<T>, t: nat, n: nat)
    requires 0 < n == |ring|
    ensures multiset(Served(ring, alive, t, n)) == multiset(Served(ring, alive, 0, n))
    decreases t
  {
    if t != 0 {
      var before := t - 1;
      FullTurn(ring, alive, before, n);
      ShiftedTurn(ring, alive, before, n);
    }
  }

  /** Ticket `k` of the first turn is served by the owner of slot `k`, if it is up. */
  lemma {:induction false} OwnTicket<T>(ring: seq<T>, alive: set<T>, k: nat)
    requires k < |ring|
    ensures var server := Serve(ring, alive, k);
      && (ring[k] in alive ==> server == Some(ring[k]))
      && (server.Some? ==> server.value in alive)
      && ((exists x :: x in ring && x in alive) ==> server.Some?)
  {
    ModSum(k, 0, |ring|, k);
    var up := Flags(ring, alive);
    NoneExact(up, k);
    if x :| x in ring && x in alive {
      var i :| 0 <= i < |ring| && ring[i] == x;
      assert up[i];
    }
    assert Slot(|ring|, k, 0) == k;
  }

  lemma {:induction false} CountAppended<T>(s: seq<T>, x: T, y: T)
    ensures multiset(s + [x])[y] == multiset(s)[y] + if x == y then 1 else 0
  {
  }

  lemma {:induction false} ServedAt<T>(ring: seq<T>, alive: set<T>, t: nat, n: nat, k: nat)
    requires k < n
    ensures Served(ring, alive, t, n)[k] == Serve(ring, alive, t + k)
  {
    if k != n - 1 {
      ServedAt(ring, alive, t, n - 1, k);
    }
  }

  /** Each place has a server who is alive, and it is the owner of the place if he is. */
  lemma {:induction false} Tally<T>(owners: seq<T>, servers: seq<Option<T>>, alive: set<T>, b: T)
    requires |owners| == |servers|
    requires forall k :: 0 <= k < |owners| && owners[k] in alive ==> servers[k] == Some(owners[k])
    requires forall k :: 0 <= k < |servers| && servers[k].Some? ==> servers[k].value in alive
    ensures var count := multiset(servers)[Some(b)];
      && (b in alive ==> multiset(owners)[b] <= count)
      && (b !in alive ==> count == 0)
      && ((forall x :: x in owners ==> x in alive) ==> count == multiset(owners)[b])
  {
    if owners != [] {
      var n := |owners| - 1;
      Tally(owners[..n], servers[..n], alive, b);
      CountAppended(owners[..n], owners[n], b);
      CountAppended(servers[..n], servers[n], Some(b));
      assert owners == owners[..n] + [owners[n]] && servers == servers[..n] + [servers[n]];
    }
  }

  /** In the first turn a slot that is up serves its own ticket. */
  lemma {:induction false} FirstTurn<T>(ring: seq<T>, alive: set<T>, b: T)
    requires ring != []
    ensures var served := multiset(Served(ring, alive, 0, |ring|));
      && (b in alive ==> multiset(ring)[b] <= served[Some(b)])
      && (b !in alive ==> served[Some(b)] == 0)
      && ((forall x :: x in ring ==> x in alive) ==> served[Some(b)] == multiset(ring)[b])
      && ((exists x :: x in ring && x in alive) ==> served[None] == 0)
  {
    var servers := Served(ring, alive, 0, |ring|);
    forall k | 0 <= k < |ring|
      ensures ring[k] in alive ==> servers[k] == Some(ring[k])
      ensures servers[k].Some? ==> servers[k].value in alive
      ensures (exists x :: x in ring && x in alive) ==> servers[k].Some?
    {
      ServedAt(ring, alive, 0, |ring|, k);
      OwnTicket(ring, alive, k);
    }
    Tally(ring, servers, alive, b);
  }

  /** Fairness of weighted round robin. Any `|ring|` consecutive tickets serve each living backend at least as often
      as it has slots, exactly as often when everyone is alive, and never a dead one; and unless all are dead
      every ticket is served. */
  lemma {:induction false} TurnIsFair<T>(ring: seq<T>, alive: set<T>, t: nat, b: T)
    ensures var served := multiset(Served(ring, alive, t, |ring|));
      && |served| == |ring|
      && (b in alive ==> multiset(ring)[b] <= served[Some(b)])
      && (b !in alive ==> served[Some(b)] == 0)
      && ((forall x :: x in ring ==> x in alive) ==> served[Some(b)] == multiset(ring)[b])
      && ((exists x :: x in ring && x in alive) ==> served[None] == 0)
  {
    if ring != [] {
      FullTurn(ring, alive, t, |ring|);
      FirstTurn(ring, alive, b);
    }
  }

  // ---------- Successive scans ----------

  /** The slots that are up, in order, among the first `p`. */
  function UpBefore(up: seq<bool>, p: nat): seq<nat>
    requires p <= |up|
  {
    if p == 0 then []
    else if up[p - 1] then UpBefore(up, p - 1) + [p - 1]
    else UpBefore(up, p - 1)
  }

  /** They are exactly the slots that are up, each of them once. */
  lemma {:induction false} UpBeforeExact(up: seq<bool>, p: nat, j: nat)
    requires p <= |up|
    ensures multiset(UpBefore(up, p))[j] == if j < p && up[j] then 1 else 0
  {
    if p != 0 {
      UpBeforeExact(up, p - 1, j);
    }
  }

  lemma {:induction false} UpBeforePrefix(up: seq<bool>, p: nat, q: nat)
    requires p <= q <= |up|
    ensures UpBefore(up, p) <= UpBefore(up, q)
    decreases q
  {
    if p < q {
      UpBeforePrefix(up, p, q - 1);
    }
  }

  lemma {:induction false} NoneBetween(up: seq<bool>, p: nat, q: nat)
    requires p <= q <= |up| && forall k :: p <= k < q ==> !up[k]
    ensures UpBefore(up, p) == UpBefore(up, q)
    decreases q
  {
    if p < q {
      NoneBetween(up, p, q - 1);
    }
  }

  /** The slots found by `n` scans, each starting right after the slot found before it. */
  function Scans(up: seq<bool>, start: nat, n: nat): seq<nat>
    requires start < |up| && AnyUp(up)
    decreases n
  {
    if n == 0 then []
    else
      NoneExact(up, start);
      var i := NextUp(up, start).value;
      [i] + Scans(up, Slot(|up|, i, 1), n - 1)
  }

  /** The slot found from `start` comes, among those that are up, next after the ones before `start`. */
  lemma {:induction false} FoundAt(up: seq<bool>, start: nat)
    requires start < |up| && AnyUp(up)
    ensures NextUp(up, start).Some?
    ensures var all := UpBefore(up, |up|);
      var rank := |UpBefore(up, start)|;
      var i := NextUp(up, start).value;
      && i < |up| && 0 < |all| && rank <= |all|
      && i == all[if rank == |all| then 0 else rank]
      && |UpBefore(up, i + 1)| == if rank == |all| then 1 else rank + 1
  {
    NoneExact(up, start);
    var n := |up|;
    var d := Steps(up, start, 0);
    var i := Slot(n, start, d);
    UpBeforePrefix(up, start, n);
    UpBeforePrefix(up, i + 1, n);
    assert UpBefore(up, i + 1) == UpBefore(up, i) + [i];
    if start + d < n {
      forall k | start <= k < i ensures !up[k] {
        assert Slot(n, start, k - start) == k;
      }
      NoneBetween(up, start, i);
    } else {
      forall k | start <= k < n ensures !up[k] {
        assert Slot(n, start, k - start) == k;
      }
      NoneBetween(up, start, n);
      forall k | 0 <= k < i ensures !up[k] {
        assert Slot(n, start, k + n - start) == k;
      }
      NoneBetween(up, 0, i);
    }
  }

  /** A list read cyclically from `rank` on. */
  function From<T>(all: seq<T>, rank: nat): seq<T>
    requires rank <= |all|
  {
    all[rank..] + all[..rank]
  }

  lemma {:induction false} FromNext<T>(all: seq<T>, rank: nat, rank': nat, n: nat)
    requires 0 < n <= |all| && rank <= |all| && rank' <= |all|
    requires var first := if rank == |all| then 0 else rank;
      rank' == first + 1 || (rank' == 0 && first + 1 == |all|)
    ensures From(all, rank)[..n] == [all[if rank == |all| then 0 else rank]] + From(all, rank')[..n - 1]
  {
    var first := if rank == |all| then 0 else rank;
    var left, right := From(all, rank)[..n], [all[first]] + From(all, rank')[..n - 1];
    assert |left| == |right|;
    forall k | 0 <= k < n ensures left[k] == right[k] {
      if k != 0 {
        var i := if first + k < |all| then first + k else first + k - |all|;
        assert left[k] == all[i];
        assert right[k] == From(all, rank')[k - 1] == all[i];
      }
    }
  }

  /** As many scans as there are slots up find each of them once, in cyclic order. */
  lemma {:induction false} ScansGoRound(up: seq<bool>, start: nat, n: nat)
    requires start < |up| && AnyUp(up) && n <= |UpBefore(up, |up|)|
    ensures |UpBefore(up, start)| <= |UpBefore(up, |up|)|
    ensures Scans(up, start, n) == From(UpBefore(up, |up|), |UpBefore(up, start)|)[..n]
    decreases n
  {
    var all := UpBefore(up, |up|);
    var rank := |UpBefore(up, start)|;
    FoundAt(up, start);
    if n != 0 {
      var i := NextUp(up, start).value;
      var next := Slot(|up|, i, 1);
      ScansGoRound(up, next, n - 1);
      FromNext(all, rank, |UpBefore(up, next)|, n);
    }
  }
}

/** Turns of the unweighted rotation: which backends `GetNextPeer` finds in successive calls, and what the wrap of the
    shared counter does to that. */
module PeerTurns {
  import opened GoInts
  import opened Options
  import opened Rotation

  /** The slot of a counter value is up. */
  predicate UpAt(up: seq<bool>, ticket: nat) {
    up != [] && up[ticket % |up|]
  }

  /** The slot found by a call of `GetNextPeer`, which looks on from the counter. */
  function FoundBy(up: seq<bool>, current: uint64): (i: nat)
    requires AnyUp(up)
    ensures i < |up|
  {
    var next := Inc64(current) % |up|;
    NoneExact(up, next);
    NextUp(up, next).value
  }

  /** The counter it leaves behind. */
  function Left(up: seq<bool>, current: uint64): uint64
    requires AnyUp(up) && |up| < TWO_63
  {
    var i := FoundBy(up, current);
    if i == Inc64(current) % |up| then Inc64(current) else i
  }

  /** The slots found by `k` calls. */
  function PeerCalls(up: seq<bool>, current: uint64, k: nat): seq<nat>
    requires AnyUp(up) && |up| < TWO_63
    decreases k
  {
    if k == 0 then [] else [FoundBy(up, current)] + PeerCalls(up, Left(up, current), k - 1)
  }

  /** The counter after them. */
  function LeftAfter(up: seq<bool>, current: uint64, k: nat): uint64
    requires AnyUp(up) && |up| < TWO_63
    decreases k
  {
    if k == 0 then current else LeftAfter(up, Left(up, current), k - 1)
  }

  lemma {:induction false} NextSlot(n: nat, current: nat, i: nat)
    requires i < n && current % n == i
    ensures (current + 1) % n == Slot(n, i, 1)
  {
    var q := current / n;
    assert current == q * n + i;
    if i + 1 == n {
      assert current + 1 == (q + 1) * n + 0;
      ModSum(current + 1, q + 1, n, 0);
    } else {
      ModSum(current + 1, q, n, i + 1);
    }
  }

  /** The next call goes on behind the slot the counter stands for, unless the counter wraps and the number of
      backends does not divide 2^64. */
  lemma {:induction false} NextCallExact(n: nat, current: uint64)
    requires 0 < n
    ensures current % n < n
    ensures Inc64(current) % n == Slot(n, current % n, 1) <==> current + 1 < TWO_64 || TWO_64 % n == 0
  {
    var i := current % n;
    NextSlot(n, current, i);
    ModSum(0, 0, n, 0);
  }

  /** The counter wraps before the last of `k` calls: it is high enough, and no call up to the wrap has to move it to
      another slot. */
  ghost predicate Wraps(up: seq<bool>, current: uint64, k: nat) {
    TWO_64 - Inc64(current) < k && forall t :: Inc64(current) <= t < TWO_64 ==> UpAt(up, t)
  }

  /** The scan from the first slot, where the counter goes on after a wrap, finds what the scan from the slot that was
      due would have found. */
  ghost predicate WrapHidden(up: seq<bool>)
    requires up != []
  {
    NextUp(up, 0) == NextUp(up, TWO_64 % |up|)
  }

  lemma {:induction false} SameScans(up: seq<bool>, a: nat, b: nat, k: nat)
    requires a < |up| && b < |up| && AnyUp(up) && NextUp(up, a) == NextUp(up, b)
    ensures Scans(up, a, k) == Scans(up, b, k)
  {
  }

  lemma {:induction false} Found(up: seq<bool>, current: uint64)
    requires AnyUp(up)
    ensures var next := Inc64(current) % |up|;
      && NextUp(up, next).Some?
      && NextUp(up, next).value < |up|
      && (NextUp(up, next).value == next <==> UpAt(up, Inc64(current)))
  {
    var next := Inc64(current) % |up|;
    NoneExact(up, next);
    assert Slot(|up|, next, 0) == next;
    assert NextUp(up, next).value == next ==> up[next];
  }

  /** What one call does to the chance of a wrap. */
  lemma {:induction false} StillUnwrapped(up: seq<bool>, current: uint64, i: nat, k: nat)
    requires AnyUp(up) && i < |up| < TWO_63 && |up| + k <= TWO_64 && 1 < k
    ensures var x := Inc64(current);
      && (UpAt(up, x) && x + 1 < TWO_64 ==> (Wraps(up, x, k - 1) <==> Wraps(up, current, k)))
      && (UpAt(up, x) && x + 1 == TWO_64 ==> Wraps(up, current, k) && !Wraps(up, x, k - 1))
      && (!UpAt(up, x) ==> !Wraps(up, current, k) && !Wraps(up, i, k - 1))
  {
  }

  /** From the counter that a call leaves behind, a scan finds what one from the next slot does. */
  lemma {:induction false} NextFound(up: seq<bool>, current': uint64, i: nat)
    requires AnyUp(up) && i < |up| && current' % |up| == i
    requires current' + 1 < TWO_64 || WrapHidden(up)
    ensures NextUp(up, Inc64(current') % |up|) == NextUp(up, Slot(|up|, i, 1))
  {
    NextSlot(|up|, current', i);
    ModSum(0, 0, |up|, 0);
  }

  /** One call, and one scan from where it starts: the slot both find, and the counter the call leaves. */
  lemma {:induction false} OneCall(up: seq<bool>, current: uint64, k: nat) returns (i: nat, left: uint64)
    requires AnyUp(up) && |up| < TWO_63 && 0 < k
    ensures i < |up| && left % |up| == i && left == if UpAt(up, Inc64(current)) then Inc64(current) else i
    ensures PeerCalls(up, current, k) == [i] + PeerCalls(up, left, k - 1)
    ensures Scans(up, Inc64(current) % |up|, k) == [i] + Scans(up, Slot(|up|, i, 1), k - 1)
  {
    Found(up, current);
    i := NextUp(up, Inc64(current) % |up|).value;
    left := if UpAt(up, Inc64(current)) then Inc64(current) else i;
    ModSum(i, 0, |up|, i);
  }

  /** Unless a wrap shows, each call goes on behind the slot found before it. */
  lemma {:induction false} PeerCallsAreScans(up: seq<bool>, current: uint64, k: nat)
    requires AnyUp(up) && |up| < TWO_63 && |up| + k <= TWO_64
    requires !Wraps(up, current, k) || WrapHidden(up)
    ensures PeerCalls(up, current, k) == Scans(up, Inc64(current) % |up|, k)
    decreases k
  {
    if k != 0 {
      var i, left := OneCall(up, current, k);
      if k != 1 {
        StillUnwrapped(up, current, i, k);
        NextFound(up, left, i);
        PeerCallsAreScans(up, left, k - 1);
        SameScans(up, Inc64(left) % |up|, Slot(|up|, i, 1), k - 1);
      }
    }
  }

  // ---------- Across the wrap ----------

  lemma {:induction false} CallsJoin(up: seq<bool>, current: uint64, m: nat, k: nat)
    requires AnyUp(up) && |up| < TWO_63
    ensures PeerCalls(up, current, m + k) == PeerCalls(up, current, m) + PeerCalls(up, LeftAfter(up, current, m), k)
    decreases m
  {
    if m != 0 {
      CallsJoin(up, Left(up, current), m - 1, k);
    }
  }

  /** Up to the wrap the counter is never moved. */
  lemma {:induction false} LeftAtWrap(up: seq<bool>, current: uint64, m: nat)
    requires AnyUp(up) && |up| < TWO_63 && 0 < m && Inc64(current) + m == TWO_64
    requires forall t :: Inc64(current) <= t < TWO_64 ==> UpAt(up, t)
    ensures LeftAfter(up, current, m) == TWO_64 - 1
    decreases m
  {
    assert UpAt(up, Inc64(current));
    Found(up, current);
    if m != 1 {
      LeftAtWrap(up, Left(up, current), m - 1);
    } else {
      assert LeftAfter(up, current, 1) == LeftAfter(up, Left(up, current), 0);
    }
  }

  /** The scan after `m` that found every slot they started from. */
  lemma {:induction false} ScanAfter(up: seq<bool>, x: nat, m: nat)
    requires AnyUp(up) && forall t :: x <= t < x + m ==> UpAt(up, t)
    ensures NextUp(up, (x + m) % |up|).Some?
    ensures |Scans(up, x % |up|, m + 1)| == m + 1
    ensures Scans(up, x % |up|, m + 1)[m] == NextUp(up, (x + m) % |up|).value
    decreases m
  {
    var n := |up|;
    NoneExact(up, x % n);
    if m == 0 {
      assert Scans(up, x % n, 1) == [NextUp(up, x % n).value] + Scans(up, Slot(n, NextUp(up, x % n).value, 1), 0);
    } else {
      assert UpAt(up, x);
      assert Slot(n, x % n, 0) == x % n;
      assert NextUp(up, x % n).value == x % n;
      NextSlot(n, x, x % n);
      ScanAfter(up, x + 1, m - 1);
    }
  }

  ghost predicate NoRepeats(s: seq<nat>) {
    forall i, j :: 0 <= i < j < |s| ==> s[i] != s[j]
  }

  lemma {:induction false} UpBeforeNoRepeats(up: seq<bool>, p: nat)
    requires p <= |up|
    ensures NoRepeats(UpBefore(up, p)) && forall j :: j in UpBefore(up, p) ==> j < p
    ensures |UpBefore(up, p)| <= p
  {
    if p != 0 {
      var rest := UpBefore(up, p - 1);
      UpBeforeNoRepeats(up, p - 1);
      forall i | 0 <= i < |rest| ensures rest[i] < p - 1 {
        assert rest[i] in rest;
      }
    }
  }

  lemma {:induction false} Differ(a: seq<nat>, b: seq<nat>, c: seq<nat>, x: nat)
    requires x in b <==> x !in c
    ensures multiset(a + b) != multiset(a + c)
  {
    assert multiset(a + b)[x] == multiset(a)[x] + multiset(b)[x];
    assert multiset(a + c)[x] == multiset(a)[x] + multiset(c)[x];
    assert x in b <==> x in multiset(b);
  }

  lemma {:induction false} FromIsAll(all: seq<nat>, rank: nat)
    requires rank <= |all|
    ensures multiset(From(all, rank)) == multiset(all)
  {
    assert all == all[..rank] + all[rank..];
  }

  /** The first places of a list against the last ones of a reading that does not come back to its head there. */
  lemma {:induction false} OddOneOut(all: seq<nat>, rank: nat, m: nat) returns (x: nat)
    requires NoRepeats(all) && rank <= |all| && 0 < m < |all| && From(all, rank)[m] != all[0]
    ensures x in all[..|all| - m] <==> x !in From(all, rank)[m..]
  {
    var h, rest := |all|, From(all, rank)[m..];
    if rank + m < h {
      x := all[h - 1];
      assert rest[h - 1 - rank - m] == x;
    } else {
      x := all[0];
      var first := if rank == h then m else rank + m - h;
      assert all[..h - m][0] == x;
      assert rest == all[first..first + h - m];
    }
  }

  /** A turn that is cut after `m` slots and taken up at the head of the list does not serve each slot once, unless the
      head was due. */
  lemma {:induction false} CutTurn(all: seq<nat>, rank: nat, m: nat)
    requires NoRepeats(all) && rank <= |all| && 0 < m < |all| && From(all, rank)[m] != all[0]
    ensures multiset(From(all, rank)[..m] + all[..|all| - m]) != multiset(all)
  {
    var f := From(all, rank);
    var x := OddOneOut(all, rank, m);
    FromIsAll(all, rank);
    assert f == f[..m] + f[m..];
    Differ(f[..m], all[..|all| - m], f[m..], x);
  }

  /** In a turn of as many calls as there are living backends, each of them is served once if and only if the counter
      does not wrap during the turn or the wrap does not show; and then they are served in cyclic order. */
  lemma {:induction false} EachPeerOnce(up: seq<bool>, current: uint64)
    requires AnyUp(up) && |up| < TWO_63
    ensures var all := UpBefore(up, |up|);
      var calls := PeerCalls(up, current, |all|);
      var rank := |UpBefore(up, Inc64(current) % |up|)|;
      && (multiset(calls) == multiset(all) <==> !Wraps(up, current, |all|) || WrapHidden(up))
      && rank <= |all|
      && (!Wraps(up, current, |all|) || WrapHidden(up) ==> calls == From(all, rank))
  {
    var all, start := UpBefore(up, |up|), Inc64(current) % |up|;
    var rank := |UpBefore(up, start)|;
    UpBeforeNoRepeats(up, |up|);
    ScansGoRound(up, start, |all|);
    if !Wraps(up, current, |all|) || WrapHidden(up) {
      PeerCallsAreScans(up, current, |all|);
      assert From(all, rank)[..|all|] == From(all, rank);
      FromIsAll(all, rank);
    } else {
      WrapShows(up, current, all, rank);
    }
  }

  lemma {:induction false} BeforeWrap(up: seq<bool>, current: uint64, all: seq<nat>, rank: nat, m: nat)
    requires AnyUp(up) && |up| < TWO_63 && all == UpBefore(up, |up|) && m <= |all| <= |up|
    requires Inc64(current) + m == TWO_64 && rank == |UpBefore(up, Inc64(current) % |up|)| <= |all|
    ensures PeerCalls(up, current, m) == From(all, rank)[..m]
  {
    PeerCallsAreScans(up, current, m);
    ScansGoRound(up, Inc64(current) % |up|, m);
  }

  lemma {:induction false} AfterWrap(up: seq<bool>, all: seq<nat>, k: nat)
    requires AnyUp(up) && |up| < TWO_63 && all == UpBefore(up, |up|) && k <= |all| <= |up|
    ensures PeerCalls(up, TWO_64 - 1, k) == all[..k]
  {
    ModSum(0, 0, |up|, 0);
    PeerCallsAreScans(up, TWO_64 - 1, k);
    ScansGoRound(up, 0, k);
    assert From(all, 0) == all;
  }

  /** The turn across the wrap: `m` slots up to it, and the rest from the head of the list. */
  lemma {:induction false} TurnAcross(up: seq<bool>, current: uint64, all: seq<nat>, rank: nat, m: nat)
    requires AnyUp(up) && |up| < TWO_63 && all == UpBefore(up, |up|) && |all| <= |up|
    requires Wraps(up, current, |all|) && m == TWO_64 - Inc64(current)
    requires rank == |UpBefore(up, Inc64(current) % |up|)| <= |all|
    ensures PeerCalls(up, current, |all|) == From(all, rank)[..m] + all[..|all| - m]
  {
    CallsJoin(up, current, m, |all| - m);
    LeftAtWrap(up, current, m);
    BeforeWrap(up, current, all, rank, m);
    AfterWrap(up, all, |all| - m);
  }

  /** What would have been found after the first `m`. */
  lemma {:induction false} DueAfter(up: seq<bool>, x: nat, all: seq<nat>, rank: nat, m: nat)
    requires AnyUp(up) && all == UpBefore(up, |up|) && m < |all|
    requires forall t :: x <= t < x + m ==> UpAt(up, t)
    requires rank == |UpBefore(up, x % |up|)| <= |all|
    ensures NextUp(up, (x + m) % |up|) == Some(From(all, rank)[m])
  {
    ScanAfter(up, x, m);
    ScansGoRound(up, x % |up|, m + 1);
  }

  lemma {:induction false} WrapShows(up: seq<bool>, current: uint64, all: seq<nat>, rank: nat)
    requires AnyUp(up) && |up| < TWO_63 && all == UpBefore(up, |up|) && NoRepeats(all) && |all| <= |up|
    requires Wraps(up, current, |all|) && !WrapHidden(up)
    requires rank == |UpBefore(up, Inc64(current) % |up|)| <= |all|
    ensures multiset(PeerCalls(up, current, |all|)) != multiset(all)
  {
    var m := TWO_64 - Inc64(current);
    TurnAcross(up, current, all, rank, m);
    DueAfter(up, Inc64(current), all, rank, m);
    FoundAt(up, 0);
    CutTurn(all, rank, m);
  }

  /** With all backends alive: if and only if the turn ends before the wrap or their number divides 2^64. */
  lemma {:induction false} AllAliveTurn(up: seq<bool>, current: uint64)
    requires up != [] && |up| < TWO_63 && forall i :: 0 <= i < |up| ==> up[i]
    ensures AnyUp(up)
    ensures multiset(PeerCalls(up, current, |up|)) == multiset(UpBefore(up, |up|)) <==>
        Inc64(current) + |up| <= TWO_64 || TWO_64 % |up| == 0
  {
    assert up[0];
    AllUpBefore(up, |up|);
    EachPeerOnce(up, current);
    forall s | 0 <= s < |up| ensures NextUp(up, s) == Some(s) {
      assert Slot(|up|, s, 0) == s;
    }
  }

  lemma {:induction false} AllUpBefore(up: seq<bool>, p: nat)
    requires p <= |up| && forall i :: 0 <= i < |up| ==> up[i]
    ensures |UpBefore(up, p)| == p
  {
    if p != 0 {
      AllUpBefore(up, p - 1);
    }
  }

  /** Three backends and a turn that begins just before the wrap: the first is served twice, the last not at all. */
  lemma {:induction false} WrapServesTwice()
    ensures var up := [true, true, true]; AnyUp(up) && PeerCalls(up, TWO_64 - 2, 3) == [0, 0, 1]
  {
    var up := [true, true, true];
    assert up[0];
    assert Steps(up, 0, 0) == 0 && Steps(up, 1, 0) == 0;
    assert PeerCalls(up, 0, 1) == [1] + PeerCalls(up, 1, 0);
    assert PeerCalls(up, TWO_64 - 1, 2) == [0] + PeerCalls(up, 0, 1);
    assert PeerCalls(up, TWO_64 - 2, 3) == [0] + PeerCalls(up, TWO_64 - 1, 2);
  }
}

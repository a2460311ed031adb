/** The lists that the server pool derives from its backends. */
module PoolIndex {
  import opened GoInts
  import opened Options
  import opened Rotation
  import opened Backends

  function Repeated(b: Backend, n: int): seq<Backend> {
    if n <= 0 then [] else Repeated(b, n - 1) + [b]
  }

  /** Every backend, in order, as often as its weight says. */
  function Expanded(bs: seq<Backend>): seq<Backend> {
    if bs == [] then []
    else Expanded(bs[..|bs| - 1]) + Repeated(bs[|bs| - 1], bs[|bs| - 1].weight)
  }

  function InRegion(bs: seq<Backend>, region: string): seq<Backend> {
    if bs == [] then []
    else
      var b := bs[|bs| - 1];
      if b.region == region then InRegion(bs[..|bs| - 1], region) + [b] else InRegion(bs[..|bs| - 1], region)
  }

  function Live(bs: seq<Backend>, alive: set<Backend>): seq<Backend> {
    if bs == [] then []
    else
      var b := bs[|bs| - 1];
      if b in alive then Live(bs[..|bs| - 1], alive) + [b] else Live(bs[..|bs| - 1], alive)
  }

  /** The plain scan: the living backends of a region, or all living ones if there are none. */
  function Candidates(bs: seq<Backend>, alive: set<Backend>, region: string): seq<Backend> {
    var local := Live(InRegion(bs, region), alive);
    if region != "" && local != [] then local else Live(bs, alive)
  }

  function Listed(regions: map<string, seq<Backend>>, region: string): seq<Backend> {
    if region in regions then regions[region] else []
  }

  /** The index of regions says what a scan of the list would. Its entry for the empty name is never read:
      one writer keeps it, the other does not. */
  ghost predicate Indexes(regions: map<string, seq<Backend>>, bs: seq<Backend>) {
    forall r :: r != "" ==> Listed(regions, r) == InRegion(bs, r)
  }

  lemma {:induction false} Appended(bs: seq<Backend>, b: Backend)
    ensures Expanded(bs + [b]) == Expanded(bs) + Repeated(b, b.weight)
    ensures forall r :: InRegion(bs + [b], r) == if b.region == r then InRegion(bs, r) + [b] else InRegion(bs, r)
  {
    assert (bs + [b])[..|bs|] == bs;
  }

  /** The index after one more backend was filed under its region. */
  function Filed(regions: map<string, seq<Backend>>, b: Backend): map<string, seq<Backend>> {
    regions[b.region := Listed(regions, b.region) + [b]]
  }

  /** Filing keeps the index right, and so does not filing what has no region; the entry for the empty name follows
      the list only if it is filed too. */
  lemma {:induction false} FiledIndexes(regions: map<string, seq<Backend>>, bs: seq<Backend>, b: Backend)
    requires Indexes(regions, bs)
    ensures Indexes(if b.region == "" then regions else Filed(regions, b), bs + [b])
    ensures Indexes(Filed(regions, b), bs + [b])
    ensures Listed(regions, "") == InRegion(bs, "") ==> Listed(Filed(regions, b), "") == InRegion(bs + [b], "")
  {
    Appended(bs, b);
    forall r | r != "" ensures Listed(Filed(regions, b), r) == InRegion(bs + [b], r) {
      assert Listed(regions, r) == InRegion(bs, r);
    }
  }

  lemma {:induction false} LiveAppended(bs: seq<Backend>, b: Backend, alive: set<Backend>)
    ensures Live(bs + [b], alive) == if b in alive then Live(bs, alive) + [b] else Live(bs, alive)
  {
    assert (bs + [b])[..|bs|] == bs;
  }

  lemma {:induction false} LiveMembers(bs: seq<Backend>, alive: set<Backend>, b: Backend)
    ensures b in Live(bs, alive) <==> b in bs && b in alive
  {
    if bs != [] {
      var init := bs[..|bs| - 1];
      assert bs == init + [bs[|bs| - 1]];
      LiveMembers(init, alive, b);
    }
  }

  lemma {:induction false} InRegionMembers(bs: seq<Backend>, region: string, b: Backend)
    ensures b in InRegion(bs, region) <==> b in bs && b.region == region
  {
    if bs != [] {
      var init := bs[..|bs| - 1];
      assert bs == init + [bs[|bs| - 1]];
      InRegionMembers(init, region, b);
    }
  }

  /** `list` holds exactly the living backends of `bs`, those of one region if one is given, in the order of `bs`; `idx`
      says where each of them stands. */
  ghost predicate Lists(list: seq<Backend>, bs: seq<Backend>, idx: seq<nat>, alive: set<Backend>,
                        region: Option<string>)
  {
    && |idx| == |list|
    && (forall j, k :: 0 <= j < k < |idx| ==> idx[j] < idx[k])
    && (forall k :: 0 <= k < |idx| ==> idx[k] < |bs| && list[k] == bs[idx[k]])
    && forall i :: 0 <= i < |bs| ==>
         (i in idx <==> bs[i] in alive && (region.Some? ==> bs[i].region == region.value))
  }

  lemma {:induction false} ListsOneMore(list: seq<Backend>, bs: seq<Backend>, idx: seq<nat>, alive: set<Backend>,
                                        region: Option<string>, b: Backend)
    requires Lists(list, bs, idx, alive, region)
    ensures if b in alive && (region.Some? ==> b.region == region.value)
      then Lists(list + [b], bs + [b], idx + [|bs|], alive, region)
      else Lists(list, bs + [b], idx, alive, region)
  {
    var after := bs + [b];
    assert forall i :: 0 <= i < |bs| ==> after[i] == bs[i];
    forall i | i in idx ensures i < |bs| {
      var k :| 0 <= k < |idx| && idx[k] == i;
    }
  }

  lemma {:induction false} LiveLists(bs: seq<Backend>, alive: set<Backend>) returns (idx: seq<nat>)
    ensures Lists(Live(bs, alive), bs, idx, alive, None)
  {
    idx := [];
    if bs != [] {
      var init, b := bs[..|bs| - 1], bs[|bs| - 1];
      idx := LiveLists(init, alive);
      ListsOneMore(Live(init, alive), init, idx, alive, None, b);
      assert bs == init + [b];
      if b in alive {
        idx := idx + [|init|];
      }
    }
  }

  lemma {:induction false} RegionLists(bs: seq<Backend>, alive: set<Backend>, region: string) returns (idx: seq<nat>)
    ensures Lists(Live(InRegion(bs, region), alive), bs, idx, alive, Some(region))
  {
    idx := [];
    if bs != [] {
      var init, b := bs[..|bs| - 1], bs[|bs| - 1];
      idx := RegionLists(init, alive, region);
      ListsOneMore(Live(InRegion(init, region), alive), init, idx, alive, Some(region), b);
      assert bs == init + [b];
      if b.region == region {
        LiveAppended(InRegion(init, region), b, alive);
        if b in alive {
          idx := idx + [|init|];
        }
      }
    }
  }

  /** Somebody living is of that region. */
  ghost predicate Populated(bs: seq<Backend>, alive: set<Backend>, region: string) {
    exists b :: b in bs && b in alive && b.region == region
  }

  /** The candidates are the living backends of the region if it is named and has any, else all living ones. */
  lemma {:induction false} CandidatesExact(bs: seq<Backend>, alive: set<Backend>, region: string)
    returns (idx: seq<nat>)
    ensures Lists(Candidates(bs, alive, region), bs, idx, alive,
                  if region != "" && Populated(bs, alive, region) then Some(region) else None)
    ensures Candidates(bs, alive, region) == [] <==> forall b :: b in bs ==> b !in alive
  {
    var local := RegionLists(bs, alive, region);
    var all := LiveLists(bs, alive);
    forall b ensures b in Live(InRegion(bs, region), alive) <==> b in bs && b in alive && b.region == region {
      LiveMembers(InRegion(bs, region), alive, b);
      InRegionMembers(bs, region, b);
    }
    forall b ensures b in Live(bs, alive) <==> b in bs && b in alive {
      LiveMembers(bs, alive, b);
    }
    if Live(InRegion(bs, region), alive) != [] {
      assert Live(InRegion(bs, region), alive)[0] in Live(InRegion(bs, region), alive);
    }
    if Live(bs, alive) != [] {
      assert Live(bs, alive)[0] in Live(bs, alive);
    }
    idx := if region != "" && Live(InRegion(bs, region), alive) != [] then local else all;
  }

  lemma {:induction false} CandidatesRegion(bs: seq<Backend>, alive: set<Backend>, region: string)
    ensures region != "" && Populated(bs, alive, region) ==>
        Candidates(bs, alive, region) != [] && forall b :: b in Candidates(bs, alive, region) ==> b.region == region
  {
    var idx := CandidatesExact(bs, alive, region);
    var list := Candidates(bs, alive, region);
    if region != "" && Populated(bs, alive, region) {
      forall b | b in list ensures b.region == region {
        var k :| 0 <= k < |list| && list[k] == b;
        assert idx[k] in idx;
      }
    }
  }

  lemma {:induction false} CandidatesMembers(bs: seq<Backend>, alive: set<Backend>, region: string, b: Backend)
    requires b in Candidates(bs, alive, region)
    ensures b in bs && b in alive
  {
    LiveMembers(InRegion(bs, region), alive, b);
    InRegionMembers(bs, region, b);
    LiveMembers(bs, alive, b);
  }

  lemma {:induction false} RepeatedCount(b: Backend, n: int, c: Backend)
    ensures multiset(Repeated(b, n))[c] == if b == c && 0 < n then n else 0
    decreases if n < 0 then 0 else n
  {
    if 0 < n {
      RepeatedCount(b, n - 1, c);
    }
  }

  /** A backend that was added once has as many slots as its weight, and one of weight zero or less has none. */
  lemma {:induction false} SlotsAreWeight(bs: seq<Backend>, b: Backend)
    requires forall i, j :: 0 <= i < j < |bs| ==> bs[i] != bs[j]
    ensures multiset(Expanded(bs))[b] == if b in bs && 0 < b.weight then b.weight else 0
  {
    if bs != [] {
      var init, last := bs[..|bs| - 1], bs[|bs| - 1];
      assert bs == init + [last];
      SlotsAreWeight(init, b);
      RepeatedCount(last, last.weight, b);
      assert last !in init;
    }
  }

  lemma {:induction false} ExpandedMembers(bs: seq<Backend>, b: Backend)
    ensures b in Expanded(bs) <==> b in bs && 0 < b.weight
  {
    if bs != [] {
      var init, last := bs[..|bs| - 1], bs[|bs| - 1];
      assert bs == init + [last];
      ExpandedMembers(init, b);
      RepeatedCount(last, last.weight, b);
      assert b in Repeated(last, last.weight) <==> b in multiset(Repeated(last, last.weight));
    }
  }

  function TotalWeight(bs: seq<Backend>, alive: set<Backend>): int {
    if bs == [] then 0
    else
      var b := bs[|bs| - 1];
      TotalWeight(bs[..|bs| - 1], alive) + if b in alive then b.weight else 0
  }

  /** No living backend has a positive weight. */
  ghost predicate Weightless(bs: seq<Backend>, alive: set<Backend>) {
    forall b :: b in bs && b in alive ==> b.weight <= 0
  }

  lemma {:induction false} UnservedFrom(bs: seq<Backend>, alive: set<Backend>, start: nat)
    requires start < |Expanded(bs)|
    ensures ServeFrom(Expanded(bs), alive, start) == None <==> Weightless(bs, alive)
  {
    var ring := Expanded(bs);
    var up := Flags(ring, alive);
    NoneExact(up, start);
    if AnyUp(up) {
      var i :| 0 <= i < |up| && up[i];
      ExpandedMembers(bs, ring[i]);
    }
    if b :| b in bs && b in alive && 0 < b.weight {
      ExpandedMembers(bs, b);
      var i :| 0 <= i < |ring| && ring[i] == b;
      assert up[i];
    }
  }

  lemma {:induction false} NothingExpanded(bs: seq<Backend>, alive: set<Backend>)
    requires Expanded(bs) == []
    ensures Weightless(bs, alive)
  {
    forall b | b in bs && b in alive ensures b.weight <= 0 {
      ExpandedMembers(bs, b);
    }
  }

  /** No ticket is served exactly when no living backend has a positive weight. */
  lemma {:induction false} UnservedExact(bs: seq<Backend>, alive: set<Backend>, t: nat)
    ensures Serve(Expanded(bs), alive, t) == None <==> Weightless(bs, alive)
  {
    if Expanded(bs) == [] {
      NothingExpanded(bs, alive);
    } else {
      UnservedFrom(bs, alive, t % |Expanded(bs)|);
    }
  }

  /** With non-negative weights, the total weight is the number of slots that are up. */
  lemma {:induction false} TotalWeightIsSlots(bs: seq<Backend>, alive: set<Backend>)
    requires NonNegative(bs)
    ensures TotalWeight(bs, alive) == |UpBefore(Flags(Expanded(bs), alive), |Expanded(bs)|)|
  {
    if bs != [] {
      var init, last := bs[..|bs| - 1], bs[|bs| - 1];
      assert bs == init + [last];
      TotalWeightIsSlots(init, alive);
      RepeatedSlots(Expanded(init), last, last.weight, alive);
    }
  }

  lemma {:induction false} RepeatedSlots(ring: seq<Backend>, b: Backend, n: nat, alive: set<Backend>)
    ensures var before, after := Flags(ring, alive), Flags(ring + Repeated(b, n), alive);
      |UpBefore(after, |after|)| == |UpBefore(before, |before|)| + if b in alive then n else 0
  {
    if n == 0 {
      assert ring + Repeated(b, 0) == ring;
    } else {
      RepeatedSlots(ring, b, n - 1, alive);
      var most := ring + Repeated(b, n - 1);
      assert ring + Repeated(b, n) == most + [b];
      SlotAdded(most, b, alive);
    }
  }

  lemma {:induction false} SlotAdded(ring: seq<Backend>, b: Backend, alive: set<Backend>)
    ensures var before, after := Flags(ring, alive), Flags(ring + [b], alive);
      |UpBefore(after, |after|)| == |UpBefore(before, |before|)| + if b in alive then 1 else 0
  {
    SameUpBefore(Flags(ring, alive), Flags(ring + [b], alive), |ring|);
  }

  lemma {:induction false} SameUpBefore(a: seq<bool>, b: seq<bool>, p: nat)
    requires p <= |a| && p <= |b| && forall i :: 0 <= i < p ==> a[i] == b[i]
    ensures UpBefore(a, p) == UpBefore(b, p)
  {
    if p != 0 {
      SameUpBefore(a, b, p - 1);
    }
  }

  ghost predicate NonNegative(bs: seq<Backend>) {
    forall b :: b in bs ==> 0 <= b.weight
  }

  lemma {:induction false} TotalWeightZero(bs: seq<Backend>, alive: set<Backend>)
    requires NonNegative(bs)
    ensures 0 <= TotalWeight(bs, alive)
    ensures TotalWeight(bs, alive) == 0 <==> Weightless(bs, alive)
  {
    if bs != [] {
      var init, last := bs[..|bs| - 1], bs[|bs| - 1];
      assert bs == init + [last];
      TotalWeightZero(init, alive);
    }
  }

  /** With non-negative weights, the total weight tells when weighted routing finds nobody. */
  lemma {:induction false} UnservedByTotalWeight(bs: seq<Backend>, alive: set<Backend>, t: nat)
    requires NonNegative(bs)
    ensures Serve(Expanded(bs), alive, t) == None <==> TotalWeight(bs, alive) == 0
  {
    UnservedExact(bs, alive, t);
    TotalWeightZero(bs, alive);
  }

  /** Any full turn of tickets, from whatever ticket: a living backend is served at least as often as its weight,
      exactly as often when all are alive, and never when it is dead. */
  lemma {:induction false} WeightedShare(bs: seq<Backend>, alive: set<Backend>, t: nat, b: Backend)
    requires b in bs && 0 <= b.weight
    requires forall i, j :: 0 <= i < j < |bs| ==> bs[i] != bs[j]
    ensures var ring := Expanded(bs);
      var served := multiset(Served(ring, alive, t, |ring|));
      && (b in alive ==> b.weight <= served[Some(b)])
      && ((forall x :: x in bs ==> x in alive) ==> served[Some(b)] == b.weight)
      && (b !in alive ==> served[Some(b)] == 0)
      && ((exists x :: x in bs && x in alive && 0 < x.weight) ==> served[None] == 0)
  {
    var ring := Expanded(bs);
    TurnIsFair(ring, alive, t, b);
    SlotsAreWeight(bs, b);
    if forall x :: x in bs ==> x in alive {
      forall x | x in ring ensures x in alive {
        ExpandedMembers(bs, x);
      }
    }
    if x :| x in bs && x in alive && 0 < x.weight {
      ExpandedMembers(bs, x);
    }
  }

  /** The slot a ticket starts from, as the code computes it. */
  function StartSlot(ticket: uint64, n: nat): int
    requires 0 < n
  {
    Rem(ToInt64(ticket), n)
  }

  lemma {:induction false} RemIsRemainder(x: int, m: int)
    requires 0 < m
    ensures Rem(x, m) == if x >= 0 then x % m else -((-x) % m)
    decreases if x < 0 then -x else x
  {
    if x >= m {
      RemIsRemainder(x - m, m);
      ModTurn(x - m, m);
    } else if x <= -m {
      RemIsRemainder(x + m, m);
      ModTurn(-x - m, m);
    } else {
      ModSum(if x < 0 then -x else x, 0, m, if x < 0 then -x else x);
    }
  }

  /** Past 2^63 the conversion turns the ticket negative, and then it is a place in the list only if the list's
      length divides what is missing to 2^64. */
  lemma {:induction false} StartSlotExact(ticket: uint64, n: nat)
    requires 0 < n
    ensures 0 <= StartSlot(ticket, n) < n <==> ticket < TWO_63 || (TWO_64 - ticket) % n == 0
    ensures StartSlot(ticket, n) < n
    ensures ticket < TWO_63 ==> StartSlot(ticket, n) == ticket % n
  {
    RemIsRemainder(ToInt64(ticket), n);
  }

  /** The first such ticket in a list of three asks for place -2. */
  lemma {:induction false} NegativeStart()
    ensures StartSlot(TWO_63, 3) == -2
  {
    RemIsRemainder(ToInt64(TWO_63), 3);
  }
}

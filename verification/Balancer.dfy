/** The plain round robin of `loadbalancer/balancer.go`. */
module Balancer {
  import opened Options
  import opened Rotation

  /** Which of the servers the health checker holds healthy; a URL it has not checked is not. */
  function Healthy(servers: seq<string>, healthy: map<string, bool>): seq<bool> {
    seq(|servers|, i requires 0 <= i < |servers| => servers[i] in healthy && healthy[servers[i]])
  }

  class LoadBalancer {
    const servers: seq<string>
    var index: nat
    var healthy: map<string, bool>

    ghost predicate Valid()
      reads this
    {
      index < |servers|
    }

    constructor (servers: seq<string>)
      ensures this.servers == servers && index == 0 && healthy == map[]
      ensures servers != [] ==> Valid()
    {
      this.servers := servers;
      index := 0;
      healthy := map[];
    }

    method GetNextServer() returns (server: Option<string>)
      requires Valid()
      modifies this`index
      ensures Valid()
      ensures var found := NextUp(Healthy(servers, healthy), old(index));
        match found
        case None => server == None && index == old(index)
        case Some(i) => server == Some(servers[i]) && index == Slot(|servers|, i, 1)
    {
      ghost var up := Healthy(servers, healthy);
      var start := index;
      ghost var d := 0;
      while true
        invariant 0 <= d < |servers| == |up| && index == Slot(|up|, start, d)
        invariant Steps(up, start, 0) == Steps(up, start, d)
        decreases |servers| - d
      {
        var server := servers[index];
        SlotIsRemainder(|servers|, index, 1);
        if server in healthy && healthy[server] {
          assert up[index];
          index := (index + 1) % |servers|;
          return Some(server);
        }
        index := (index + 1) % |servers|;
        d := d + 1;
        if index == start {
          assert d == |up|;
          return None;
        }
      }
    }
  }

  /** Nothing is returned exactly when no server is healthy. */
  lemma {:induction false} NoServerExact(servers: seq<string>, healthy: map<string, bool>, index: nat)
    requires index < |servers|
    ensures NextUp(Healthy(servers, healthy), index) == None <==>
        forall url :: url in servers ==> url !in healthy || !healthy[url]
  {
    var up := Healthy(servers, healthy);
    NoneExact(up, index);
    forall i | 0 <= i < |servers| ensures up[i] <==> servers[i] in healthy && healthy[servers[i]] {
    }
    if url :| url in servers && url in healthy && healthy[url] {
      var i :| 0 <= i < |servers| && servers[i] == url;
      assert up[i];
    }
  }

  predicate IsHealthy(healthy: map<string, bool>, url: string) {
    url in healthy && healthy[url]
  }

  lemma {:induction false} TurnMembers(all: seq<nat>, rank: nat)
    requires rank <= |all|
    ensures From(all, rank)[..|all|] == all[rank..] + all[..rank]
    ensures multiset(From(all, rank)[..|all|]) == multiset(all)
  {
    assert all == all[..rank] + all[rank..];
    assert From(all, rank)[..|all|] == all[rank..] + all[..rank];
  }

  lemma {:induction false} SlotsOnce(up: seq<bool>, index: nat)
    requires index < |up| && AnyUp(up)
    ensures var all := UpBefore(up, |up|);
      var rank := |UpBefore(up, index)|;
      && rank <= |all|
      && Scans(up, index, |all|) == all[rank..] + all[..rank]
      && (forall j: nat :: multiset(Scans(up, index, |all|))[j] == if j < |up| && up[j] then 1 else 0)
  {
    var all := UpBefore(up, |up|);
    var rank := |UpBefore(up, index)|;
    ScansGoRound(up, index, |all|);
    TurnMembers(all, rank);
    forall j: nat ensures multiset(Scans(up, index, |all|))[j] == if j < |up| && up[j] then 1 else 0 {
      UpBeforeExact(up, |up|, j);
    }
  }

  /** With `h` healthy slots and nothing changing, any `h` calls in a row return each of them once, in cyclic order:
      the healthy slots read on from the first one at or after the index. */
  lemma {:induction false} EachHealthyServerOnce(servers: seq<string>, healthy: map<string, bool>, index: nat)
    requires index < |servers| && AnyUp(Healthy(servers, healthy))
    ensures var up := Healthy(servers, healthy);
      var all := UpBefore(up, |up|);
      var rank := |UpBefore(up, index)|;
      && rank <= |all|
      && Scans(up, index, |all|) == all[rank..] + all[..rank]
      && (forall j: nat :: multiset(Scans(up, index, |all|))[j] ==
            if j < |servers| && IsHealthy(healthy, servers[j]) then 1 else 0)
  {
    var up := Healthy(servers, healthy);
    SlotsOnce(up, index);
    forall j: nat ensures j < |up| && up[j] <==> j < |servers| && IsHealthy(healthy, servers[j]) {
    }
  }
}

/** internal/gateway/ratelimit.go as it runs: a map of heap buckets updated in place.
    The mutex makes every call atomic, so each method is one step. */
module AgentLimiting {

  import opened RateLimit

  class Bucket {
    var tokens: real
    var last: real

    constructor (tokens: real, last: real)
      ensures this.tokens == tokens && this.last == last
    {
      this.tokens, this.last := tokens, last;
    }

    ghost function Get(): Level
      reads this
    {
      Level(tokens, last)
    }

    /** Refill for the elapsed time, cap at burst, and consume one token if there is one. */
    method Spend(rate: real, burst: real, now: real, ghost c: Config) returns (ok: bool)
      requires c.rate == rate && c.burst == burst
      modifies this
      ensures (if ok then Allowed else Limited, Get()) == Take(c, old(Get()), now)
    {
      ghost var before := Get();
      tokens := tokens + (now - last) * rate;
      assert tokens == before.tokens + (now - before.last) * c.rate;
      if tokens > burst {
        tokens := burst;
      }
      assert tokens == Refill(c, before, now);
      last := now;
      if tokens < 1.0 {
        return false;
      }
      tokens := tokens - 1.0;
      ok := true;
    }
  }

  class AgentLimiter {
    var buckets: map<string, Bucket>
    const rate: real
    const burst: real
    const maxAgents: nat
    const idleTTL: real

    /** No two agents share a bucket. */
    ghost predicate Valid()
      reads this
    {
      forall a, b :: a in buckets && b in buckets && a != b ==> buckets[a] != buckets[b]
    }

    ghost function Table(): Table
      reads this, buckets.Values
    {
      map id | id in buckets :: buckets[id].Get()
    }

    ghost function Settings(): Config {
      Config(rate, burst, maxAgents, idleTTL)
    }

    constructor (rps: real, burst: int)
      ensures Valid() && Table() == map[]
      ensures Settings() == Config(rps, burst as real, 10000, 900.0)
    {
      buckets := map[];
      rate := rps;
      this.burst := burst as real;
      maxAgents := 10000;
      idleTTL := 15.0 * 60.0;
    }

    /** The eviction sweep, over the keys in whatever order the map yields them. */
    method EvictIdle(now: real)
      requires Valid()
      modifies this`buckets
      ensures Valid() && Table() == Sweep(Settings(), old(Table()), now)
      ensures buckets.Keys <= old(buckets.Keys) && buckets.Values <= old(buckets.Values)
    {
      ghost var before, c, t := buckets, Settings(), Table();
      var pending := buckets.Keys;
      while pending != {}
        invariant Valid() && pending <= before.Keys
        invariant buckets.Keys <= before.Keys && forall id :: id in buckets ==> buckets[id] == before[id]
        invariant forall id :: id in before ==> (id in buckets <==> id in pending || !Evictable(c, t[id], now))
        decreases pending
      {
        var id :| id in pending;
        pending := pending - {id};
        var elapsed := now - buckets[id].last;
        var idle := elapsed >= idleTTL && buckets[id].tokens + elapsed * rate >= burst;
        assert t[id] == buckets[id].Get();
        assert idle == Evictable(c, t[id], now);
        if idle {
          buckets := buckets - {id};
        }
      }
      assert Table().Keys == Sweep(c, t, now).Keys;
    }

    /** A new agent finds the table swept if it was full. */
    method MakeRoom(agentID: string, now: real)
      requires Valid() && agentID !in buckets
      modifies this`buckets
      ensures Valid() && Table() == Room(Settings(), old(Table()), Call(agentID, now))
      ensures agentID !in buckets && buckets.Values <= old(buckets.Values)
    {
      hide Sweep;
      assert Table().Keys == buckets.Keys && |Table()| == |Table().Keys|;
      if |buckets| >= maxAgents {
        EvictIdle(now);
      }
      assert Table().Keys == buckets.Keys;
    }

    method OpenBucket(agentID: string, now: real)
      requires Valid() && agentID !in buckets
      modifies this`buckets
      ensures Valid() && Table() == old(Table())[agentID := Full(Settings(), now)]
      ensures forall id :: id in buckets && buckets[id] !in old(buckets.Values) ==> fresh(buckets[id])
    {
      ghost var before := Table();
      var entry := new Bucket(burst, now);
      buckets := buckets[agentID := entry];
      assert Table() == before[agentID := entry.Get()];
    }

    /** Make sure the agent has a bucket, unless the table is full of buckets that must stay. */
    method FindOrOpen(agentID: string, now: real) returns (found: bool)
      requires Valid()
      modifies this`buckets
      ensures Valid() && forall id :: id in buckets && buckets[id] !in old(buckets.Values) ==> fresh(buckets[id])
      ensures var c, call, t := Settings(), Call(agentID, now), old(Table());
        && found == (agentID in Table())
        && Table() == (if found then Opened(c, t, call) else Room(c, t, call))
        && (found <==> agentID in Room(c, t, call) || |Room(c, t, call)| < c.maxAgents)
    {
      hide Valid, Full, Sweep;
      if agentID !in buckets {
        MakeRoom(agentID, now);
        assert Table().Keys == buckets.Keys && |Table()| == |Table().Keys|;
        if |buckets| >= maxAgents {
          return false;
        }
        OpenBucket(agentID, now);
      }
      found := true;
    }

    method AllowAt(agentID: string, now: real) returns (ok: bool)
      requires Valid()
      modifies this`buckets, buckets.Values
      ensures Valid() && forall id :: id in buckets && buckets[id] !in old(buckets.Values) ==> fresh(buckets[id])
      ensures Table() == Step(Settings(), old(Table()), Call(agentID, now)).1
      ensures ok <==> Step(Settings(), old(Table()), Call(agentID, now)).0 == Allowed
    {
      ghost var c, call, t := Settings(), Call(agentID, now), Table();
      var found := FindOrOpen(agentID, now);
      if !found {
        return false;
      }
      ghost var ready := Table();
      var b := buckets[agentID];
      ok := b.Spend(rate, burst, now, c);
      assert Table() == ready[agentID := b.Get()];
      StepThroughOpened(c, t, call);
    }
  }

  lemma {:induction false} StepThroughOpened(c: Config, t: Table, call: Call)
    requires var room := Room(c, t, call); call.id in room || |room| < c.maxAgents
    ensures var ready := Opened(c, t, call);
      var (verdict, level) := Take(c, ready[call.id], call.now);
      Step(c, t, call) == (verdict, ready[call.id := level])
  {
    var room, ready := Room(c, t, call), Opened(c, t, call);
    var level := Take(c, ready[call.id], call.now).1;
    assert room[call.id := level] == ready[call.id := level];
  }

  /** The table once the caller's bucket is in it. */
  ghost function Opened(c: Config, t: Table, call: Call): Table {
    var room := Room(c, t, call);
    if call.id in room then room else room[call.id := Full(c, call.now)]
  }
}

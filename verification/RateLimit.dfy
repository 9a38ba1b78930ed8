/** The per-agent token bucket of internal/gateway/ratelimit.go as a function of a table of buckets,
    and what it guarantees over whole histories of calls. Time is in seconds and tokens are reals. */
module RateLimit {

  import opened Text

  datatype Config = Config(rate: real, burst: real, maxAgents: nat, idleTTL: real)

  /** What the gateway's configuration is checked for. */
  ghost predicate Sound(c: Config) {
    c.rate > 0.0 && c.burst >= 1.0 && c.maxAgents > 0
  }

  /** What one bucket remembers. */
  datatype Level = Level(tokens: real, last: real)

  type Table = map<string, Level>

  datatype Call = Call(id: string, now: real)

  /** Limited and AtCapacity both answer "no"; only Limited reached a bucket. */
  datatype Verdict = Allowed | Limited | AtCapacity

  function Refill(c: Config, b: Level, now: real): (tokens: real) {
    var t := b.tokens + (now - b.last) * c.rate;
    if t > c.burst then c.burst else t
  }

  function Take(c: Config, b: Level, now: real): (Verdict, Level) {
    var t := Refill(c, b, now);
    if t < 1.0 then (Limited, Level(t, now)) else (Allowed, Level(t - 1.0, now))
  }

  predicate Replenished(c: Config, b: Level, now: real) {
    b.tokens + (now - b.last) * c.rate >= c.burst
  }

  predicate Evictable(c: Config, b: Level, now: real) {
    now - b.last >= c.idleTTL && Replenished(c, b, now)
  }

  function Sweep(c: Config, t: Table, now: real): Table {
    map id | id in t && !Evictable(c, t[id], now) :: t[id]
  }

  /** The table in which the caller looks for or creates its bucket. */
  function Room(c: Config, t: Table, call: Call): Table {
    if call.id !in t && |t| >= c.maxAgents then Sweep(c, t, call.now) else t
  }

  function Full(c: Config, now: real): Level {
    Level(c.burst, now)
  }

  function Step(c: Config, t: Table, call: Call): (Verdict, Table) {
    var room := Room(c, t, call);
    if call.id !in room && |room| >= c.maxAgents then (AtCapacity, room)
    else
      var b := if call.id in room then room[call.id] else Full(c, call.now);
      var (v, b') := Take(c, b, call.now);
      (v, room[call.id := b'])
  }

  // ---------- histories ----------

  /** The table after the first k calls of h. */
  function TableAt(c: Config, h: seq<Call>, k: nat): Table
    requires k <= |h|
  {
    if k == 0 then map[] else Step(c, TableAt(c, h, k - 1), h[k - 1]).1
  }

  function VerdictAt(c: Config, h: seq<Call>, k: nat): Verdict
    requires k < |h|
  {
    Step(c, TableAt(c, h, k), h[k]).0
  }

  lemma {:induction false} TablePrefix(c: Config, h: seq<Call>, more: seq<Call>, k: nat)
    requires k <= |h|
    ensures TableAt(c, h + more, k) == TableAt(c, h, k)
  {
    if k > 0 { TablePrefix(c, h, more, k - 1); }
  }

  function Verdicts(c: Config, h: seq<Call>): (v: seq<Verdict>)
    ensures |v| == |h|
  {
    seq(|h|, k requires 0 <= k < |h| => VerdictAt(c, h, k))
  }

  /** Call i is agent id's and reached a bucket. */
  ghost predicate Charged(h: seq<Call>, v: seq<Verdict>, i: nat, id: string)
    requires i < |h| == |v|
  {
    h[i].id == id && v[i] != AtCapacity
  }

  /** How many of agent id's calls i..j-1 were allowed. */
  function AllowedCount(h: seq<Call>, v: seq<Verdict>, id: string, i: nat, j: nat): nat
    requires j <= |h| == |v|
    decreases j
  {
    if j <= i then 0
    else AllowedCount(h, v, id, i, j - 1) + if h[j - 1].id == id && v[j - 1] == Allowed then 1 else 0
  }

  /** What the window opened at call i leaves at time now, before call j:
      burst + rate * (now - now_i) - allowed(i..j-1). */
  function Headroom(c: Config, h: seq<Call>, v: seq<Verdict>, i: nat, j: nat, now: real): real
    requires i < |h| == |v| && j <= |h|
  {
    c.burst + c.rate * (now - h[i].now) - AllowedCount(h, v, h[i].id, i, j) as real
  }

  /** The bucket agent id has before call k in a limiter without a capacity, which never evicts, when fed
      the calls that v did not turn away. It looks at that agent's calls only. */
  function OwnLevel(c: Config, h: seq<Call>, v: seq<Verdict>, id: string, k: nat): Option<Level>
    requires k <= |h| == |v|
  {
    if k == 0 then None
    else
      var b := OwnLevel(c, h, v, id, k - 1);
      var e := h[k - 1];
      if e.id != id || v[k - 1] == AtCapacity then b
      else Some(Take(c, b.GetOr(Full(c, e.now)), e.now).1)
  }

  function OwnVerdict(c: Config, h: seq<Call>, v: seq<Verdict>, k: nat): Verdict
    requires k < |h| == |v|
  {
    Take(c, OwnLevel(c, h, v, h[k].id, k).GetOr(Full(c, h[k].now)), h[k].now).0
  }

  ghost predicate Nondecreasing(h: seq<Call>) {
    forall i, j :: 0 <= i <= j < |h| ==> h[i].now <= h[j].now
  }

  // ---------- capacity ----------

  lemma {:induction false} SubmapSize<K, V>(small: map<K, V>, big: map<K, V>)
    requires small.Keys <= big.Keys
    ensures |small| <= |big|
    ensures |small| == |big| ==> small.Keys == big.Keys
  {
    var rest := big.Keys - small.Keys;
    assert big.Keys == small.Keys + rest;
    assert |big.Keys| == |small.Keys| + |rest|;
  }

  /** The table never outgrows its capacity. */
  lemma {:induction false} TableBounded(c: Config, h: seq<Call>, k: nat)
    requires k <= |h|
    ensures |TableAt(c, h, k)| <= c.maxAgents
  {
    if k > 0 {
      TableBounded(c, h, k - 1);
      var t := TableAt(c, h, k - 1);
      SubmapSize(Sweep(c, t, h[k - 1].now), t);
    }
  }

  /** The bucket was used within the idle time, or would not be full again by now. */
  ghost predicate InUse(c: Config, b: Level, now: real) {
    now < b.last + c.idleTTL || b.tokens + (now - b.last) * c.rate < c.burst
  }

  /** A call is turned away for capacity exactly when its agent has no bucket and the table is full of buckets
      in use; such a call changes nothing. */
  lemma {:induction false} CapacityDenialExact(c: Config, h: seq<Call>, k: nat)
    requires k < |h|
    ensures VerdictAt(c, h, k) == AtCapacity <==>
        var t := TableAt(c, h, k);
        h[k].id !in t && |t| == c.maxAgents && forall id :: id in t ==> InUse(c, t[id], h[k].now)
    ensures VerdictAt(c, h, k) == AtCapacity ==> TableAt(c, h, k + 1) == TableAt(c, h, k)
  {
    TableBounded(c, h, k);
    var t := TableAt(c, h, k);
    var s := Sweep(c, t, h[k].now);
    SubmapSize(s, t);
    assert forall id :: id in t ==> (InUse(c, t[id], h[k].now) <==> id in s);
    if forall id :: id in t ==> InUse(c, t[id], h[k].now) {
      assert s == t;
    } else {
      assert s.Keys != t.Keys;
    }
  }

  /** A call touches no bucket but its own and those it evicts: whoever is in use is never reset to make room,
      and nobody is evicted unless a new bucket was wanted and the table was full. */
  lemma {:induction false} OthersKept(c: Config, t: Table, call: Call, id: string)
    requires id in t && id != call.id
    ensures id in Step(c, t, call).1 ==> Step(c, t, call).1[id] == t[id]
    ensures id in Step(c, t, call).1 <==> InUse(c, t[id], call.now) || call.id in t || |t| < c.maxAgents
  {
    assert id in Sweep(c, t, call.now) <==> InUse(c, t[id], call.now);
  }

  // ---------- a bucket that is never evicted is exact, for timestamps in any order ----------

  /** tokens - rate * last is the least headroom over all the agent's charged calls so far. */
  ghost predicate LeastHeadroom(c: Config, h: seq<Call>, v: seq<Verdict>, k: nat, id: string, b: Level)
    requires k <= |h| == |v|
  {
    && (forall i: nat :: i < k && Charged(h, v, i, id) ==> b.tokens <= Headroom(c, h, v, i, k, b.last))
    && (exists i: nat :: i < k && Charged(h, v, i, id) && b.tokens == Headroom(c, h, v, i, k, b.last))
  }

  /** v answers agent id's first k calls as its own never-evicted bucket does, capacity aside. */
  ghost predicate FollowsOwn(c: Config, h: seq<Call>, v: seq<Verdict>, k: nat, id: string)
    requires k <= |h| == |v|
  {
    forall i: nat :: i < k && Charged(h, v, i, id) ==> v[i] == OwnVerdict(c, h, v, i)
  }

  lemma {:induction false} HeadroomMoves(c: Config, h: seq<Call>, v: seq<Verdict>, i: nat, j: nat, last: real, now: real)
    requires i < |h| == |v| && j <= |h|
    ensures Headroom(c, h, v, i, j, now) == Headroom(c, h, v, i, j, last) + (now - last) * c.rate
  {
    assert c.rate * (now - h[i].now) == c.rate * (last - h[i].now) + (now - last) * c.rate;
  }

  lemma {:induction false} FreshHeadroom(c: Config, h: seq<Call>, v: seq<Verdict>, k: nat)
    requires k < |h| == |v|
    ensures Headroom(c, h, v, k, k, h[k].now) == c.burst
  {
    assert c.rate * (h[k].now - h[k].now) == 0.0;
  }

  /** What is in the bucket when call k has refilled it is the least headroom at that time. */
  ghost predicate LeastAfterRefill(c: Config, h: seq<Call>, v: seq<Verdict>, k: nat, tokens: real)
    requires k < |h| == |v|
  {
    && tokens <= c.burst
    && (forall i: nat :: i < k && Charged(h, v, i, h[k].id) ==> tokens <= Headroom(c, h, v, i, k, h[k].now))
    && (tokens == c.burst
        || exists i: nat :: i < k && Charged(h, v, i, h[k].id) && tokens == Headroom(c, h, v, i, k, h[k].now))
  }

  lemma {:induction false} RefillKeepsLeast(c: Config, h: seq<Call>, v: seq<Verdict>, k: nat, b: Level)
    requires k < |h| == |v| && LeastHeadroom(c, h, v, k, h[k].id, b)
    ensures LeastAfterRefill(c, h, v, k, Refill(c, b, h[k].now))
  {
    forall i: nat | i < k && Charged(h, v, i, h[k].id)
      ensures Headroom(c, h, v, i, k, h[k].now) == Headroom(c, h, v, i, k, b.last) + (h[k].now - b.last) * c.rate
    {
      HeadroomMoves(c, h, v, i, k, b.last, h[k].now);
    }
  }

  lemma {:induction false} TakeKeepsLeast(c: Config, h: seq<Call>, v: seq<Verdict>, k: nat, tokens: real)
    requires k < |h| == |v| && LeastAfterRefill(c, h, v, k, tokens)
    requires v[k] == if tokens < 1.0 then Limited else Allowed
    ensures LeastHeadroom(c, h, v, k + 1, h[k].id, Level(if tokens < 1.0 then tokens else tokens - 1.0, h[k].now))
  {
    var id, now := h[k].id, h[k].now;
    var spent := if tokens < 1.0 then 0.0 else 1.0;
    FreshHeadroom(c, h, v, k);
    assert forall i: nat :: i < k && h[i].id == id ==>
      Headroom(c, h, v, i, k + 1, now) == Headroom(c, h, v, i, k, now) - spent;
    assert Charged(h, v, k, id);
    assert Headroom(c, h, v, k, k + 1, now) == c.burst - spent;
    if tokens != c.burst {
      var i: nat :| i < k && Charged(h, v, i, id) && tokens == Headroom(c, h, v, i, k, now);
      assert tokens - spent == Headroom(c, h, v, i, k + 1, now);
    }
  }

  lemma {:induction false} OthersKeepLeast(c: Config, h: seq<Call>, v: seq<Verdict>, k: nat, id: string, b: Level)
    requires k < |h| == |v| && !Charged(h, v, k, id) && LeastHeadroom(c, h, v, k, id, b)
    ensures LeastHeadroom(c, h, v, k + 1, id, b)
  {
    assert forall i: nat :: i < k && h[i].id == id ==>
      Headroom(c, h, v, i, k + 1, b.last) == Headroom(c, h, v, i, k, b.last);
    var i: nat :| i < k && Charged(h, v, i, id) && b.tokens == Headroom(c, h, v, i, k, b.last);
    assert i < k + 1;
  }

  /** The closed form of a bucket, by induction over the calls: no order of timestamps is assumed. */
  lemma {:induction false} OwnLevelExact(c: Config, h: seq<Call>, v: seq<Verdict>, id: string, k: nat)
    requires k <= |h| == |v| && FollowsOwn(c, h, v, k, id)
    ensures var own := OwnLevel(c, h, v, id, k);
      if own.Some? then LeastHeadroom(c, h, v, k, id, own.value)
      else forall i: nat :: i < k ==> !Charged(h, v, i, id)
    decreases k, 0
  {
    if k > 0 {
      OwnLevelExact(c, h, v, id, k - 1);
      var own := OwnLevel(c, h, v, id, k - 1);
      if Charged(h, v, k - 1, id) {
        OwnRefillExact(c, h, v, k - 1);
        TakeKeepsLeast(c, h, v, k - 1, Refill(c, own.GetOr(Full(c, h[k - 1].now)), h[k - 1].now));
      } else if own.Some? {
        OthersKeepLeast(c, h, v, k - 1, id, own.value);
      }
    }
  }

  /** After refill the bucket holds the minimum over the agent's windows, its own burst included. */
  lemma {:induction false} OwnRefillExact(c: Config, h: seq<Call>, v: seq<Verdict>, k: nat)
    requires k < |h| == |v| && FollowsOwn(c, h, v, k, h[k].id)
    ensures LeastAfterRefill(c, h, v, k, Refill(c, OwnLevel(c, h, v, h[k].id, k).GetOr(Full(c, h[k].now)), h[k].now))
    decreases k, 1
  {
    OwnLevelExact(c, h, v, h[k].id, k);
    var own := OwnLevel(c, h, v, h[k].id, k);
    if own.Some? {
      RefillKeepsLeast(c, h, v, k, own.value);
    } else {
      assert Refill(c, Full(c, h[k].now), h[k].now) == c.burst by { FreshHeadroom(c, h, v, k); }
    }
  }

  // ---------- evictions: when the bounded limiter answers as the never-evicting one ----------

  /** If call k opens a new bucket for an agent that once had one, the old one would be full again by now. */
  ghost predicate CleanOpening(c: Config, h: seq<Call>, k: nat)
    requires k < |h|
  {
    var v, id := Verdicts(c, h), h[k].id;
    var own := OwnLevel(c, h, v, id, k);
    v[k] != AtCapacity && id !in TableAt(c, h, k) && own.Some? ==> Replenished(c, own.value, h[k].now)
  }

  /** Call k gets the answer, and leaves the bucket, of the limiter that never evicts. */
  ghost predicate AnswersAsOwn(c: Config, h: seq<Call>, k: nat)
    requires k < |h|
  {
    var v, id := Verdicts(c, h), h[k].id;
    v[k] != AtCapacity ==>
      && v[k] == OwnVerdict(c, h, v, k)
      && id in TableAt(c, h, k + 1) && OwnLevel(c, h, v, id, k + 1) == Some(TableAt(c, h, k + 1)[id])
  }

  /** A bucket opened in place of b gives the same answer and is left the same, exactly if b is full again. */
  lemma {:induction false} OpeningIsHarmlessIff(c: Config, b: Level, now: real)
    ensures Take(c, Full(c, now), now) == Take(c, b, now) <==> Replenished(c, b, now)
  {
    var full, kept := Refill(c, Full(c, now), now), Refill(c, b, now);
    FullStaysFull(c, now);
    assert kept == c.burst <==> Replenished(c, b, now);
    assert kept <= c.burst;
    assert Take(c, Full(c, now), now) == Take(c, b, now) ==> full == kept;
  }

  lemma {:induction false} FullStaysFull(c: Config, now: real)
    ensures Refill(c, Full(c, now), now) == c.burst
  {
    assert (now - now) * c.rate == 0.0;
  }

  ghost predicate TableIsOwn(c: Config, h: seq<Call>, k: nat)
    requires k <= |h|
  {
    forall id :: id in TableAt(c, h, k) ==> OwnLevel(c, h, Verdicts(c, h), id, k) == Some(TableAt(c, h, k)[id])
  }

  lemma {:induction false} StepFollowsOwn(c: Config, h: seq<Call>, k: nat)
    requires k < |h| && TableIsOwn(c, h, k)
    ensures AnswersAsOwn(c, h, k) <==> CleanOpening(c, h, k)
    ensures CleanOpening(c, h, k) ==> TableIsOwn(c, h, k + 1)
  {
    StepAnswers(c, h, k);
    if CleanOpening(c, h, k) { StepKeepsOwn(c, h, k); }
  }

  lemma {:induction false} StepAnswers(c: Config, h: seq<Call>, k: nat)
    requires k < |h| && TableIsOwn(c, h, k)
    ensures AnswersAsOwn(c, h, k) <==> CleanOpening(c, h, k)
  {
    hide Take;
    var e, t := h[k], TableAt(c, h, k);
    var own := OwnLevel(c, h, Verdicts(c, h), e.id, k);
    if own.Some? { OpeningIsHarmlessIff(c, own.value, e.now); }
    TakeAnswers(c, own.GetOr(Full(c, e.now)), e.now);
    TakeAnswers(c, Full(c, e.now), e.now);
  }

  lemma {:induction false} TakeAnswers(c: Config, b: Level, now: real)
    ensures Take(c, b, now).0 != AtCapacity
  {
  }

  lemma {:induction false} CapacityDenialHasNone(c: Config, h: seq<Call>, k: nat)
    requires k < |h| && h[k].id in TableAt(c, h, k + 1)
    ensures Verdicts(c, h)[k] != AtCapacity
  {
  }

  lemma {:induction false} StepKeepsOwn(c: Config, h: seq<Call>, k: nat)
    requires k < |h| && TableIsOwn(c, h, k) && AnswersAsOwn(c, h, k)
    ensures TableIsOwn(c, h, k + 1)
  {
    hide Take, OwnVerdict;
    var e, t, next := h[k], TableAt(c, h, k), TableAt(c, h, k + 1);
    forall id | id in next ensures OwnLevel(c, h, Verdicts(c, h), id, k + 1) == Some(next[id]) {
      if id == e.id {
        CapacityDenialHasNone(c, h, k);
      } else {
        StepLeavesOthers(c, t, e, id);
      }
    }
  }

  lemma {:induction false} TableFollowsOwn(c: Config, h: seq<Call>, n: nat)
    requires n <= |h| && forall k: nat :: k < n ==> CleanOpening(c, h, k)
    ensures TableIsOwn(c, h, n)
  {
    hide CleanOpening, Step, OwnLevel;
    if n > 0 {
      TableFollowsOwn(c, h, n - 1);
      StepFollowsOwn(c, h, n - 1);
    }
  }

  /** Whatever the order of the timestamps, eviction is invisible throughout a history exactly when
      every bucket that is opened again would have been full at that call's own timestamp. */
  lemma {:induction false} EvictionInvisibleIff(c: Config, h: seq<Call>, n: nat)
    requires n <= |h|
    ensures (forall k: nat :: k < n ==> AnswersAsOwn(c, h, k)) <==> (forall k: nat :: k < n ==> CleanOpening(c, h, k))
  {
    hide CleanOpening, AnswersAsOwn, TableIsOwn;
    if n > 0 {
      EvictionInvisibleIff(c, h, n - 1);
      if forall k: nat :: k < n - 1 ==> CleanOpening(c, h, k) {
        TableFollowsOwn(c, h, n - 1);
        StepFollowsOwn(c, h, n - 1);
      }
    }
  }

  /** An agent without a bucket has none to lose: any it once had is full again. */
  ghost predicate LostOnlyFull(c: Config, h: seq<Call>, k: nat, now: real)
    requires k <= |h|
  {
    forall id :: id !in TableAt(c, h, k) ==>
      var own := OwnLevel(c, h, Verdicts(c, h), id, k);
      own.Some? ==> Replenished(c, own.value, now)
  }

  lemma {:induction false} ReplenishedStays(c: Config, b: Level, now: real, later: real)
    requires c.rate >= 0.0 && now <= later && Replenished(c, b, now)
    ensures Replenished(c, b, later)
  {
    assert (later - b.last) * c.rate == (now - b.last) * c.rate + (later - now) * c.rate;
  }

  lemma {:induction false} MonotoneClockLosesOnlyFull(c: Config, h: seq<Call>, k: nat, now: real)
    requires c.rate >= 0.0 && Nondecreasing(h) && k <= |h| && (k > 0 ==> h[k - 1].now <= now)
    ensures TableIsOwn(c, h, k) && LostOnlyFull(c, h, k, now)
  {
    if k > 0 {
      var e, v := h[k - 1], Verdicts(c, h);
      MonotoneClockLosesOnlyFull(c, h, k - 1, e.now);
      StepFollowsOwn(c, h, k - 1);
      forall id | id !in TableAt(c, h, k) && OwnLevel(c, h, v, id, k).Some?
        ensures Replenished(c, OwnLevel(c, h, v, id, k).value, now)
      {
        assert OwnLevel(c, h, v, id, k) == OwnLevel(c, h, v, id, k - 1);
        ReplenishedStays(c, OwnLevel(c, h, v, id, k).value, e.now, now);
      }
    }
  }

  /** Under a clock that never goes back the bounded limiter refines the unbounded one. */
  lemma {:induction false} BoundedRefinesUnbounded(c: Config, h: seq<Call>, k: nat)
    requires c.rate >= 0.0 && Nondecreasing(h) && k < |h|
    ensures CleanOpening(c, h, k) && AnswersAsOwn(c, h, k)
  {
    MonotoneClockLosesOnlyFull(c, h, k, h[k].now);
    StepFollowsOwn(c, h, k);
  }

  /** No window of agent h[k].id's calls that ends with call k would exceed burst + rate * duration. */
  ghost predicate WindowsHaveRoom(c: Config, h: seq<Call>, v: seq<Verdict>, k: nat)
    requires k < |h| == |v|
  {
    forall i: nat :: i <= k && Charged(h, v, i, h[k].id) ==>
      (AllowedCount(h, v, h[k].id, i, k) + 1) as real <= c.burst + c.rate * (h[k].now - h[i].now)
  }

  /** For timestamps in any order: a bucket that follows its own history is sound and maximally permissive. */
  lemma {:induction false} ExactWhenFollowing(c: Config, h: seq<Call>, v: seq<Verdict>, k: nat)
    requires k < |h| == |v| && v[k] != AtCapacity && FollowsOwn(c, h, v, k + 1, h[k].id)
    ensures v[k] == Allowed <==> WindowsHaveRoom(c, h, v, k)
  {
    var id, now := h[k].id, h[k].now;
    assert Charged(h, v, k, id);
    OwnRefillExact(c, h, v, k);
    FreshHeadroom(c, h, v, k);
    var tokens := Refill(c, OwnLevel(c, h, v, id, k).GetOr(Full(c, now)), now);
    assert forall i: nat :: i <= k && Charged(h, v, i, id) ==> tokens <= Headroom(c, h, v, i, k, now);
    assert exists i: nat :: i <= k && Charged(h, v, i, id) && tokens == Headroom(c, h, v, i, k, now);
  }

  lemma {:induction false} AnswersFollow(c: Config, h: seq<Call>, n: nat, id: string)
    requires n <= |h| && forall k: nat :: k < n ==> AnswersAsOwn(c, h, k)
    ensures FollowsOwn(c, h, Verdicts(c, h), n, id)
  {
    hide OwnVerdict, OwnLevel, TableAt, VerdictAt, Verdicts;
    var v := Verdicts(c, h);
    forall i: nat | i < n && Charged(h, v, i, id) ensures v[i] == OwnVerdict(c, h, v, i) {
      assert AnswersAsOwn(c, h, i);
    }
  }

  /** For timestamps in any order and whatever was evicted: if every bucket opened again so far would have been
      full, a call that reaches a bucket is allowed exactly when no window of its agent's calls that ends with it
      would exceed burst + rate * duration. */
  lemma {:induction false} ExactAfterCleanOpenings(c: Config, h: seq<Call>, k: nat)
    requires k < |h| && VerdictAt(c, h, k) != AtCapacity && forall i: nat :: i <= k ==> CleanOpening(c, h, i)
    ensures VerdictAt(c, h, k) == Allowed <==> WindowsHaveRoom(c, h, Verdicts(c, h), k)
  {
    hide CleanOpening, WindowsHaveRoom, AnswersAsOwn, FollowsOwn, VerdictAt;
    EvictionInvisibleIff(c, h, k + 1);
    AnswersFollow(c, h, k + 1, h[k].id);
    ExactWhenFollowing(c, h, Verdicts(c, h), k);
  }

  /** The limiter under a clock that never goes back is exact, whatever was evicted in between and whatever the
      other agents did. */
  lemma {:induction false} LimiterExact(c: Config, h: seq<Call>, k: nat)
    requires c.rate >= 0.0 && Nondecreasing(h) && k < |h| && VerdictAt(c, h, k) != AtCapacity
    ensures VerdictAt(c, h, k) == Allowed <==> WindowsHaveRoom(c, h, Verdicts(c, h), k)
  {
    forall i: nat | i <= k ensures CleanOpening(c, h, i) {
      BoundedRefinesUnbounded(c, h, i);
    }
    ExactAfterCleanOpenings(c, h, k);
  }

  // ---------- the rate bound needs no order at all ----------

  /** One call either leaves another agent's bucket, or moves the caller's to its own time and spends a token. */
  lemma {:induction false} KeptBucketStep(c: Config, h: seq<Call>, v: seq<Verdict>, id: string, i: nat, j: nat, t: Table)
    requires i < j < |h| == |v| && Charged(h, v, i, id) && v[j] == Step(c, t, h[j]).0
    requires id in t && id in Step(c, t, h[j]).1
    requires t[id].tokens <= Headroom(c, h, v, i, j, t[id].last)
    ensures var b := Step(c, t, h[j]).1[id]; b.tokens <= Headroom(c, h, v, i, j + 1, b.last)
  {
    hide Step;
    var e, held, b := h[j], t[id], Step(c, t, h[j]).1[id];
    if e.id == id {
      StepSpendsOwn(c, t, e);
      TakeSpends(c, held, e.now, v[j]);
      HeadroomMoves(c, h, v, i, j, held.last, e.now);
      OneMoreCounted(c, h, v, i, j, e.now);
    } else {
      StepLeavesOthers(c, t, e, id);
      OneMoreCounted(c, h, v, i, j, b.last);
    }
  }

  /** Refilling adds at most rate * elapsed, and an allowed call costs one token. */
  lemma {:induction false} TakeSpends(c: Config, b: Level, now: real, verdict: Verdict)
    requires verdict == Take(c, b, now).0
    ensures var after := Take(c, b, now).1;
      after.last == now && after.tokens <= b.tokens + (now - b.last) * c.rate - if verdict == Allowed then 1.0 else 0.0
  {
  }

  lemma {:induction false} OneMoreCounted(c: Config, h: seq<Call>, v: seq<Verdict>, i: nat, j: nat, now: real)
    requires i < j < |h| == |v|
    ensures Headroom(c, h, v, i, j + 1, now)
         == Headroom(c, h, v, i, j, now) - if h[j].id == h[i].id && v[j] == Allowed then 1.0 else 0.0
  {
  }

  lemma {:induction false} StepLeavesOthers(c: Config, t: Table, e: Call, id: string)
    requires id != e.id && id in Step(c, t, e).1
    ensures id in t && Step(c, t, e).1[id] == t[id]
  {
  }

  lemma {:induction false} StepSpendsOwn(c: Config, t: Table, e: Call)
    requires e.id in t
    ensures e.id in Step(c, t, e).1 && (Step(c, t, e).0, Step(c, t, e).1[e.id]) == Take(c, t[e.id], e.now)
  {
  }

  lemma {:induction false} OpenedBucket(c: Config, h: seq<Call>, v: seq<Verdict>, i: nat)
    requires i < |h| == |v| && v[i] == VerdictAt(c, h, i) != AtCapacity
    ensures h[i].id in TableAt(c, h, i + 1)
    ensures var b := TableAt(c, h, i + 1)[h[i].id]; b.tokens <= Headroom(c, h, v, i, i + 1, b.last)
  {
    FreshHeadroom(c, h, v, i);
    assert AllowedCount(h, v, h[i].id, i, i) == 0;
  }

  lemma {:induction false} KeptBucketSpends(c: Config, h: seq<Call>, v: seq<Verdict>, id: string, i: nat, j: nat)
    requires i < j <= |h| && v == Verdicts(c, h) && Charged(h, v, i, id)
    requires forall k: nat :: i < k <= j ==> id in TableAt(c, h, k)
    ensures var b := TableAt(c, h, j)[id]; b.tokens <= Headroom(c, h, v, i, j, b.last)
    decreases j
  {
    hide Step, AllowedCount, Headroom;
    if i == j - 1 {
      OpenedBucket(c, h, v, i);
    } else {
      var m: nat := j - 1;
      KeptBucketSpends(c, h, v, id, i, m);
      var t := TableAt(c, h, m);
      assert TableAt(c, h, m + 1) == Step(c, t, h[m]).1 && v[m] == Step(c, t, h[m]).0;
      KeptBucketStep(c, h, v, id, i, m, t);
    }
  }

  /** Even if the clock is read out of order, a bucket that stays in the table lets through at most
      burst + rate * (now_j - now_i) of the calls from i to an allowed call j. */
  lemma {:induction false} RateBoundAnyClock(c: Config, h: seq<Call>, v: seq<Verdict>, i: nat, j: nat)
    requires i <= j < |h| && v == Verdicts(c, h) && Charged(h, v, i, h[j].id) && v[j] == Allowed
    requires forall k: nat :: i < k <= j ==> h[j].id in TableAt(c, h, k)
    ensures AllowedCount(h, v, h[j].id, i, j + 1) as real <= c.burst + c.rate * (h[j].now - h[i].now)
  {
    var e := h[j];
    if i == j {
      FreshHeadroom(c, h, v, i);
      OpenedBucket(c, h, v, i);
      assert AllowedCount(h, v, e.id, i, i) == 0;
      AllowedBurst(c, TableAt(c, h, j), e);
    } else {
      KeptBucketSpends(c, h, v, e.id, i, j);
      var b := TableAt(c, h, j)[e.id];
      StepSpendsOwn(c, TableAt(c, h, j), e);
      SpendFits(c, h, v, i, j, b);
    }
  }

  lemma {:induction false} AllowedBurst(c: Config, t: Table, e: Call)
    requires Step(c, t, e).0 == Allowed
    ensures 1.0 <= c.burst
  {
  }

  lemma {:induction false} SpendFits(c: Config, h: seq<Call>, v: seq<Verdict>, i: nat, j: nat, b: Level)
    requires i < j < |h| == |v| && h[i].id == h[j].id && v[j] == Allowed == Take(c, b, h[j].now).0
    requires b.tokens <= Headroom(c, h, v, i, j, b.last)
    ensures AllowedCount(h, v, h[j].id, i, j + 1) as real <= c.burst + c.rate * (h[j].now - h[i].now)
  {
    HeadroomMoves(c, h, v, i, j, b.last, h[j].now);
    assert 1.0 <= Refill(c, b, h[j].now) <= Headroom(c, h, v, i, j, h[j].now);
    assert AllowedCount(h, v, h[j].id, i, j + 1) == AllowedCount(h, v, h[i].id, i, j) + 1;
  }

  /** Of the calls i..j-1 no more than AllowedCount are agent id's and allowed. */
  lemma {:induction false} AllowedCounted(h: seq<Call>, v: seq<Verdict>, id: string, calls: set<nat>, i: nat, j: nat)
    requires j <= |h| == |v|
    requires forall k :: k in calls ==> i <= k < j && h[k].id == id && v[k] == Allowed
    ensures |calls| <= AllowedCount(h, v, id, i, j)
    decreases j
  {
    if i < j {
      AllowedCounted(h, v, id, calls - {j - 1}, i, j - 1);
    } else {
      assert calls == {};
    }
  }
}

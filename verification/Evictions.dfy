/** The rate bound across evictions, when timestamps may arrive out of order: exactly when it survives, and that
    for every capacity of two or more some calls break it. */
module Evictions {

  import opened RateLimit
  import opened Text

  // ---------- longer histories ----------

  lemma {:induction false} VerdictsPrefix(c: Config, h: seq<Call>, more: seq<Call>)
    ensures Verdicts(c, h + more)[..|h|] == Verdicts(c, h)
  {
    forall k: nat | k < |h| ensures VerdictAt(c, h + more, k) == VerdictAt(c, h, k) {
      TablePrefix(c, h, more, k);
    }
  }

  lemma {:induction false} OwnPrefix(c: Config, h: seq<Call>, v: seq<Verdict>, g: seq<Call>, w: seq<Verdict>, id: string, k: nat)
    requires k <= |h| == |v| <= |g| == |w| && g[..|h|] == h && w[..|h|] == v
    ensures OwnLevel(c, g, w, id, k) == OwnLevel(c, h, v, id, k)
  {
    if k > 0 {
      OwnPrefix(c, h, v, g, w, id, k - 1);
      assert g[k - 1] == g[..|h|][k - 1] && w[k - 1] == w[..|h|][k - 1];
    }
  }

  lemma {:induction false} CleanPrefix(c: Config, h: seq<Call>, more: seq<Call>, k: nat)
    requires k < |h|
    ensures CleanOpening(c, h + more, k) == CleanOpening(c, h, k)
  {
    var g := h + more;
    VerdictsPrefix(c, h, more);
    TablePrefix(c, h, more, k);
    assert g[..|h|] == h;
    OwnPrefix(c, h, Verdicts(c, h), g, Verdicts(c, g), h[k].id, k);
    assert Verdicts(c, g)[k] == Verdicts(c, g)[..|h|][k];
  }

  lemma {:induction false} FollowsPrefix(c: Config, h: seq<Call>, more: seq<Call>, id: string)
    requires FollowsOwn(c, h, Verdicts(c, h), |h|, id)
    ensures FollowsOwn(c, h + more, Verdicts(c, h + more), |h|, id)
  {
    var g, v, w := h + more, Verdicts(c, h), Verdicts(c, h + more);
    VerdictsPrefix(c, h, more);
    assert g[..|h|] == h;
    forall i: nat | i < |h| && Charged(g, w, i, id) ensures w[i] == OwnVerdict(c, g, w, i) {
      assert w[i] == w[..|h|][i] == v[i] && g[i] == h[i];
      assert Charged(h, v, i, id);
      OwnPrefix(c, h, v, g, w, id, i);
    }
  }

  // ---------- an opening that was too early can be used ----------

  /** Every call that is allowed keeps within burst + rate * duration in every window of its agent's calls. */
  ghost predicate WithinBound(c: Config, h: seq<Call>) {
    forall k: nat :: k < |h| && VerdictAt(c, h, k) == Allowed ==> WindowsHaveRoom(c, h, Verdicts(c, h), k)
  }

  ghost predicate Over(c: Config, h: seq<Call>) {
    |h| > 0 && VerdictAt(c, h, |h| - 1) == Allowed && !WindowsHaveRoom(c, h, Verdicts(c, h), |h| - 1)
  }

  ghost predicate AllBy(id: string, more: seq<Call>) {
    forall e :: e in more ==> e.id == id
  }

  /** After h, whose last call is the agent's, its bucket holds more than its own history leaves it, although no
      answer has shown that yet. */
  ghost predicate Ahead(c: Config, h: seq<Call>, id: string, kept: Level, own: Level) {
    && id in TableAt(c, h, |h|) && TableAt(c, h, |h|)[id] == kept
    && OwnLevel(c, h, Verdicts(c, h), id, |h|) == Some(own)
    && FollowsOwn(c, h, Verdicts(c, h), |h|, id)
    && kept.last == own.last && own.tokens < kept.tokens <= c.burst
  }

  lemma {:induction false} VerdictsEnd(c: Config, h: seq<Call>, call: Call)
    ensures Verdicts(c, h + [call]) == Verdicts(c, h) + [Step(c, TableAt(c, h, |h|), call).0]
    ensures TableAt(c, h + [call], |h| + 1) == Step(c, TableAt(c, h, |h|), call).1
    ensures VerdictAt(c, h + [call], |h|) == Step(c, TableAt(c, h, |h|), call).0
  {
    hide Step;
    var g := h + [call];
    TablePrefix(c, h, [call], |h|);
    VerdictsPrefix(c, h, [call]);
    assert Verdicts(c, g) == Verdicts(c, g)[..|h|] + [Verdicts(c, g)[|h|]];
  }

  /** The agent's next call: what it finds, and what it is told. */
  lemma {:induction false} NextCall(c: Config, h: seq<Call>, id: string, kept: Level, own: Level, now: real)
    requires Ahead(c, h, id, kept, own)
    ensures var g := h + [Call(id, now)]; var v := Verdicts(c, g);
      && v[|h|] == VerdictAt(c, g, |h|) == Take(c, kept, now).0 && OwnVerdict(c, g, v, |h|) == Take(c, own, now).0
      && FollowsOwn(c, g, v, |h|, id)
      && OwnLevel(c, g, v, id, |h|) == Some(own)
      && id in TableAt(c, g, |g|) && TableAt(c, g, |g|)[id] == Take(c, kept, now).1
      && OwnLevel(c, g, v, id, |g|) == Some(Take(c, own, now).1)
  {
    hide Take, Step, FollowsOwn, TableAt, VerdictAt, Verdicts;
    var call := Call(id, now);
    var g := h + [call];
    VerdictsEnd(c, h, call);
    FollowsPrefix(c, h, [call], id);
    assert g[..|h|] == h && Verdicts(c, g)[..|h|] == Verdicts(c, h);
    OwnPrefix(c, h, Verdicts(c, h), g, Verdicts(c, g), id, |h|);
    StepSpendsOwn(c, TableAt(c, h, |h|), call);
    TakeAnswers(c, kept, now);
    OwnNext(c, g, Verdicts(c, g), |h|);
  }

  lemma {:induction false} OwnNext(c: Config, h: seq<Call>, v: seq<Verdict>, k: nat)
    requires k < |h| == |v| && v[k] != AtCapacity
    ensures var b := OwnLevel(c, h, v, h[k].id, k).GetOr(Full(c, h[k].now));
      OwnLevel(c, h, v, h[k].id, k + 1) == Some(Take(c, b, h[k].now).1)
  {
    hide Take;
  }

  /** A call that its own history would have refused, but that is allowed, is over the bound. */
  lemma {:induction false} RefusedIsOver(c: Config, h: seq<Call>, k: nat)
    requires k == |h| - 1 && VerdictAt(c, h, k) == Allowed
    requires FollowsOwn(c, h, Verdicts(c, h), k, h[k].id) && OwnVerdict(c, h, Verdicts(c, h), k) == Limited && c.burst >= 1.0
    ensures Over(c, h)
  {
    hide TableAt, VerdictAt, OwnLevel, FollowsOwn, AllowedCount;
    var v := Verdicts(c, h);
    OwnRefillExact(c, h, v, k);
    var tokens := Refill(c, OwnLevel(c, h, v, h[k].id, k).GetOr(Full(c, h[k].now)), h[k].now);
    assert tokens < 1.0;
    var i: nat :| i < k && Charged(h, v, i, h[k].id) && tokens == Headroom(c, h, v, i, k, h[k].now);
    assert h[i].id == h[k].id;
  }

  /** Whole tokens that can be taken out. */
  ghost function Calls(tokens: real): nat {
    if tokens < 0.0 then 0 else tokens.Floor + 1
  }

  lemma {:induction false} FewerCalls(tokens: real)
    requires tokens >= 1.0
    ensures Calls(tokens - 1.0) < Calls(tokens)
  {
  }

  /** When to call: at once if a token is due or there is one, else when there will be one. Either both buckets allow
      the call, or only the one that holds too much. */
  lemma {:induction false} NextTime(c: Config, kept: Level, own: Level) returns (now: real)
    requires Sound(c) && kept.last == own.last && own.tokens < kept.tokens <= c.burst
    ensures Take(c, kept, now).0 == Allowed
    ensures own.tokens < 1.0 ==> Take(c, own, now).0 == Limited
    ensures own.tokens >= 1.0 ==>
      && Take(c, kept, now) == (Allowed, Level(kept.tokens - 1.0, now))
      && Take(c, own, now) == (Allowed, Level(own.tokens - 1.0, now))
  {
    if own.tokens >= 1.0 || kept.tokens >= 1.0 {
      now := own.last;
      assert Refill(c, kept, now) == kept.tokens && Refill(c, own, now) == own.tokens by {
        assert (now - own.last) * c.rate == 0.0;
      }
    } else {
      var wait := (1.0 - kept.tokens) / c.rate;
      now := own.last + wait;
      assert Refill(c, kept, now) == 1.0 && Refill(c, own, now) < 1.0 by {
        assert (now - own.last) * c.rate == 1.0 - kept.tokens;
      }
    }
  }

  /** An agent whose bucket holds too much gets over the bound: it takes the tokens it is due, waits until the bucket
      holds one, and takes that. */
  lemma {:induction false} AheadGetsOver(c: Config, h: seq<Call>, id: string, kept: Level, own: Level) returns (more: seq<Call>)
    requires Sound(c) && Ahead(c, h, id, kept, own)
    ensures AllBy(id, more) && Over(c, h + more)
    decreases Calls(own.tokens)
  {
    hide TableAt, VerdictAt, OwnLevel, FollowsOwn, WindowsHaveRoom, Verdicts, Take, Calls;
    var now := NextTime(c, kept, own);
    var call := Call(id, now);
    NextCall(c, h, id, kept, own, now);
    var g := h + [call];
    if own.tokens >= 1.0 {
      FollowsOneMore(c, g, Verdicts(c, g), |h|, id);
      var kept', own' := Take(c, kept, now).1, Take(c, own, now).1;
      FewerCalls(own.tokens);
      more := AheadGetsOver(c, g, id, kept', own');
      assert g + more == h + ([call] + more);
      more := [call] + more;
    } else {
      more := [call];
      RefusedIsOver(c, g, |h|);
    }
  }

  lemma {:induction false} FollowsOneMore(c: Config, h: seq<Call>, v: seq<Verdict>, k: nat, id: string)
    requires k < |h| == |v| && FollowsOwn(c, h, v, k, id) && v[k] == OwnVerdict(c, h, v, k)
    ensures FollowsOwn(c, h, v, k + 1, id)
  {
  }

  /** A bucket that is opened again before the old one would be full lets its agent exceed the bound, by this call
      or by later ones of its own. */
  lemma {:induction false} EarlyOpeningGetsOver(c: Config, h: seq<Call>) returns (more: seq<Call>)
    requires Sound(c) && |h| > 0 && !CleanOpening(c, h, |h| - 1)
    requires forall k: nat :: k < |h| - 1 ==> CleanOpening(c, h, k)
    ensures AllBy(h[|h| - 1].id, more) && Over(c, h + more)
  {
    hide TableAt, VerdictAt, OwnLevel, FollowsOwn, AllowedCount, AnswersAsOwn, CleanOpening, WindowsHaveRoom, Step;
    var k: nat := |h| - 1;
    var e, v := h[k], Verdicts(c, h);
    EvictionInvisibleIff(c, h, k);
    AnswersFollow(c, h, k, e.id);
    var own := EarlyOpening(c, h, k);
    if OwnVerdict(c, h, v, k) == Limited {
      more := [];
      assert h + more == h;
      RefusedIsOver(c, h, k);
    } else {
      FollowsOneMore(c, h, v, k, e.id);
      more := AheadGetsOver(c, h, e.id, Level(c.burst - 1.0, e.now), Take(c, own, e.now).1);
    }
  }

  /** What an early opening gives, and what there should have been. */
  lemma {:induction false} EarlyOpening(c: Config, h: seq<Call>, k: nat) returns (own: Level)
    requires Sound(c) && k < |h| && !CleanOpening(c, h, k)
    ensures OwnLevel(c, h, Verdicts(c, h), h[k].id, k) == Some(own) && !Replenished(c, own, h[k].now)
    ensures OwnLevel(c, h, Verdicts(c, h), h[k].id, k + 1) == Some(Take(c, own, h[k].now).1)
    ensures OwnVerdict(c, h, Verdicts(c, h), k) == Take(c, own, h[k].now).0 && VerdictAt(c, h, k) == Allowed
    ensures h[k].id in TableAt(c, h, k + 1) && TableAt(c, h, k + 1)[h[k].id] == Level(c.burst - 1.0, h[k].now)
  {
    own := OwnLevel(c, h, Verdicts(c, h), h[k].id, k).value;
    FullStaysFull(c, h[k].now);
    OpeningStep(c, TableAt(c, h, k), h[k]);
    OwnNext(c, h, Verdicts(c, h), k);
  }

  lemma {:induction false} OpeningStep(c: Config, t: Table, call: Call)
    requires Sound(c) && call.id !in t && Step(c, t, call).0 != AtCapacity
    ensures Step(c, t, call).0 == Allowed && call.id in Step(c, t, call).1
    ensures Step(c, t, call).1[call.id] == Level(c.burst - 1.0, call.now)
  {
    FullStaysFull(c, call.now);
  }

  lemma {:induction false} KeptIsClean(c: Config, h: seq<Call>, more: seq<Call>, id: string, k: nat)
    requires id in TableAt(c, h, |h|) && AllBy(id, more) && |h| <= k < |h| + |more|
    ensures id in TableAt(c, h + more, k) && CleanOpening(c, h + more, k)
  {
    var g := h + more;
    assert g[k] == more[k - |h|];
    if k == |h| {
      TablePrefix(c, h, more, k);
    } else {
      KeptIsClean(c, h, more, id, k - 1);
      assert g[k - 1] == more[k - 1 - |h|];
      StepSpendsOwn(c, TableAt(c, g, k - 1), g[k - 1]);
    }
  }

  /** For timestamps in any order: a call that reaches a bucket leaves the rate bound safe, whatever its agent does
      next and whenever, exactly if the bucket it reaches was there or the one it lost would be full again by the
      call's own timestamp. */
  lemma {:induction false} BoundSurvivesIff(c: Config, h: seq<Call>)
    requires Sound(c) && |h| > 0 && VerdictAt(c, h, |h| - 1) != AtCapacity
    requires forall k: nat :: k < |h| - 1 ==> CleanOpening(c, h, k)
    ensures CleanOpening(c, h, |h| - 1) <==> forall more :: AllBy(h[|h| - 1].id, more) ==> WithinBound(c, h + more)
  {
    hide CleanOpening, VerdictAt, TableAt, WindowsHaveRoom;
    var id := h[|h| - 1].id;
    if CleanOpening(c, h, |h| - 1) {
      forall more | AllBy(id, more) ensures WithinBound(c, h + more) {
        CleanKeepsBound(c, h, more);
      }
    } else {
      var more := EarlyOpeningGetsOver(c, h);
      assert !WithinBound(c, h + more);
    }
  }

  lemma {:induction false} CleanKeepsBound(c: Config, h: seq<Call>, more: seq<Call>)
    requires |h| > 0 && VerdictAt(c, h, |h| - 1) != AtCapacity && AllBy(h[|h| - 1].id, more)
    requires forall k: nat :: k < |h| ==> CleanOpening(c, h, k)
    ensures WithinBound(c, h + more)
  {
    hide CleanOpening, WindowsHaveRoom;
    var g, id := h + more, h[|h| - 1].id;
    assert id in TableAt(c, h, |h|);
    forall k: nat | k < |g| ensures CleanOpening(c, g, k) {
      if k < |h| { CleanPrefix(c, h, more, k); } else { KeptIsClean(c, h, more, id, k); }
    }
    forall k: nat | k < |g| && VerdictAt(c, g, k) == Allowed ensures WindowsHaveRoom(c, g, Verdicts(c, g), k) {
      ExactAfterCleanOpenings(c, g, k);
    }
  }

  /** Whatever the agent of h's last call does next, and whenever, the rate bound holds. */
  ghost predicate Safe(c: Config, h: seq<Call>) {
    |h| > 0 && VerdictAt(c, h, |h| - 1) != AtCapacity ==>
      forall more :: AllBy(h[|h| - 1].id, more) ==> WithinBound(c, h + more)
  }

  lemma {:induction false} CleanUpTo(c: Config, h: seq<Call>, n: nat, k: nat)
    requires k < n <= |h|
    ensures CleanOpening(c, h[..n], k) == CleanOpening(c, h, k)
  {
    assert h[..n] + h[n..] == h;
    CleanPrefix(c, h[..n], h[n..], k);
  }

  /** The exact condition, for timestamps in any order: no call of the history puts its agent in a position to exceed
      the bound if and only if no bucket was opened again before the one it replaces would have been full. */
  lemma {:induction false} BoundSafeIff(c: Config, h: seq<Call>)
    requires Sound(c)
    ensures (forall k: nat :: k < |h| ==> CleanOpening(c, h, k)) <==> (forall n: nat :: n <= |h| ==> Safe(c, h[..n]))
  {
    hide CleanOpening, VerdictAt, WithinBound;
    if forall k: nat :: k < |h| ==> CleanOpening(c, h, k) {
      forall n: nat | n <= |h| ensures Safe(c, h[..n]) {
        forall k: nat | k < n ensures CleanOpening(c, h[..n], k) { CleanUpTo(c, h, n, k); }
        forall more | n > 0 && VerdictAt(c, h[..n], n - 1) != AtCapacity && AllBy(h[..n][n - 1].id, more)
          ensures WithinBound(c, h[..n] + more)
        {
          CleanKeepsBound(c, h[..n], more);
        }
      }
    } else {
      var k := FirstEarly(c, h, |h|);
      var p := h[..k + 1];
      forall i: nat | i <= k ensures CleanOpening(c, p, i) == CleanOpening(c, h, i) { CleanUpTo(c, h, k + 1, i); }
      EarlyIsCharged(c, p, k);
      BoundSurvivesIff(c, p);
      assert !Safe(c, h[..k + 1]);
    }
  }

  lemma {:induction false} EarlyIsCharged(c: Config, h: seq<Call>, k: nat)
    requires k < |h| && !CleanOpening(c, h, k)
    ensures VerdictAt(c, h, k) != AtCapacity
  {
  }

  lemma {:induction false} FirstEarly(c: Config, h: seq<Call>, n: nat) returns (k: nat)
    requires n <= |h| && exists i: nat :: i < n && !CleanOpening(c, h, i)
    ensures k < n && !CleanOpening(c, h, k) && forall i: nat :: i < k ==> CleanOpening(c, h, i)
  {
    if exists i: nat :: i < n - 1 && !CleanOpening(c, h, i) {
      k := FirstEarly(c, h, n - 1);
    } else {
      k := n - 1;
    }
  }

  // ---------- it happens at every capacity ----------

  /** Distinct names. */
  function Name(n: nat): string {
    Repeat('a', n)
  }

  lemma {:induction false} NamesDiffer(n: nat)
    ensures |Name(n)| == n
  {
    if n > 0 { NamesDiffer(n - 1); }
  }

  function Names(n: nat): set<string> {
    set k | 0 <= k < n :: Name(k)
  }

  lemma {:induction false} NameIsNew(n: nat)
    ensures Name(n) !in Names(n)
  {
    hide Name;
    NamesDiffer(n);
    forall k: nat | k < n ensures Name(k) != Name(n) { NamesDiffer(k); }
  }

  lemma {:induction false} NamesSize(n: nat)
    ensures |Names(n)| == n && Name(n) !in Names(n)
  {
    hide Name;
    NameIsNew(n);
    if n > 0 {
      var m: nat := n - 1;
      NamesSize(m);
      assert Names(n) == Names(m) + {Name(m)};
    } else {
      assert Names(0) == {};
    }
  }

  /** Long enough for an idle bucket that lacks one token to be evicted. */
  function Long(c: Config): real
    requires c.rate > 0.0
  {
    if c.idleTTL > 1.0 / c.rate then c.idleTTL else 1.0 / c.rate
  }

  /** As many agents as there is room for call at time 0, one more comes long after and evicts them all, and the
      first one's next call is stamped 0 as well. */
  function LateCall(c: Config): seq<Call>
    requires c.rate > 0.0
  {
    seq(c.maxAgents, k requires 0 <= k => Call(Name(k), 0.0)) + [Call(Name(c.maxAgents), Long(c)), Call(Name(0), 0.0)]
  }

  /** The table with the first k agents, each of which has called once. */
  function Filled(c: Config, k: nat): Table {
    map id | id in Names(k) :: Level(c.burst - 1.0, 0.0)
  }

  lemma {:induction false} FilledSize(c: Config, k: nat)
    ensures Filled(c, k).Keys == Names(k) && |Filled(c, k)| == k && Name(k) !in Filled(c, k)
  {
    hide Names;
    NamesSize(k);
    var t := Filled(c, k);
    assert t.Keys == Names(k) && |t| == |t.Keys|;
  }

  lemma {:induction false} FilledMore(c: Config, k: nat)
    ensures Filled(c, k)[Name(k) := Level(c.burst - 1.0, 0.0)] == Filled(c, k + 1)
  {
    hide Name;
    assert Names(k + 1) == Names(k) + {Name(k)};
  }

  lemma {:induction false} FilledStep(c: Config, k: nat)
    requires Sound(c) && k < c.maxAgents
    ensures Step(c, Filled(c, k), Call(Name(k), 0.0)).1 == Filled(c, k + 1)
  {
    hide Name, Sweep, Filled;
    FilledSize(c, k);
    FullStaysFull(c, 0.0);
    FilledMore(c, k);
  }

  lemma {:induction false} LateCallFills(c: Config, k: nat)
    requires Sound(c) && k <= c.maxAgents
    ensures TableAt(c, LateCall(c), k) == Filled(c, k)
  {
    hide Step, Filled;
    if k > 0 {
      var j: nat := k - 1;
      LateCallFills(c, j);
      FilledStep(c, j);
      assert LateCall(c)[j] == Call(Name(j), 0.0);
    } else {
      FilledEmpty(c);
    }
  }

  lemma {:induction false} FilledEmpty(c: Config)
    ensures Filled(c, 0) == map[]
  {
  }

  lemma {:induction false} LongEnough(c: Config)
    requires Sound(c)
    ensures Evictable(c, Level(c.burst - 1.0, 0.0), Long(c))
  {
    TimesRate(c.rate, 1.0 / c.rate, Long(c));
    assert (Long(c) - 0.0) * c.rate == Long(c) * c.rate;
  }

  lemma {:induction false} SweptClean(c: Config, k: nat)
    requires Sound(c)
    ensures Sweep(c, Filled(c, k), Long(c)) == map[]
  {
    hide Evictable, Long, Names;
    LongEnough(c);
  }

  lemma {:induction false} AloneStep(c: Config, k: nat)
    requires Sound(c) && k == c.maxAgents
    ensures Step(c, Filled(c, k), Call(Name(k), Long(c))).1 == map[Name(k) := Level(c.burst - 1.0, Long(c))]
  {
    hide Filled, Sweep, Name, Long;
    FilledSize(c, k);
    SweptClean(c, k);
    FullStaysFull(c, Long(c));
  }

  lemma {:induction false} LateCallSweeps(c: Config)
    requires Sound(c)
    ensures var n := c.maxAgents; TableAt(c, LateCall(c), n + 1) == map[Name(n) := Level(c.burst - 1.0, Long(c))]
  {
    hide Step, Filled;
    var n, h := c.maxAgents, LateCall(c);
    LateCallFills(c, n);
    assert h[n] == Call(Name(n), Long(c));
    AloneStep(c, n);
  }

  lemma {:induction false} TimesRate(rate: real, x: real, y: real)
    requires rate > 0.0 && x == 1.0 / rate && x <= y
    ensures y * rate >= 1.0
  {
    assert x * rate == 1.0;
  }

  /** An agent that has not called has no bucket of its own. */
  lemma {:induction false} NoCallNoBucket(c: Config, h: seq<Call>, v: seq<Verdict>, id: string, k: nat)
    requires k <= |h| == |v| && forall i: nat :: i < k ==> h[i].id != id
    ensures OwnLevel(c, h, v, id, k) == None
  {
    if k > 0 { NoCallNoBucket(c, h, v, id, k - 1); }
  }

  lemma {:induction false} LateCallStartsClean(c: Config, k: nat)
    requires Sound(c) && k <= c.maxAgents
    ensures CleanOpening(c, LateCall(c), k)
  {
    var h := LateCall(c);
    forall i: nat | i < k ensures h[i].id != h[k].id { NamesDiffer(i); NamesDiffer(k); }
    NoCallNoBucket(c, h, Verdicts(c, h), h[k].id, k);
  }

  lemma {:induction false} LateCallSpent(c: Config, k: nat)
    requires Sound(c) && 1 <= k <= c.maxAgents + 1
    ensures OwnLevel(c, LateCall(c), Verdicts(c, LateCall(c)), Name(0), k) == Some(Level(c.burst - 1.0, 0.0))
  {
    var h := LateCall(c);
    var v := Verdicts(c, h);
    if k == 1 {
      LateCallFills(c, 0);
      FullStaysFull(c, 0.0);
      assert h[0] == Call(Name(0), 0.0) && v[0] == VerdictAt(c, h, 0) == Allowed;
      assert OwnLevel(c, h, v, Name(0), 0) == None;
    } else {
      LateCallSpent(c, k - 1);
      NamesDiffer(0);
      NamesDiffer(k - 1);
      assert h[k - 1].id == Name(k - 1);
    }
  }

  lemma {:induction false} LateCallIsEarly(c: Config)
    requires Sound(c) && c.maxAgents >= 2
    ensures !CleanOpening(c, LateCall(c), c.maxAgents + 1)
  {
    var n, h := c.maxAgents, LateCall(c);
    LateCallSweeps(c);
    LateCallSpent(c, n + 1);
    NamesDiffer(0);
    NamesDiffer(n);
    assert h[n + 1] == Call(Name(0), 0.0);
    assert (0.0 - 0.0) * c.rate == 0.0;
  }

  /** Under every configuration that the gateway accepts, with room for two agents or more, some calls with an
      out-of-order timestamp get an agent over the bound once its bucket has been evicted. */
  lemma {:induction false} OutOfOrderEvictionBreaksBound(c: Config) returns (h: seq<Call>)
    requires Sound(c) && c.maxAgents >= 2
    ensures Over(c, h)
  {
    hide CleanOpening, TableAt, VerdictAt, Verdicts, WindowsHaveRoom;
    var late := LateCall(c);
    forall k: nat | k < |late| - 1 ensures CleanOpening(c, late, k) { LateCallStartsClean(c, k); }
    LateCallIsEarly(c);
    var more := EarlyOpeningGetsOver(c, late);
    h := late + more;
  }
}

/** What the gateway keeps over every run: authorization is at most 15 seconds stale, failed polls fail closed,
    and every forwarded request has spent its own token. */
module GatewaySafety {

  import opened Api
  import opened Text
  import opened Controller
  import opened Auth
  import opened GatewayRegistry
  import opened Routing
  import opened Cluster
  import opened Sets
  import ControllerSafety
  import RateLimit

  // ---------- snapshots were the store at some instant ----------

  /** The backends are the store's servers at instant i, stamped with a time no later than that instant. */
  ghost predicate SnapshotOf(s: State, at: real, host: string, backends: map<Key, Backend>) {
    at <= s.clock && backends == Snapshot(s.store.servers, at, host)
  }

  ghost predicate SeenSnapshot(run: seq<State>, n: nat, host: string, backends: map<Key, Backend>)
    requires n < |run|
  {
    backends == map[] || exists i: nat, at :: i <= n && SnapshotOf(run[i], at, host, backends)
  }

  ghost predicate SeenList(run: seq<State>, n: nat, at: real, list: map<Key, Server>)
    requires n < |run|
  {
    exists i: nat :: i <= n && ListOf(run[i], at, list)
  }

  ghost predicate ListOf(s: State, at: real, list: map<Key, Server>) {
    at <= s.clock && list == s.store.servers
  }

  /** The route leads to b in the store as it is in s. */
  ghost predicate Leads(s: State, host: string, route: Route, b: Backend) {
    var key := Key(b.namespace, b.name);
    && key in s.store.servers
    && b == BackendOf(key, s.store.servers[key], b.observedAt, host)
    && b.name == route.server
    && (route.namespace != "" ==> b.namespace == route.namespace)
    && (route.namespace == "" ==> forall other :: other in s.store.servers && other.name == route.server ==> other == key)
  }

  ghost predicate LeadsAt(s: State, host: string, route: Route, b: Backend) {
    b.observedAt <= s.clock && Leads(s, host, route, b)
  }

  ghost predicate SeenLeading(run: seq<State>, n: nat, host: string, route: Route, b: Backend)
    requires n < |run|
  {
    exists i: nat :: i <= n && LeadsAt(run[i], host, route, b)
  }

  lemma {:induction false} ResolveLeads(s: State, at: real, host: string, route: Route)
    requires at <= s.clock
    ensures var r := Resolve(Snapshot(s.store.servers, at, host), route.namespace, route.server);
      r.Found? ==> LeadsAt(s, host, route, r.backend)
  {
    var backends := Snapshot(s.store.servers, at, host);
    var r := Resolve(backends, route.namespace, route.server);
    if r.Found? && route.namespace == "" {
      var named := Named(backends, route.server);
      assert |named| == 1;
      var key :| key in named;
      Singleton(named, key);
      assert r == Found(backends[key]);
      forall other | other in s.store.servers && other.name == route.server ensures other == key {
        assert other in named;
      }
    }
  }

  // ---------- what a request knows ----------

  ghost predicate HoldsTicket(g: Gateway, agent: string, ticket: nat) {
    && ticket < |g.calls| && g.calls[ticket].id == agent
    && RateLimit.VerdictAt(g.limits, g.calls, ticket) == RateLimit.Allowed
  }

  ghost predicate KnowsResult(run: seq<State>, n: nat, route: Route, result: Resolution)
    requires n < |run|
  {
    result.Found? ==> SeenLeading(run, n, run[n].gateway.host, route, result.backend)
  }

  ghost predicate Knows(run: seq<State>, n: nat, r: Request)
    requires n < |run|
  {
    var g := run[n].gateway;
    match r
    case Rejected(_) => true
    case Authenticated(agent, _) => ValidServiceAccount(agent)
    case Resolved(agent, route, result) => ValidServiceAccount(agent) && KnowsResult(run, n, route, result)
    case Stamped(agent, route, result, _) => ValidServiceAccount(agent) && KnowsResult(run, n, route, result)
    case Admitted(agent, route, result, ticket) =>
      ValidServiceAccount(agent) && KnowsResult(run, n, route, result) && HoldsTicket(g, agent, ticket)
    case Forwarded(agent, route, b, at, ticket) =>
      && ValidServiceAccount(agent) && HoldsTicket(g, agent, ticket)
      && Passed(run, n, g.host, agent, route, b, at)
  }

  /** At one instant no more than 15 seconds before at, the store granted the request. */
  ghost predicate Passed(run: seq<State>, n: nat, host: string, agent: string, route: Route, b: Backend, at: real)
    requires n < |run|
  {
    exists i: nat :: i <= n && at - POLICY_MAX_AGE <= run[i].clock <= at && Grants(run[i], host, agent, route, b)
  }

  /** In s the route leads to an MCPServer that is ready, allows the agent's account, and has b's address. */
  ghost predicate Grants(s: State, host: string, agent: string, route: Route, b: Backend) {
    var key := Key(b.namespace, b.name);
    && Leads(s, host, route, b)
    && ValidServiceAccount(agent) && Account(agent) in s.store.servers[key].spec.allowed
    && s.store.servers[key].IsReady()
    && ReachedAt(key, s.store.servers[key].spec.port, host, b.address)
  }

  // ---------- the limiter's history only grows ----------

  lemma {:induction false} TicketStays(g: Gateway, g': Gateway, agent: string, ticket: nat)
    requires HoldsTicket(g, agent, ticket) && g.limits == g'.limits && g.calls <= g'.calls
    ensures HoldsTicket(g', agent, ticket)
  {
    var more := g'.calls[|g.calls|..];
    assert g'.calls == g.calls + more;
    RateLimit.TablePrefix(g.limits, g.calls, more, ticket);
  }

  lemma {:induction false} GateStepGrows(s: State, a: GateAction)
    ensures var g := GateStep(s, a); g.host == s.gateway.host && g.limits == s.gateway.limits && s.gateway.calls <= g.calls
  {
  }

  lemma {:induction false} StepGrows(run: seq<State>, acts: seq<Action>, k: nat)
    requires IsRun(run, acts) && k < |acts|
    ensures var g, g' := run[k].gateway, run[k + 1].gateway;
      g'.host == g.host && g'.limits == g.limits && g.calls <= g'.calls && run[k].clock <= run[k + 1].clock
    ensures run[k + 1].gateway == if acts[k].Gate? then GateStep(run[k], acts[k].gate) else run[k].gateway
  {
    assert Stepped(run, acts, k);
    if acts[k].Gate? { GateStepGrows(run[k], acts[k].gate); }
  }

  lemma {:induction false} KnowsStays(run: seq<State>, acts: seq<Action>, k: nat, r: Request)
    requires IsRun(run, acts) && k < |acts| && Knows(run, k, r)
    ensures Knows(run, k + 1, r)
  {
    StepGrows(run, acts, k);
    if r.Admitted? || r.Forwarded? {
      TicketStays(run[k].gateway, run[k + 1].gateway, r.agent, r.ticket);
    }
  }

  // ---------- the registry ----------

  lemma {:induction false} RefreshSeen(run: seq<State>, acts: seq<Action>, n: nat)
    requires IsRun(run, acts) && n < |run|
    ensures var g := run[n].gateway;
      && (g.refresh.Started? ==> g.refresh.at <= run[n].clock)
      && (g.refresh.Listed? ==> SeenList(run, n, g.refresh.at, g.refresh.list))
      && SeenSnapshot(run, n, g.host, g.backends)
  {
    hide Snapshot, UserStep;
    if n > 0 {
      var k := n - 1;
      RefreshSeen(run, acts, k);
      StepGrows(run, acts, k);
      var g := run[k].gateway;
      if acts[k].Gate? && acts[k].gate.ListServers? && g.refresh.Started? {
        assert ListOf(run[k], g.refresh.at, run[k].store.servers);
      }
      if acts[k].Gate? && acts[k].gate.PublishList? && g.refresh.Listed? {
        var i: nat :| i <= k && ListOf(run[i], g.refresh.at, g.refresh.list);
        assert SnapshotOf(run[i], g.refresh.at, g.host, run[n].gateway.backends);
      }
    }
  }

  // ---------- requests ----------

  lemma {:induction false} ResolvedKnows(run: seq<State>, acts: seq<Action>, k: nat, route: Route)
    requires IsRun(run, acts) && k < |run|
    ensures KnowsResult(run, k, route, Resolve(run[k].gateway.backends, route.namespace, route.server))
  {
    RefreshSeen(run, acts, k);
    var g := run[k].gateway;
    if g.backends != map[] {
      var i: nat, at :| i <= k && SnapshotOf(run[i], at, g.host, g.backends);
      ResolveLeads(run[i], at, g.host, route);
    }
  }

  lemma {:induction false} CheckedKnows(run: seq<State>, acts: seq<Action>, k: nat, r: Request)
    requires IsRun(run, acts) && k < |run| && r.Admitted? && Knows(run, k, r)
    ensures Knows(run, k, CheckStep(r, run[k].clock))
  {
    hide HoldsTicket, NewVersions, Next;
    var t, host := run[k].clock, run[k].gateway.host;
    var q := CheckStep(r, t);
    if q.Forwarded? {
      var b := q.backend;
      var i: nat :| i <= k && LeadsAt(run[i], host, r.route, b);
      VersionsOverRun(run, acts, i, k);
      AllowsExactlyTheNamedAccount(b.allowed, r.agent);
      AddressReaches(Key(b.namespace, b.name), run[i].store.servers[Key(b.namespace, b.name)].spec.port, host);
      assert Grants(run[i], host, r.agent, r.route, b);
    }
  }

  lemma {:induction false} LimitedKnows(run: seq<State>, acts: seq<Action>, k: nat, r: Request)
    requires IsRun(run, acts) && k < |acts| && r.Stamped? && Knows(run, k, r)
    requires acts[k].Gate? && acts[k].gate.LimitRequest? && acts[k].gate.id in run[k].gateway.requests
    requires run[k].gateway.requests[acts[k].gate.id] == r
    ensures Knows(run, k + 1, RequestStep(run[k], r, acts[k].gate))
  {
    hide Passed, KnowsResult;
    StepGrows(run, acts, k);
    KnowsStays(run, acts, k, r);
  }

  lemma {:induction false} RequestsKnow(run: seq<State>, acts: seq<Action>, n: nat, id: nat)
    requires IsRun(run, acts) && n < |run| && id in run[n].gateway.requests
    ensures Knows(run, n, run[n].gateway.requests[id])
    decreases n
  {
    if n > 0 {
      var k := n - 1;
      StepGrows(run, acts, k);
      if id in run[k].gateway.requests {
        var r := run[k].gateway.requests[id];
        RequestsKnow(run, acts, k, id);
        KnowsStays(run, acts, k, r);
        if acts[k].Gate? { RequestStepKnows(run, acts, k, id, r, acts[k].gate); }
      }
    }
  }

  lemma {:induction false} RequestStepKnows(run: seq<State>, acts: seq<Action>, k: nat, id: nat, r: Request, a: GateAction)
    requires IsRun(run, acts) && k < |acts| && acts[k] == Gate(a)
    requires id in run[k].gateway.requests && run[k].gateway.requests[id] == r && Knows(run, k, r)
    ensures id in run[k + 1].gateway.requests && Knows(run, k + 1, run[k + 1].gateway.requests[id])
  {
    hide HoldsTicket, Passed, CheckStep, Resolve, RateLimit.VerdictAt;
    StepGrows(run, acts, k);
    KnowsStays(run, acts, k, r);
    if a.ResolveRequest? && a.id == id && r.Authenticated? {
      ResolvedKnows(run, acts, k, r.route);
      KnowsStays(run, acts, k, run[k + 1].gateway.requests[id]);
    } else if a.LimitRequest? && a.id == id && r.Stamped? {
      LimitedKnows(run, acts, k, r);
    } else if a.CheckRequest? && a.id == id && r.Admitted? {
      CheckedKnows(run, acts, k, r);
      KnowsStays(run, acts, k, CheckStep(r, run[k].clock));
    }
  }

  // ---------- the guarantees ----------

  /** Bounded staleness, end to end: a forwarded request's principal is a valid service account, and at one
      instant of the last 15 seconds before its check the store held the MCPServer that the route led to, ready,
      with that account in its allowlist and at the routed address; and by that instant a Deployment of its own
      had rolled out the image and port of its spec. */
  lemma {:induction false} AuthorizationIsFresh(run: seq<State>, acts: seq<Action>, n: nat, id: nat)
    requires IsRun(run, acts) && n < |run| && id in run[n].gateway.requests && run[n].gateway.requests[id].Forwarded?
    ensures var r, host := run[n].gateway.requests[id], run[n].gateway.host;
      exists i: nat :: i <= n && r.at - POLICY_MAX_AGE <= run[i].clock <= r.at
        && Grants(run[i], host, r.agent, r.route, r.backend)
        && var key := Key(r.backend.namespace, r.backend.name);
           ControllerSafety.RolloutSeen(run, i, key, run[i].store.servers[key])
  {
    var r, host := run[n].gateway.requests[id], run[n].gateway.host;
    RequestsKnow(run, acts, n, id);
    var i: nat :| i <= n && r.at - POLICY_MAX_AGE <= run[i].clock <= r.at && Grants(run[i], host, r.agent, r.route, r.backend);
    ControllerSafety.ReadyNeverLies(run, acts, i, Key(r.backend.namespace, r.backend.name));
  }

  /** From instant m on, the store does not allow the agent on key. */
  ghost predicate RevokedFrom(run: seq<State>, m: nat, key: Key, agent: string)
    requires m < |run|
  {
    forall i: nat :: m <= i < |run| && key in run[i].store.servers ==>
      !Allows(run[i].store.servers[key].spec.allowed, agent)
  }

  /** A revocation that is not undone admits nothing that is checked more than 15 seconds later. */
  lemma {:induction false} RevocationBites(run: seq<State>, acts: seq<Action>, m: nat, n: nat, id: nat)
    requires IsRun(run, acts) && m < |run| && n < |run|
    requires id in run[n].gateway.requests && run[n].gateway.requests[id].Forwarded?
    requires var r := run[n].gateway.requests[id]; RevokedFrom(run, m, Key(r.backend.namespace, r.backend.name), r.agent)
    ensures run[n].gateway.requests[id].at <= run[m].clock + POLICY_MAX_AGE
  {
    var r := run[n].gateway.requests[id];
    AuthorizationIsFresh(run, acts, n, id);
    var key := Key(r.backend.namespace, r.backend.name);
    var i: nat :| i <= n && r.at - POLICY_MAX_AGE <= run[i].clock <= r.at
      && Grants(run[i], run[n].gateway.host, r.agent, r.route, r.backend)
      && ControllerSafety.RolloutSeen(run, i, key, run[i].store.servers[key]);
    AllowsExactlyTheNamedAccount(run[i].store.servers[key].spec.allowed, r.agent);
    if run[m].clock < run[i].clock && i < m {
      VersionsOverRun(run, acts, i, m);
      assert false;
    }
  }

  /** Nothing that the gateway would forward from carries an observation later than t. */
  ghost predicate NothingNewer(g: Gateway, t: real) {
    && (forall key :: key in g.backends ==> g.backends[key].observedAt <= t)
    && (forall id :: id in g.requests ==> ResultNotNewer(g.requests[id], t))
  }

  ghost predicate ResultNotNewer(r: Request, t: real) {
    match r
    case Resolved(_, _, result) => result.Found? ==> result.backend.observedAt <= t
    case Stamped(_, _, result, _) => result.Found? ==> result.backend.observedAt <= t
    case Admitted(_, _, result, _) => result.Found? ==> result.backend.observedAt <= t
    case Forwarded(_, _, b, at, _) => at <= t + POLICY_MAX_AGE
    case _ => true
  }

  lemma {:induction false} ResolvedNotNewer(backends: map<Key, Backend>, route: Route, t: real)
    requires forall key :: key in backends ==> backends[key].observedAt <= t
    ensures var r := Resolve(backends, route.namespace, route.server); r.Found? ==> r.backend.observedAt <= t
  {
    var r := Resolve(backends, route.namespace, route.server);
    if r.Found? && route.namespace == "" {
      var key :| key in Named(backends, route.server);
    }
  }

  lemma {:induction false} StepNothingNewer(s: State, a: GateAction, t: real)
    requires NothingNewer(s.gateway, t) && (a.PublishList? && s.gateway.refresh.Listed? ==> s.gateway.refresh.at <= t)
    ensures NothingNewer(GateStep(s, a), t)
  {
    var g := s.gateway;
    if a.ResolveRequest? && a.id in g.requests && g.requests[a.id].Authenticated? {
      ResolvedNotNewer(g.backends, g.requests[a.id].route, t);
    }
  }

  /** Up to instant m nothing is newer than its clock. */
  lemma {:induction false} NothingFromTheFuture(run: seq<State>, acts: seq<Action>, n: nat, t: real)
    requires IsRun(run, acts) && n < |run| && run[n].clock <= t
    ensures NothingNewer(run[n].gateway, t)
    ensures var f := run[n].gateway.refresh; (f.Started? || f.Listed?) ==> f.at <= t
  {
    if n > 0 {
      var k := n - 1;
      StepGrows(run, acts, k);
      NothingFromTheFuture(run, acts, k, t);
      if acts[k].Gate? { StepNothingNewer(run[k], acts[k].gate, t); }
    }
  }

  /** If from instant m on no poll succeeds, nothing passes the checks more than 15 seconds later. */
  lemma {:induction false} FailedPollsFailClosed(run: seq<State>, acts: seq<Action>, m: nat, n: nat)
    requires IsRun(run, acts) && m <= n < |run|
    requires forall k: nat :: m <= k < n ==> acts[k] != Gate(PublishList)
    ensures NothingNewer(run[n].gateway, run[m].clock)
    decreases n
  {
    if m == n {
      NothingFromTheFuture(run, acts, m, run[m].clock);
    } else {
      var k := n - 1;
      FailedPollsFailClosed(run, acts, m, k);
      StepGrows(run, acts, k);
      if acts[k].Gate? { StepNothingNewer(run[k], acts[k].gate, run[m].clock); }
    }
  }

  // ---------- tokens ----------

  ghost predicate Ticketed(r: Request) {
    r.Admitted? || r.Forwarded?
  }

  /** A ticket is an old one of the same request, or the newest, taken by this step. */
  lemma {:induction false} TicketSource(s: State, a: GateAction, id: nat)
    requires id in GateStep(s, a).requests && Ticketed(GateStep(s, a).requests[id])
    ensures var g, r := s.gateway, GateStep(s, a).requests[id];
      || (id in g.requests && Ticketed(g.requests[id]) && g.requests[id].ticket == r.ticket)
      || (a.LimitRequest? && a.id == id && r.ticket == |g.calls|)
  {
  }

  lemma {:induction false} DistinctTickets(run: seq<State>, acts: seq<Action>, n: nat, a: nat, b: nat)
    requires IsRun(run, acts) && n < |run| && a != b && a in run[n].gateway.requests && b in run[n].gateway.requests
    requires Ticketed(run[n].gateway.requests[a]) && Ticketed(run[n].gateway.requests[b])
    ensures run[n].gateway.requests[a].ticket != run[n].gateway.requests[b].ticket
    decreases n
  {
    hide KnowsResult, Passed, RateLimit.VerdictAt;
    if n > 0 {
      var k := n - 1;
      StepGrows(run, acts, k);
      var g := run[k].gateway;
      if acts[k].Gate? {
        TicketSource(run[k], acts[k].gate, a);
        TicketSource(run[k], acts[k].gate, b);
      }
      var oldA, oldB := a in g.requests && Ticketed(g.requests[a]), b in g.requests && Ticketed(g.requests[b]);
      if oldA && oldB {
        DistinctTickets(run, acts, k, a, b);
      } else if oldA {
        RequestsKnow(run, acts, k, a);
      } else if oldB {
        RequestsKnow(run, acts, k, b);
      }
    }
  }

  /** Every admitted or forwarded request holds a limiter call of its own agent that was allowed, and no two
      hold the same: the limiter's bounds on calls are bounds on forwarded requests. */
  lemma {:induction false} TokensAreSpentOnce(run: seq<State>, acts: seq<Action>, n: nat, a: nat, b: nat)
    requires IsRun(run, acts) && n < |run| && a != b && a in run[n].gateway.requests && b in run[n].gateway.requests
    requires Ticketed(run[n].gateway.requests[a]) && Ticketed(run[n].gateway.requests[b])
    ensures var g := run[n].gateway; var r, s := g.requests[a], g.requests[b];
      HoldsTicket(g, r.agent, r.ticket) && HoldsTicket(g, s.agent, s.ticket) && r.ticket != s.ticket
  {
    RequestsKnow(run, acts, n, a);
    RequestsKnow(run, acts, n, b);
    DistinctTickets(run, acts, n, a, b);
  }

  /** These requests hold tickets i..j-1, each its own, of this agent. */
  ghost predicate TicketsOf(g: Gateway, agent: string, ids: set<nat>, i: nat, j: nat) {
    && (forall id :: id in ids ==>
          && id in g.requests && Ticketed(g.requests[id]) && i <= g.requests[id].ticket < j
          && HoldsTicket(g, agent, g.requests[id].ticket))
    && (forall a, b :: a in ids && b in ids && a != b ==> g.requests[a].ticket != g.requests[b].ticket)
  }

  /** Calls i..j are agent's first and last of interest: the last allowed, and the bucket never evicted in between. */
  ghost predicate Window(g: Gateway, agent: string, i: nat, j: nat) {
    var v := RateLimit.Verdicts(g.limits, g.calls);
    && i <= j < |g.calls| && g.calls[j].id == agent
    && RateLimit.Charged(g.calls, v, i, agent) && v[j] == RateLimit.Allowed
    && forall k: nat :: i < k <= j ==> agent in RateLimit.TableAt(g.limits, g.calls, k)
  }

  lemma {:induction false} WindowInRange(g: Gateway, agent: string, i: nat, j: nat)
    requires Window(g, agent, i, j)
    ensures i <= j < |g.calls|
  {
  }

  lemma {:induction false} WindowRate(g: Gateway, agent: string, i: nat, j: nat)
    requires Window(g, agent, i, j)
    ensures RateLimit.AllowedCount(g.calls, RateLimit.Verdicts(g.limits, g.calls), agent, i, j + 1) as real
         <= g.limits.burst + g.limits.rate * (g.calls[j].now - g.calls[i].now)
  {
    hide RateLimit.TableAt, RateLimit.AllowedCount, RateLimit.VerdictAt;
    RateLimit.RateBoundAnyClock(g.limits, g.calls, RateLimit.Verdicts(g.limits, g.calls), i, j);
  }

  lemma {:induction false} TicketsCounted(g: Gateway, agent: string, ids: set<nat>, i: nat, j: nat)
    requires j <= |g.calls| && TicketsOf(g, agent, ids, i, j)
    ensures |ids| <= RateLimit.AllowedCount(g.calls, RateLimit.Verdicts(g.limits, g.calls), agent, i, j)
  {
    hide HoldsTicket;
    var v, ticket := RateLimit.Verdicts(g.limits, g.calls), (id: nat) => TicketIn(g, id);
    var calls := set id | id in ids :: TicketIn(g, id);
    forall k | k in calls ensures i <= k < j && g.calls[k].id == agent && v[k] == RateLimit.Allowed {
      TicketVerdict(g, agent, k);
    }
    RateLimit.AllowedCounted(g.calls, v, agent, calls, i, j);
    InjectionSize(ids, calls, ticket);
  }

  function TicketIn(g: Gateway, id: nat): nat {
    if id in g.requests && (g.requests[id].Admitted? || g.requests[id].Forwarded?) then g.requests[id].ticket else 0
  }

  lemma {:induction false} TicketVerdict(g: Gateway, agent: string, ticket: nat)
    requires HoldsTicket(g, agent, ticket)
    ensures ticket < |g.calls| && g.calls[ticket].id == agent
    ensures RateLimit.Verdicts(g.limits, g.calls)[ticket] == RateLimit.Allowed
  {
  }

  /** End to end, whatever order the clock was read in: while an agent's bucket stays in the table, the requests of
      the agent that the gateway admits or forwards on limiter calls i..j are at most burst + rate * (now_j - now_i). */
  lemma {:induction false} ForwardedWithinRate(
    run: seq<State>, acts: seq<Action>, n: nat, agent: string, ids: set<nat>, i: nat, j: nat)
    requires IsRun(run, acts) && n < |run| && Window(run[n].gateway, agent, i, j)
    requires forall id :: id in ids ==>
      && id in run[n].gateway.requests && Ticketed(run[n].gateway.requests[id])
      && run[n].gateway.requests[id].agent == agent && i <= run[n].gateway.requests[id].ticket <= j
    ensures var g := run[n].gateway;
      |ids| as real <= g.limits.burst + g.limits.rate * (g.calls[j].now - g.calls[i].now)
  {
    hide Window, HoldsTicket, Knows, IsRun, TicketsOf;
    hide RateLimit.AllowedCount, RateLimit.Verdicts;
    WindowInRange(run[n].gateway, agent, i, j);
    RequestsHoldTickets(run, acts, n, agent, ids, i, j + 1);
    TicketsCounted(run[n].gateway, agent, ids, i, j + 1);
    WindowRate(run[n].gateway, agent, i, j);
  }

  lemma {:induction false} RequestsHoldTickets(
    run: seq<State>, acts: seq<Action>, n: nat, agent: string, ids: set<nat>, i: nat, j: nat)
    requires IsRun(run, acts) && n < |run|
    requires forall id :: id in ids ==>
      && id in run[n].gateway.requests && Ticketed(run[n].gateway.requests[id])
      && run[n].gateway.requests[id].agent == agent && i <= run[n].gateway.requests[id].ticket < j
    ensures TicketsOf(run[n].gateway, agent, ids, i, j)
  {
    hide HoldsTicket;
    var g := run[n].gateway;
    forall id | id in ids ensures HoldsTicket(g, agent, g.requests[id].ticket) { RequestsKnow(run, acts, n, id); }
    forall a, b | a in ids && b in ids && a != b ensures g.requests[a].ticket != g.requests[b].ticket {
      DistinctTickets(run, acts, n, a, b);
    }
  }
}

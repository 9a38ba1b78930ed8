/** ServeHTTP of internal/gateway/router.go as one undisturbed request runs it, over the real registry, limiter
    and label tables. The decisions are those of the request stages of Cluster. */
module Routers {

  import opened Api
  import opened Text
  import opened Auth
  import opened GatewayRegistry
  import opened Routing
  import opened AgentLimiting
  import Cluster
  import Metrics
  import RateLimit

  // ---------- the recorded status ----------

  /** The status recorded after these codes have been written. */
  function Captured(codes: seq<int>): (status: int) {
    if codes == [] then 200
    else if codes[|codes| - 1] >= 200 then codes[|codes| - 1]
    else Captured(codes[..|codes| - 1])
  }

  ghost predicate LastFinal(codes: seq<int>, i: nat) {
    i < |codes| && codes[i] >= 200 && forall j :: i < j < |codes| ==> codes[j] < 200
  }

  /** A code is recorded if and only if it is the last one that is not informational, or 200 and there is none. */
  lemma {:induction false} CapturedExact(codes: seq<int>, status: int)
    ensures Captured(codes) == status
       <==> (exists i: nat :: LastFinal(codes, i) && codes[i] == status) || (status == 200 && forall i :: 0 <= i < |codes| ==> codes[i] < 200)
  {
    if codes != [] {
      var n: nat := |codes| - 1;
      var before := codes[..n];
      CapturedExact(before, status);
      if codes[n] >= 200 {
        assert LastFinal(codes, n);
      } else {
        assert forall i: nat :: LastFinal(codes, i) <==> LastFinal(before, i);
        assert forall i :: 0 <= i < n ==> codes[i] == before[i];
      }
    }
  }

  class StatusCapturingWriter {
    var status: int

    constructor ()
      ensures status == Captured([])
    {
      status := 200;
    }

    /** Informational codes pass through without being recorded. */
    method WriteHeader(code: int, ghost codes: seq<int>)
      requires status == Captured(codes)
      modifies this
      ensures status == Captured(codes + [code])
    {
      if code >= 200 {
        status := code;
      }
      assert (codes + [code])[..|codes|] == codes;
    }
  }

  // ---------- one request ----------

  /** What the request carries, and what the outside will answer about it. */
  datatype Incoming = Incoming(
    path: string, credential: Option<string>, slot: bool, review: Option<Review>,
    limiterTime: real, checkTime: real, upstream: seq<int>, upstreamCompletes: bool)

  /** How far the metrics let on that the request got: a server is named only if it was resolved. */
  ghost function ReachOf(auth: AuthResult, route: Option<Route>, backends: map<Key, Backend>): Metrics.Reach {
    if auth.Failed? then Metrics.Unauthenticated
    else if route.None? then Metrics.Unresolved("")
    else
      ReachOfResult(Resolve(backends, route.value.namespace, route.value.server), route.value.endpoint)
  }

  function ReachOfResult(result: Resolution, endpoint: string): Metrics.Reach {
    if result.Found? then Metrics.Server(result.backend.namespace, result.backend.name, endpoint)
    else Metrics.Unresolved(endpoint)
  }

  /** The status and whether the request is forwarded, once the checks of Cluster have been made on it. */
  function AnswerOf(r: Cluster.Request, upstream: int): (int, bool) {
    if r.Rejected? then (r.status, false) else (upstream, true)
  }

  /** What an admitted request gets. */
  function Checked(agent: string, route: Route, result: Resolution, req: Incoming): (int, bool) {
    AnswerOf(Cluster.CheckStep(Cluster.Admitted(agent, route, result, 0), req.checkTime), Captured(req.upstream))
  }

  /** The answer to a request with a known principal and route. */
  function RoutedAnswer(agent: string, route: Route, result: Resolution, verdict: RateLimit.Verdict, req: Incoming): (int, bool) {
    if verdict != RateLimit.Allowed then (429, false) else Checked(agent, route, result, req)
  }

  /** The whole answer, given the limiter's verdict in case it is asked. */
  ghost function FullAnswer(
    auth: AuthResult, route: Option<Route>, backends: map<Key, Backend>, verdict: RateLimit.Verdict, req: Incoming): (int, bool)
  {
    if auth.Failed? then (if auth.error == Unauthenticated then 401 else 503, false)
    else if route.None? then (400, false)
    else RoutedAnswer(auth.name, route.value, Resolve(backends, route.value.namespace, route.value.server), verdict, req)
  }

  // ---------- what each answer means ----------

  /** The request is forwarded exactly if it passes every check, in which case it gets the upstream's status; and it is
      answered otherwise exactly as the first check that fails says. */
  ghost predicate Decided(
    auth: AuthResult, route: Option<Route>, result: Resolution, verdict: RateLimit.Verdict, req: Incoming, status: int, forwarded: bool)
    requires auth.Principal? ==> ValidServiceAccount(auth.name)
  {
    var known := auth.Principal?;
    var routed := known && route.Some?;
    var admitted := routed && verdict == RateLimit.Allowed;
    var found := admitted && result.Found?;
    var recent := found && req.checkTime - result.backend.observedAt <= 15.0;
    var listed := recent && Account(auth.name) in result.backend.allowed;
    && (forwarded <==> listed && result.backend.ready)
    && (forwarded ==> status == Captured(req.upstream))
    && (!forwarded ==>
          && (status == 401 <==> auth == Failed(Unauthenticated))
          && (status == 400 <==> known && !routed)
          && (status == 429 <==> routed && !admitted)
          && (status == 404 <==> admitted && result == NotFound)
          && (status == 409 <==> admitted && result == Ambiguous)
          && (status == 403 <==> recent && !listed)
          && (status == 503 <==> auth == Failed(Unavailable) || (found && !recent) || (listed && !result.backend.ready)))
  }

  lemma {:induction false} CheckedExact(agent: string, route: Route, result: Resolution, req: Incoming)
    requires ValidServiceAccount(agent)
    ensures var (status, forwarded) := Checked(agent, route, result, req);
      Decided(Principal(agent), Some(route), result, RateLimit.Allowed, req, status, forwarded)
  {
    hide ValidServiceAccount, Captured, Allows, Account;
    if result.Found? { AllowsExactlyTheNamedAccount(result.backend.allowed, agent); }
  }

  lemma {:induction false} AnswerExact(
    auth: AuthResult, route: Option<Route>, backends: map<Key, Backend>, verdict: RateLimit.Verdict, req: Incoming)
    requires auth.Principal? ==> ValidServiceAccount(auth.name)
    ensures var (status, forwarded) := FullAnswer(auth, route, backends, verdict, req);
      Decided(auth, route, ResultFor(route, backends), verdict, req, status, forwarded)
  {
    hide ValidServiceAccount, Captured, Checked, Resolve, Account;
    if auth.Principal? && route.Some? && verdict == RateLimit.Allowed {
      CheckedExact(auth.name, route.value, Resolve(backends, route.value.namespace, route.value.server), req);
    }
  }

  /** What the route resolves to. */
  ghost function ResultFor(route: Option<Route>, backends: map<Key, Backend>): Resolution {
    if route.None? then NotFound else Resolve(backends, route.value.namespace, route.value.server)
  }

  /** The stages of a request in Cluster, each at its own instant, come to the same answer. */
  lemma {:induction false} StagesDecide(
    arrive: Cluster.GateAction, first: Cluster.Gateway, s1: Cluster.State, s2: Cluster.State, s3: Cluster.State, s4: Cluster.State,
    id: nat, req: Incoming)
    requires arrive.Arrive? && arrive.path == req.path
    requires (arrive.credential, arrive.slot, arrive.review) == (req.credential, req.slot, req.review)
    requires s2.clock == req.limiterTime && s4.clock == req.checkTime
    ensures var auth, route := Authenticate(first.audience, req.credential, req.slot, req.review), ParsePath(req.path);
      var r1 := Cluster.RequestStep(s1, Cluster.ArriveStep(first, arrive), Cluster.ResolveRequest(id));
      var r3 := Cluster.RequestStep(s3, Cluster.RequestStep(s2, r1, Cluster.StampRequest(id)), Cluster.LimitRequest(id));
      var r4 := Cluster.RequestStep(s4, r3, Cluster.CheckRequest(id));
      var calls := s3.gateway.calls + (if auth.Principal? then [RateLimit.Call(auth.name, req.limiterTime)] else []);
      var verdict := if auth.Principal? then RateLimit.VerdictAt(s3.gateway.limits, calls, |s3.gateway.calls|) else RateLimit.Limited;
      var (status, forwarded) := AnswerOf(r4, Captured(req.upstream));
      && (r4.Rejected? || r4.Forwarded?)
      && Decided(auth, route, ResultFor(route, s1.gateway.backends), verdict, req, status, forwarded)
  {
    hide Authenticate, ParsePath, RateLimit.VerdictAt, Resolve, Captured, Allows, Account, ValidServiceAccount;
    var auth, route := Authenticate(first.audience, req.credential, req.slot, req.review), ParsePath(req.path);
    if auth.Principal? && route.Some? {
      var result := ResultFor(route, s1.gateway.backends);
      if result.Found? { AllowsExactlyTheNamedAccount(result.backend.allowed, auth.name); }
    }
  }

  // ---------- what is recorded ----------

  /** The admitted servers and the series after a request that reached this far, that nothing ran beside. */
  function Recorded(admitted: set<string>, series: set<Metrics.Series>, reach: Metrics.Reach, status: int, completed: bool)
    : (set<string>, set<Metrics.Series>)
  {
    var reached := Metrics.MeterStep(Metrics.Meter(admitted, map[], series), Metrics.Reached(0, reach));
    var ended := Metrics.MeterStep(reached, Metrics.Ended(0, status, completed));
    (ended.admitted, ended.series)
  }

  /** The admitted agents and the labels of the rate-limit counter, after a request of this agent that the limiter
      answered so. */
  function LimitRecorded(limit: nat, admitted: set<string>, limited: set<string>, agent: string, verdict: RateLimit.Verdict)
    : (set<string>, set<string>)
  {
    if verdict == RateLimit.Allowed then (admitted, limited)
    else
      var (ok, admitted') := Metrics.Admit(limit, admitted, agent);
      (admitted', limited + {if ok then agent else "_overflow"})
  }

  /** The one observation of a request: nothing about one that was not authenticated, no server for one that did not
      resolve, and otherwise the server by its own names as long as there is room; aborted only if the upstream was. */
  ghost predicate Observed(
    x: Metrics.Series, before: set<string>, after: set<string>, auth: AuthResult, route: Option<Route>, result: Resolution,
    status: int, completed: bool)
  {
    var found := auth.Principal? && route.Some? && result.Found?;
    var endpoint := if auth.Principal? && route.Some? && route.value.endpoint == "mcp" then "mcp" else "other";
    && x.0.1 == endpoint && Metrics.CodeText(status, x.1.0) && x.1.1 == (if completed then "complete" else "aborted")
    && (auth.Failed? ==> x.0.0 == ("", "_unauthenticated"))
    && (auth.Principal? && !found ==> x.0.0 == ("", "_unresolved"))
    && (!found ==> after == before)
    && (found ==>
          var b := result.backend; var key := b.namespace + "/" + b.name;
          && x.0.0 == (if key in after then (b.namespace, b.name) else ("_overflow", "_overflow"))
          && after == if key in before || |before| < 256 then before + {key} else before)
  }

  /** The rate-limit counter moves only for a known agent with a route that the limiter refuses. */
  ghost predicate LimitObserved(
    before: (set<string>, set<string>), after: (set<string>, set<string>), auth: AuthResult, route: Option<Route>, verdict: RateLimit.Verdict)
  {
    if auth.Principal? && route.Some? && verdict != RateLimit.Allowed then
      && after.0 == (if auth.name in before.0 || |before.0| < 128 then before.0 + {auth.name} else before.0)
      && after.1 == before.1 + {if auth.name in after.0 then auth.name else "_overflow"}
    else after == before
  }

  lemma {:induction false} RecordedIsObserved(
    admitted: set<string>, series: set<Metrics.Series>, auth: AuthResult, route: Option<Route>, backends: map<Key, Backend>,
    status: int, completed: bool) returns (x: Metrics.Series)
    ensures var (admitted', series') := Recorded(admitted, series, ReachOf(auth, route, backends), status, completed);
      series' == series + {x} && Observed(x, admitted, admitted', auth, route, ResultFor(route, backends), status, completed)
  {
    hide Resolve, Metrics.StatusLabel, Metrics.CodeText;
    Metrics.StatusLabelExact(status);
    var reach := ReachOf(auth, route, backends);
    assert "/" == ['/'];
    x := Metrics.SeriesOf((Metrics.PairStep(admitted, reach).0, Metrics.EndpointOf(reach)), status, completed);
  }

  lemma {:induction false} LimitRecordedIsObserved(
    admitted: set<string>, limited: set<string>, auth: AuthResult, route: Option<Route>, verdict: RateLimit.Verdict)
    requires auth.Principal? && route.Some?
    ensures LimitObserved((admitted, limited), LimitRecorded(128, admitted, limited, auth.name, verdict), auth, route, verdict)
  {
  }

  lemma {:induction false} LimitUnasked(
    before: (set<string>, set<string>), auth: AuthResult, route: Option<Route>, verdict: RateLimit.Verdict)
    requires auth.Failed? || route.None?
    ensures LimitObserved(before, before, auth, route, verdict)
  {
  }

  class Router {
    const audience: string
    const registry: Registry
    const limiter: AgentLimiter
    const servers: Metrics.BoundedLabels
    const agents: Metrics.BoundedLabels
    var series: set<Metrics.Series>
    var limited: set<string>

    ghost predicate Valid()
      reads this, limiter, servers, agents
    {
      limiter.Valid() && servers.limit == Metrics.SERVER_LIMIT && agents.limit == Metrics.AGENT_LIMIT && servers != agents
    }

    constructor (audience: string, registry: Registry, limiter: AgentLimiter)
      requires limiter.Valid()
      ensures Valid() && series == {} && limited == {} && fresh(servers) && fresh(agents)
      ensures this.registry == registry && this.limiter == limiter && this.audience == audience
    {
      this.audience, this.registry, this.limiter := audience, registry, limiter;
      var s := new Metrics.BoundedLabels(Metrics.SERVER_LIMIT);
      var a := new Metrics.BoundedLabels(Metrics.AGENT_LIMIT);
      servers, agents := s, a;
      series, limited := {}, {};
    }

    /** What the limiter says and becomes: it is asked only about an authenticated request with a route. */
    ghost function Limiter(auth: AuthResult, route: Option<Route>, now: real): (RateLimit.Verdict, RateLimit.Table)
      reads this, limiter, limiter.buckets.Values
    {
      if auth.Principal? && route.Some? then RateLimit.Step(limiter.Settings(), limiter.Table(), RateLimit.Call(auth.name, now))
      else (RateLimit.Limited, limiter.Table())
    }

    /** The rate-limit labels afterwards: they change only if the limiter is asked and refuses. */
    ghost function LimitLabels(auth: AuthResult, route: Option<Route>, now: real): (set<string>, set<string>)
      reads this, agents, limiter, limiter.buckets.Values
    {
      if auth.Principal? && route.Some?
      then LimitRecorded(agents.limit, agents.values, limited, auth.name, Limiter(auth, route, now).0)
      else (agents.values, limited)
    }

    /** One request, authenticated and parsed. Whatever happens, exactly one observation is recorded, under labels
        that name a server only if it was resolved. */
    method Handle(auth: AuthResult, route: Option<Route>, req: Incoming) returns (status: int, forwarded: bool)
      requires Valid()
      modifies this`series, this`limited, servers, agents, limiter`buckets, limiter.buckets.Values
      ensures Valid()
      ensures limiter.Table() == old(Limiter(auth, route, req.limiterTime)).1
      ensures (status, forwarded) == FullAnswer(auth, route, registry.backends, old(Limiter(auth, route, req.limiterTime)).0, req)
      ensures var reach := ReachOf(auth, route, registry.backends);
        (servers.values, series) == Recorded(old(servers.values), old(series), reach, status, !forwarded || req.upstreamCompletes)
      ensures (agents.values, limited) == old(LimitLabels(auth, route, req.limiterTime))
    {
      hide Metrics.Admit, Metrics.StatusLabel, RateLimit.Step;
      var pair, endpoint := Metrics.UNAUTHENTICATED, "other";
      if auth.Failed? {
        status, forwarded := if auth.error == Unauthenticated then 401 else 503, false;
      } else if route.None? {
        pair, endpoint := Metrics.UNRESOLVED, Metrics.EndpointLabel("");
        status, forwarded := 400, false;
      } else {
        endpoint := Metrics.EndpointLabel(route.value.endpoint);
        pair, status, forwarded := RouteRequest(auth.name, route.value, req);
      }
      RecordRequest(pair, endpoint, status, !forwarded || req.upstreamCompletes);
    }

    method RouteRequest(agent: string, route: Route, req: Incoming) returns (pair: Metrics.Pair, status: int, forwarded: bool)
      requires Valid()
      modifies this`limited, servers, agents, limiter`buckets, limiter.buckets.Values
      ensures Valid()
      ensures limiter.Table() == old(Limiter(Principal(agent), Some(route), req.limiterTime)).1
      ensures (status, forwarded) == RoutedAnswer(agent, route, Resolve(registry.backends, route.namespace, route.server),
                old(Limiter(Principal(agent), Some(route), req.limiterTime)).0, req)
      ensures (pair, servers.values)
           == Metrics.PairStep(old(servers.values), ReachOf(Principal(agent), Some(route), registry.backends))
      ensures (agents.values, limited) == old(LimitLabels(Principal(agent), Some(route), req.limiterTime))
    {
      ghost var table := limiter.Table();
      var result := registry.Lookup(route.namespace, route.server);
      pair := ObserveResult(result, route.endpoint);
      assert limiter.Table() == table;
      label observed:
      status, forwarded := Answer(agent, route, result, req);
      assert servers.values == old@observed(servers.values);
    }

    method RecordRequest(pair: Metrics.Pair, endpoint: string, status: int, completed: bool)
      modifies this`series
      ensures series == old(series) + {((pair, endpoint), (Metrics.StatusLabel(status), Metrics.ResultLabel(completed)))}
    {
      series := series + {((pair, endpoint), (Metrics.StatusLabel(status), Metrics.ResultLabel(completed)))};
    }

    method ServeHTTP(req: Incoming) returns (status: int, forwarded: bool)
      requires Valid()
      modifies this`series, this`limited, servers, agents, limiter`buckets, limiter.buckets.Values
      ensures Valid()
      ensures var auth, route := Authenticate(audience, req.credential, req.slot, req.review), ParsePath(req.path);
        && limiter.Table() == old(Limiter(auth, route, req.limiterTime)).1
        && (status, forwarded) == FullAnswer(auth, route, registry.backends, old(Limiter(auth, route, req.limiterTime)).0, req)
        && (servers.values, series) == Recorded(
             old(servers.values), old(series), ReachOf(auth, route, registry.backends), status, !forwarded || req.upstreamCompletes)
        && (agents.values, limited) == old(LimitLabels(auth, route, req.limiterTime))
      ensures var auth, route := Authenticate(audience, req.credential, req.slot, req.review), ParsePath(req.path);
        Decided(auth, route, ResultFor(route, registry.backends), old(Limiter(auth, route, req.limiterTime)).0, req, status, forwarded)
      ensures var auth, route := Authenticate(audience, req.credential, req.slot, req.review), ParsePath(req.path);
        exists x :: series == old(series) + {x}
          && Observed(x, old(servers.values), servers.values, auth, route, ResultFor(route, registry.backends),
                      status, !forwarded || req.upstreamCompletes)
      ensures var auth, route := Authenticate(audience, req.credential, req.slot, req.review), ParsePath(req.path);
        LimitObserved(old((agents.values, limited)), (agents.values, limited), auth, route, old(Limiter(auth, route, req.limiterTime)).0)
    {
      hide FullAnswer, Decided, Limiter, ParsePath, ValidServiceAccount, Recorded, Observed, LimitRecorded, LimitObserved;
      var auth := Authenticate(audience, req.credential, req.slot, req.review);
      var route := ParsePath(req.path);
      ghost var verdict := Limiter(auth, route, req.limiterTime).0;
      AnswerExact(auth, route, registry.backends, verdict, req);
      ghost var before, admitted, recorded := (agents.values, limited), servers.values, series;
      status, forwarded := Handle(auth, route, req);
      var x := RecordedIsObserved(admitted, recorded, auth, route, registry.backends, status, !forwarded || req.upstreamCompletes);
      if auth.Principal? && route.Some? { LimitRecordedIsObserved(before.0, before.1, auth, route, verdict); }
      else { LimitUnasked(before, auth, route, verdict); }
    }

    /** The limiter first, even for a server that was not found; then the checks on the resolved backend. */
    method Answer(agent: string, route: Route, result: Resolution, req: Incoming) returns (status: int, forwarded: bool)
      requires Valid()
      modifies this`limited, agents, limiter`buckets, limiter.buckets.Values
      ensures Valid()
      ensures var (verdict, table) := RateLimit.Step(limiter.Settings(), old(limiter.Table()), RateLimit.Call(agent, req.limiterTime));
        && limiter.Table() == table && (status, forwarded) == RoutedAnswer(agent, route, result, verdict, req)
        && (agents.values, limited) == LimitRecorded(agents.limit, old(agents.values), old(limited), agent, verdict)
    {
      hide RateLimit.Step, Metrics.Admit, Checked;
      var ok := limiter.AllowAt(agent, req.limiterTime);
      if !ok {
        RecordRateLimit(agent);
        return 429, false;
      }
      status, forwarded := Check(agent, route, result, req);
    }

    method Check(agent: string, route: Route, result: Resolution, req: Incoming) returns (status: int, forwarded: bool)
      ensures (status, forwarded) == Checked(agent, route, result, req)
    {
      forwarded := false;
      if result == NotFound {
        return 404, false;
      }
      if result == Ambiguous {
        return 409, false;
      }
      var b := result.backend;
      if req.checkTime - b.observedAt > POLICY_MAX_AGE {
        return 503, false;
      }
      if !Allows(b.allowed, agent) {
        return 403, false;
      }
      if !b.ready {
        return 503, false;
      }
      status := Proxy(req.upstream);
      forwarded := true;
    }

    /** The upstream's answer, through the capturing writer: any informational codes and then, if all goes well, a final one. */
    method Proxy(codes: seq<int>) returns (status: int)
      ensures status == Captured(codes)
    {
      var recorder := new StatusCapturingWriter();
      for i := 0 to |codes|
        invariant fresh(recorder) && recorder.status == Captured(codes[..i])
      {
        recorder.WriteHeader(codes[i], codes[..i]);
        assert codes[..i] + [codes[i]] == codes[..i + 1];
      }
      assert codes[..|codes|] == codes;
      status := recorder.status;
    }

    method ObserveResult(result: Resolution, endpoint: string) returns (pair: Metrics.Pair)
      requires servers.limit == Metrics.SERVER_LIMIT
      modifies servers
      ensures (pair, servers.values) == Metrics.PairStep(old(servers.values), ReachOfResult(result, endpoint))
    {
      pair := Metrics.UNRESOLVED;
      if result.Found? {
        var b := result.backend;
        var ok := servers.TryAdmit(Metrics.PairKey((b.namespace, b.name)));
        pair := if ok then (b.namespace, b.name) else Metrics.OVERFLOW;
      }
    }

    method RecordRateLimit(agent: string)
      modifies agents, this`limited
      ensures (agents.values, limited)
           == LimitRecorded(agents.limit, old(agents.values), old(limited), agent, RateLimit.Limited)
    {
      var ok := agents.TryAdmit(agent);
      limited := limited + {if ok then agent else "_overflow"};
    }
  }
}

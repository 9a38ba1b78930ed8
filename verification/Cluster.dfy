/** The whole system as one transition system: users, other controllers, passes of the reconciler, the
    registry poll and the stages of requests take steps in any order over one versioned store and one clock.

    Assumptions on what is outside: a List returns the store as of one instant between call and return; a Get
    by the reconciler may return any past version (age picks the instant); writes are refused unless the version
    sent is the one stored; every write makes a new version and every edit of a spec a new generation; only the
    reconciler writes an MCPServer's status. Other actors may do anything to Deployments and Services. */
module Cluster {

  import opened Api
  import opened Text
  import opened Workload
  import opened Controller
  import opened Auth
  import opened GatewayRegistry
  import opened Routing
  import RateLimit

  // ---------- the gateway's part of the state ----------

  /** One poll: the clock was read, then the list was answered. */
  datatype Refresh = Quiet | Started(at: real) | Listed(at: real, list: map<Key, Server>)

  /** Where ServeHTTP is with a request. */
  datatype Request =
    | Rejected(status: int)
    | Authenticated(agent: string, route: Route)
    | Resolved(agent: string, route: Route, result: Resolution)
    | Stamped(agent: string, route: Route, result: Resolution, now: real)
    | Admitted(agent: string, route: Route, result: Resolution, ticket: nat)
    | Forwarded(agent: string, route: Route, backend: Backend, at: real, ticket: nat)

  /** calls is the history of the limiter, in the order in which its lock was taken. */
  datatype Gateway = Gateway(
    host: string, audience: string, limits: RateLimit.Config,
    backends: map<Key, Backend>, refresh: Refresh, requests: map<nat, Request>, calls: seq<RateLimit.Call>)

  datatype State = State(clock: real, store: Store, procs: map<nat, Proc>, gateway: Gateway)

  // ---------- actions ----------

  datatype UserAction =
    | CreateServer(key: Key, spec: ServerSpec)
    | EditServer(key: Key, spec: ServerSpec)
    | MarkServerDeleting(key: Key)
    | RemoveServer(key: Key)
    | SetDeployment(key: Key, deployment: Option<Deployment>)
    | SetService(key: Key, service: Option<Service>)

  /** Whether a write took effect, and whether its answer arrived. */
  datatype Reply = Answered | Lost(message: string) | Refused(message: string)

  datatype PassAction =
    | StartPass(key: Key, age: nat)
    | FetchDeployment(age: nat)
    | SendDeployment(reply: Reply)
    | FetchService(age: nat)
    | SendService(reply: Reply)
    | SendStatus(reply: Reply)
    | FailFetch(message: string)
    | Crash

  datatype GateAction =
    | StartRefresh
    | ListServers
    | PublishList
    | FailRefresh
    | Arrive(id: nat, path: string, credential: Option<string>, slot: bool, review: Option<Review>)
    | ResolveRequest(id: nat)
    | StampRequest(id: nat)
    | LimitRequest(id: nat)
    | CheckRequest(id: nat)

  datatype Action = Tick(elapsed: real) | User(user: UserAction) | Pass(pid: nat, pass: PassAction) | Gate(gate: GateAction)

  // ---------- steps ----------

  function UserStep(s: Store, a: UserAction): Store {
    match a
    case CreateServer(key, spec) =>
      if key in s.servers then s
      else s.(servers := s.servers[key := Server(s.next, s.next, 1, false, spec, ServerStatus("", 0, []))], next := s.next + 1)
    case EditServer(key, spec) =>
      if key !in s.servers then s
      else
        var m := s.servers[key];
        var generation := if spec == m.spec then m.generation else m.generation + 1;
        s.(servers := s.servers[key := m.(spec := spec, generation := generation, version := s.next)], next := s.next + 1)
    case MarkServerDeleting(key) =>
      if key !in s.servers then s
      else s.(servers := s.servers[key := s.servers[key].(deleting := true, version := s.next)], next := s.next + 1)
    case RemoveServer(key) => s.(servers := s.servers - {key})
    case SetDeployment(key, d) =>
      if d.None? then s.(deployments := s.deployments - {key})
      else s.(deployments := s.deployments[key := d.value.(meta := d.value.meta.(version := s.next))], next := s.next + 1)
    case SetService(key, v) =>
      if v.None? then s.(services := s.services - {key})
      else s.(services := s.services[key := v.value.(meta := v.value.meta.(version := s.next))], next := s.next + 1)
  }

  /** A stage that reads. */
  function FetchStep(run: seq<State>, k: nat, p: Proc, a: PassAction): Proc
    requires k < |run|
  {
    match a
    case FetchDeployment(age) =>
      if p.ReadDeployment? && age <= k then GotDeployment(p, Lookup(run[age].store.deployments, p.key)) else p
    case FetchService(age) =>
      if p.ReadService? && age <= k then GotService(p, Lookup(run[age].store.services, ServiceKey(p.key))) else p
    case FailFetch(message) => if p.ReadDeployment? || p.ReadService? then Failure(p, message) else p
    case _ => p
  }

  /** A stage that writes: the store afterwards, and the pass unless it has ended. */
  function SendStep(s: Store, clock: real, p: Proc, a: PassAction): (Store, Option<Proc>) {
    match a
    case SendDeployment(reply) =>
      if !p.WriteDeployment? then (s, Some(p))
      else
        var (s', q) := PutDeploymentStep(s, p);
        (if reply.Refused? then s else s', Some(if reply.Answered? then q else Failure(p, reply.message)))
    case SendService(reply) =>
      if !p.WriteService? then (s, Some(p))
      else
        var (s', q) := PutServiceStep(s, p);
        (if reply.Refused? then s else s', Some(if reply.Answered? then q else Failure(p, reply.message)))
    case SendStatus(reply) =>
      if !p.WriteStatus? then (s, Some(p))
      else (if reply.Refused? then s else PutStatusStep(s, p, clock), None)
    case Crash => (s, None)
    case _ => (s, Some(p))
  }

  function PassStep(run: seq<State>, k: nat, pid: nat, a: PassAction): (Store, map<nat, Proc>)
    requires k < |run|
  {
    var s := run[k];
    if a.StartPass? then
      if pid !in s.procs && a.age <= k && a.key in run[a.age].store.servers
      then (s.store, s.procs[pid := Begin(a.key, run[a.age].store.servers[a.key])])
      else (s.store, s.procs)
    else if pid !in s.procs then (s.store, s.procs)
    else if a.FetchDeployment? || a.FetchService? || a.FailFetch? then
      (s.store, s.procs[pid := FetchStep(run, k, s.procs[pid], a)])
    else
      var (store, p) := SendStep(s.store, s.clock, s.procs[pid], a);
      (store, if p.Some? then s.procs[pid := p.value] else s.procs - {pid})
  }

  function ArriveStep(g: Gateway, a: GateAction): Request
    requires a.Arrive?
  {
    match Authenticate(g.audience, a.credential, a.slot, a.review)
    case Failed(Unauthenticated) => Rejected(401)
    case Failed(Unavailable) => Rejected(503)
    case Principal(name) =>
      match ParsePath(a.path)
      case None => Rejected(400)
      case Some(route) => Authenticated(name, route)
  }

  /** The checks after the limiter, at time t. */
  function CheckStep(r: Request, t: real): Request
    requires r.Admitted?
  {
    match r.result
    case NotFound => Rejected(404)
    case Ambiguous => Rejected(409)
    case Found(b) =>
      if t - b.observedAt > POLICY_MAX_AGE then Rejected(503)
      else if !Allows(b.allowed, r.agent) then Rejected(403)
      else if !b.ready then Rejected(503)
      else Forwarded(r.agent, r.route, b, t, r.ticket)
  }

  ghost function RequestStep(s: State, r: Request, a: GateAction): Request {
    var g := s.gateway;
    if a.ResolveRequest? && r.Authenticated? then
      Resolved(r.agent, r.route, Resolve(g.backends, r.route.namespace, r.route.server))
    else if a.StampRequest? && r.Resolved? then Stamped(r.agent, r.route, r.result, s.clock)
    else if a.LimitRequest? && r.Stamped? then
      var calls := g.calls + [RateLimit.Call(r.agent, r.now)];
      if RateLimit.VerdictAt(g.limits, calls, |g.calls|) == RateLimit.Allowed
      then Admitted(r.agent, r.route, r.result, |g.calls|) else Rejected(429)
    else if a.CheckRequest? && r.Admitted? then CheckStep(r, s.clock)
    else r
  }

  ghost function GateStep(s: State, a: GateAction): Gateway {
    var g := s.gateway;
    match a
    case StartRefresh => if g.refresh.Quiet? then g.(refresh := Started(s.clock)) else g
    case ListServers => if g.refresh.Started? then g.(refresh := Listed(g.refresh.at, s.store.servers)) else g
    case PublishList =>
      if g.refresh.Listed?
      then g.(refresh := Quiet, backends := Snapshot(g.refresh.list, g.refresh.at, g.host)) else g
    case FailRefresh => if g.refresh.Started? then g.(refresh := Quiet) else g
    case Arrive(id, _, _, _, _) => if id in g.requests then g else g.(requests := g.requests[id := ArriveStep(g, a)])
    case _ =>
      if a.id !in g.requests then g
      else
        var r := g.requests[a.id];
        g.(requests := g.requests[a.id := RequestStep(s, r, a)],
           calls := if a.LimitRequest? && r.Stamped? then g.calls + [RateLimit.Call(r.agent, r.now)] else g.calls)
  }

  ghost function Next(run: seq<State>, k: nat, a: Action): State
    requires k < |run|
  {
    var s := run[k];
    match a
    case Tick(elapsed) => s.(clock := if elapsed > 0.0 then s.clock + elapsed else s.clock)
    case User(u) => s.(store := UserStep(s.store, u))
    case Pass(pid, c) => var (store, procs) := PassStep(run, k, pid, c); s.(store := store, procs := procs)
    case Gate(g) => s.(gateway := GateStep(s, g))
  }

  // ---------- runs ----------

  ghost predicate Numbered(s: Store) {
    && (forall key :: key in s.servers ==> s.servers[key].version < s.next)
    && (forall key :: key in s.deployments ==> s.deployments[key].meta.version < s.next)
    && (forall key :: key in s.services ==> s.services[key].meta.version < s.next)
  }

  ghost predicate UidsBelow(s: Store) {
    forall key :: key in s.servers ==> s.servers[key].uid < s.next
  }

  /** Both processes start, before any MCPServer has been ready; the children may be anything. */
  ghost predicate Init(s: State) {
    && Numbered(s.store) && UidsBelow(s.store)
    && (forall key :: key in s.store.servers ==>
          var m := s.store.servers[key]; m.status.observedGeneration <= m.generation && !m.IsReady())
    && s.procs == map[]
    && s.gateway.backends == map[] && s.gateway.refresh == Quiet && s.gateway.requests == map[] && s.gateway.calls == []
  }

  ghost predicate IsRun(run: seq<State>, acts: seq<Action>) {
    && |run| == |acts| + 1
    && Init(run[0])
    && forall k: nat :: k < |acts| ==> Stepped(run, acts, k)
  }

  ghost predicate Stepped(run: seq<State>, acts: seq<Action>, k: nat)
    requires k < |acts| == |run| - 1
  {
    run[k + 1] == Next(run, k, acts[k])
  }

  // ---------- what every step does to the store ----------

  /** The next store's objects are old ones, untouched, or carry a new version. */
  ghost predicate NewVersions(s: Store, t: Store) {
    && s.next <= t.next
    && (forall key :: key in t.servers && Lookup(s.servers, key) != Some(t.servers[key]) ==> s.next <= t.servers[key].version < t.next)
    && (forall key :: key in t.deployments && Lookup(s.deployments, key) != Some(t.deployments[key]) ==>
          s.next <= t.deployments[key].meta.version < t.next)
    && (forall key :: key in t.services && Lookup(s.services, key) != Some(t.services[key]) ==>
          s.next <= t.services[key].meta.version < t.next)
  }

  lemma {:induction false} UserStepVersions(s: Store, a: UserAction)
    ensures NewVersions(s, UserStep(s, a))
  {
  }

  lemma {:induction false} PutDeploymentVersions(s: Store, p: Proc)
    requires p.WriteDeployment?
    ensures NewVersions(s, PutDeploymentStep(s, p).0)
  {
    hide NewVersions, Desired;
    var put := PutDeployment(s, p.key, p.m, p.readDeployment);
    if put.Some? {
      var (t, d) := put.value;
      assert t == s || (t == s.(deployments := s.deployments[p.key := d], next := s.next + 1) && d.meta.version == s.next);
      DeploymentWriteVersions(s, t, p.key, d);
    } else {
      NewVersionsReflexive(s);
    }
  }

  lemma {:induction false} DeploymentWriteVersions(s: Store, t: Store, key: Key, d: Deployment)
    requires t == s || (t == s.(deployments := s.deployments[key := d], next := s.next + 1) && d.meta.version == s.next)
    ensures NewVersions(s, t)
  {
  }

  lemma {:induction false} PutServiceVersions(s: Store, p: Proc)
    requires p.WriteService?
    ensures NewVersions(s, PutServiceStep(s, p).0)
  {
    hide NewVersions, DesiredService;
    var put := PutService(s, p.key, p.m, p.readService);
    if put.Some? {
      var t, at := put.value, ServiceKey(p.key);
      if t != s { ServiceWriteVersions(s, t, at, t.services[at]); } else { NewVersionsReflexive(s); }
    } else {
      NewVersionsReflexive(s);
    }
  }

  lemma {:induction false} ServiceWriteVersions(s: Store, t: Store, at: Key, v: Service)
    requires t == s.(services := s.services[at := v], next := s.next + 1) && v.meta.version == s.next
    ensures NewVersions(s, t)
  {
  }

  lemma {:induction false} PutStatusVersions(s: Store, p: Proc, now: real)
    requires p.WriteStatus?
    ensures NewVersions(s, PutStatusStep(s, p, now))
  {
  }

  lemma {:induction false} SendStepVersions(s: Store, clock: real, p: Proc, a: PassAction)
    ensures NewVersions(s, SendStep(s, clock, p, a).0)
  {
    hide NewVersions, PutDeployment, PutService, PutStatus;
    NewVersionsReflexive(s);
    if p.WriteDeployment? { PutDeploymentVersions(s, p); }
    if p.WriteService? { PutServiceVersions(s, p); }
    if p.WriteStatus? { PutStatusVersions(s, p, clock); }
    var t := SendStep(s, clock, p, a).0;
    assert t == s
      || (p.WriteDeployment? && t == PutDeploymentStep(s, p).0)
      || (p.WriteService? && t == PutServiceStep(s, p).0)
      || (p.WriteStatus? && t == PutStatusStep(s, p, clock));
  }

  lemma {:induction false} StepVersions(run: seq<State>, k: nat, a: Action)
    requires k < |run|
    ensures NewVersions(run[k].store, Next(run, k, a).store)
    ensures run[k].clock <= Next(run, k, a).clock
  {
    match a
    case Tick(_) =>
    case User(u) => UserStepVersions(run[k].store, u);
    case Pass(pid, c) =>
      if pid in run[k].procs { SendStepVersions(run[k].store, run[k].clock, run[k].procs[pid], c); }
    case Gate(_) =>
  }

  lemma {:induction false} NewVersionsReflexive(s: Store)
    ensures NewVersions(s, s)
  {
  }

  lemma {:induction false} NewVersionsCompose(r: Store, s: Store, t: Store)
    requires NewVersions(r, s) && NewVersions(s, t)
    ensures NewVersions(r, t)
  {
    forall key | key in t.servers && Lookup(r.servers, key) != Some(t.servers[key])
      ensures r.next <= t.servers[key].version < t.next
    {
      if Lookup(s.servers, key) == Some(t.servers[key]) { assert key in s.servers; }
    }
    forall key | key in t.deployments && Lookup(r.deployments, key) != Some(t.deployments[key])
      ensures r.next <= t.deployments[key].meta.version < t.next
    {
      if Lookup(s.deployments, key) == Some(t.deployments[key]) { assert key in s.deployments; }
    }
    forall key | key in t.services && Lookup(r.services, key) != Some(t.services[key])
      ensures r.next <= t.services[key].meta.version < t.next
    {
      if Lookup(s.services, key) == Some(t.services[key]) { assert key in s.services; }
    }
  }

  lemma {:induction false} VersionsOverRun(run: seq<State>, acts: seq<Action>, i: nat, n: nat)
    requires IsRun(run, acts) && i <= n < |run|
    ensures NewVersions(run[i].store, run[n].store) && run[i].clock <= run[n].clock
    decreases n
  {
    hide Next, NewVersions, Init;
    if i < n {
      var k: nat := n - 1;
      VersionsOverRun(run, acts, i, k);
      assert Stepped(run, acts, k);
      StepVersions(run, k, acts[k]);
      NewVersionsCompose(run[i].store, run[k].store, run[n].store);
    } else {
      NewVersionsReflexive(run[n].store);
    }
  }

  lemma {:induction false} NumberedThroughout(run: seq<State>, acts: seq<Action>, n: nat)
    requires IsRun(run, acts) && n < |run|
    ensures Numbered(run[n].store)
  {
    VersionsOverRun(run, acts, 0, n);
  }

  /** A version names one state of an object: what was read once, and what is stored now under the same version, is the same. */
  lemma {:induction false} VersionPinsObject(run: seq<State>, acts: seq<Action>, i: nat, n: nat, key: Key)
    requires IsRun(run, acts) && i <= n < |run|
    ensures var s, t := run[i].store, run[n].store;
      && (key in s.servers && key in t.servers && s.servers[key].version == t.servers[key].version ==>
            s.servers[key] == t.servers[key])
      && (key in s.deployments && key in t.deployments && s.deployments[key].meta.version == t.deployments[key].meta.version ==>
            s.deployments[key] == t.deployments[key])
      && (key in s.services && key in t.services && s.services[key].meta.version == t.services[key].meta.version ==>
            s.services[key] == t.services[key])
  {
    VersionsOverRun(run, acts, i, n);
    NumberedThroughout(run, acts, i);
  }

  // ---------- a pass that fails says so ----------

  /** A write that was refused changes nothing, and one whose answer was lost is taken to have failed too: the pass goes
      on to report the failure and nothing else. */
  lemma {:induction false} UnansweredIsReported(s: Store, clock: real, p: Proc, a: PassAction)
    requires (a.SendDeployment? && p.WriteDeployment?) || (a.SendService? && p.WriteService?)
    requires !a.reply.Answered?
    ensures var (t, q) := SendStep(s, clock, p, a);
      && (a.reply.Refused? ==> t == s)
      && q == Some(WriteStatus(p.key, p.m, Outcome("Failed", IsFalse, "ReconcileError", a.reply.message)))
  {
  }

  // ---------- a generation names a spec ----------

  /** UIDs are used once, and a later generation is a larger one. */
  ghost predicate Descends(s: Store, t: Store) {
    && s.next <= t.next
    && (forall key :: key in t.servers ==> t.servers[key].uid < t.next)
    && (forall key :: key in t.servers && t.servers[key].uid < s.next ==>
          key in s.servers && SameOrLater(s.servers[key], t.servers[key]))
  }

  ghost predicate SameOrLater(m: Server, n: Server) {
    && m.uid == n.uid && m.generation <= n.generation
    && (m.generation == n.generation ==> m.spec == n.spec)
    && (m.deleting ==> n.deleting)
  }

  lemma {:induction false} UserStepDescends(s: Store, a: UserAction)
    requires UidsBelow(s)
    ensures Descends(s, UserStep(s, a))
  {
  }

  lemma {:induction false} SendStepDescends(s: Store, clock: real, p: Proc, a: PassAction)
    requires UidsBelow(s)
    ensures Descends(s, SendStep(s, clock, p, a).0)
  {
    hide PutDeployment, PutService, PutStatus, Descends, NewVersions;
    SendStepVersions(s, clock, p, a);
    var t := SendStep(s, clock, p, a).0;
    NextOnlyGrows(s, t);
    if p.WriteDeployment? { PutDeploymentKeepsServers(s, p); }
    if p.WriteService? { PutServiceKeepsServers(s, p); }
    if t.servers == s.servers {
      SameServersDescend(s, t);
    } else {
      PutStatusDescends(s, p, clock);
    }
  }

  lemma {:induction false} NextOnlyGrows(s: Store, t: Store)
    ensures NewVersions(s, t) ==> s.next <= t.next
  {
  }

  lemma {:induction false} PutDeploymentKeepsServers(s: Store, p: Proc)
    requires p.WriteDeployment?
    ensures PutDeploymentStep(s, p).0.servers == s.servers
  {
    hide Desired;
  }

  lemma {:induction false} PutServiceKeepsServers(s: Store, p: Proc)
    requires p.WriteService?
    ensures PutServiceStep(s, p).0.servers == s.servers
  {
    hide DesiredService;
  }

  lemma {:induction false} SameServersDescend(s: Store, t: Store)
    requires UidsBelow(s) && t.servers == s.servers && s.next <= t.next
    ensures Descends(s, t)
  {
  }

  lemma {:induction false} PutStatusDescends(s: Store, p: Proc, now: real)
    requires p.WriteStatus? && UidsBelow(s)
    ensures Descends(s, PutStatusStep(s, p, now))
  {
    hide NextStatus;
  }

  lemma {:induction false} StepDescends(run: seq<State>, k: nat, a: Action)
    requires k < |run| && UidsBelow(run[k].store)
    ensures Descends(run[k].store, Next(run, k, a).store)
  {
    hide SendStep, UserStep;
    match a
    case Tick(_) =>
    case User(u) => UserStepDescends(run[k].store, u);
    case Pass(pid, c) =>
      if pid in run[k].procs { SendStepDescends(run[k].store, run[k].clock, run[k].procs[pid], c); }
    case Gate(_) =>
  }

  lemma {:induction false} DescendsCompose(r: Store, s: Store, t: Store)
    requires Descends(r, s) && Descends(s, t)
    ensures Descends(r, t)
  {
  }

  lemma {:induction false} DescendsOverRun(run: seq<State>, acts: seq<Action>, i: nat, n: nat)
    requires IsRun(run, acts) && i <= n < |run| && UidsBelow(run[i].store)
    ensures Descends(run[i].store, run[n].store)
    decreases n
  {
    hide Next, Init, Descends;
    if i < n {
      var k: nat := n - 1;
      DescendsOverRun(run, acts, i, k);
      assert Stepped(run, acts, k);
      assert UidsBelow(run[k].store) by { DescendantsBelow(run[i].store, run[k].store); }
      StepDescends(run, k, acts[k]);
      DescendsCompose(run[i].store, run[k].store, run[n].store);
    } else {
      DescendsReflexive(run[n].store);
    }
  }

  lemma {:induction false} DescendantsBelow(s: Store, t: Store)
    requires Descends(s, t)
    ensures UidsBelow(t)
  {
  }

  lemma {:induction false} DescendsReflexive(s: Store)
    requires UidsBelow(s)
    ensures Descends(s, s)
  {
  }

  /** Over every run a generation of an MCPServer names one spec, and neither it nor deletion ever goes back: an
      observedGeneration in a status says for which spec it was written. */
  lemma {:induction false} GenerationPinsSpec(run: seq<State>, acts: seq<Action>, i: nat, n: nat, key: Key)
    requires IsRun(run, acts) && i <= n < |run|
    requires key in run[i].store.servers && key in run[n].store.servers
    requires run[i].store.servers[key].uid == run[n].store.servers[key].uid
    ensures var m, m' := run[i].store.servers[key], run[n].store.servers[key];
      && m.generation <= m'.generation && (m.generation == m'.generation ==> m.spec == m'.spec)
      && (m.deleting ==> m'.deleting)
  {
    hide Next, Stepped;
    DescendsOverRun(run, acts, 0, i);
    DescendantsBelow(run[0].store, run[i].store);
    DescendsOverRun(run, acts, i, n);
  }
}

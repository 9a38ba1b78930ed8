/** What the system can always still do: from every reachable state, an undisturbed pass is Reconcile, an MCPServer
    can become ready by the controller's own writes, an agent that waits is let in while nobody else calls, and a
    request that is granted can get through. So the safety theorems are not met by a system that refuses everything:
    other actors only take away what a pass may not touch, and report how the rollout of a Deployment goes. */
module Availability {

  import opened Api
  import opened Text
  import opened Workload
  import opened Controller
  import opened Auth
  import opened GatewayRegistry
  import opened Routing
  import opened Cluster
  import opened Sets
  import GatewaySafety
  import RateLimit

  // ---------- longer runs ----------

  function Last(run: seq<State>): State
    requires run != []
  {
    run[|run| - 1]
  }

  /** No MCPServer of the store that has this child may touch it: another holds it, or it is being deleted. */
  ghost predicate DeploymentHeld(s: Store, key: Key) {
    key in s.deployments && (key in s.servers ==> OwnershipError(key, s.servers[key], key, s.deployments[key].meta).Some?)
  }

  ghost predicate ServiceHeld(s: Store, at: Key) {
    at in s.services
    && forall key :: key in s.servers && ServiceKey(key) == at ==> OwnershipError(key, s.servers[key], at, s.services[at].meta).Some?
  }

  /** The program's own steps and the clock; and of other actors only the removal of a held child, and the
      Deployment controller's report of a status. */
  ghost predicate Unaided(s: Store, a: Action) {
    match a
    case User(SetDeployment(key, None)) => DeploymentHeld(s, key)
    case User(SetDeployment(key, Some(d))) => key in s.deployments && d == s.deployments[key].(status := d.status)
    case User(SetService(at, None)) => ServiceHeld(s, at)
    case User(_) => false
    case _ => true
  }

  /** A run that begins with the given one, and goes on unaided. */
  ghost predicate Continues(run: seq<State>, acts: seq<Action>, run': seq<State>, acts': seq<Action>) {
    && IsRun(run', acts') && 0 < |run| <= |run'| && run'[..|run|] == run && |acts| <= |acts'| && acts'[..|acts|] == acts
    && |run| == |acts| + 1
    && forall k: nat :: |acts| <= k < |acts'| ==> Unaided(run'[k].store, acts'[k])
  }

  /** A step looks at the past only. */
  lemma {:induction false} NextLocal(run: seq<State>, more: seq<State>, k: nat, a: Action)
    requires k < |run|
    ensures Next(run + more, k, a) == Next(run, k, a)
  {
    hide GateStep, SendStep, Begin, GotDeployment, GotService, UserStep;
  }

  lemma {:induction false} Extend(run: seq<State>, acts: seq<Action>, a: Action)
    returns (run': seq<State>, acts': seq<Action>)
    requires IsRun(run, acts) && Unaided(Last(run).store, a)
    ensures Continues(run, acts, run', acts') && |run'| == |run| + 1
    ensures Last(run') == Next(run, |acts|, a)
  {
    hide Next, Init, Unaided;
    run', acts' := run + [Next(run, |acts|, a)], acts + [a];
    forall k: nat | k < |acts'| ensures Stepped(run', acts', k) {
      NextLocal(run, [Next(run, |acts|, a)], k, acts'[k]);
      if k < |acts| { assert Stepped(run, acts, k); }
    }
  }

  lemma {:induction false} ContinuesOn(
    run: seq<State>, acts: seq<Action>, run1: seq<State>, acts1: seq<Action>, run2: seq<State>, acts2: seq<Action>)
    requires Continues(run, acts, run1, acts1) && Continues(run1, acts1, run2, acts2)
    ensures Continues(run, acts, run2, acts2)
  {
    hide Init, Stepped, Unaided;
    assert run2[..|run|] == run2[..|run1|][..|run|];
    assert acts2[..|acts|] == acts2[..|acts1|][..|acts|];
    forall k: nat | |acts| <= k < |acts2| ensures Unaided(run2[k].store, acts2[k]) {
      if k < |acts1| {
        assert run2[k] == run2[..|run1|][k] == run1[k];
        assert acts2[k] == acts2[..|acts1|][k] == acts1[k];
      }
    }
  }

  // ---------- an undisturbed pass ----------

  /** One step of pass pid, with reads answered from the store as it is. */
  lemma {:induction false} ExtendPass(run: seq<State>, acts: seq<Action>, pid: nat, a: PassAction)
    returns (run': seq<State>, acts': seq<Action>)
    requires IsRun(run, acts)
    ensures Continues(run, acts, run', acts')
    ensures var (store, procs) := PassStep(run, |acts|, pid, a); Last(run') == Last(run).(store := store, procs := procs)
  {
    hide PassStep, Init, Stepped;
    run', acts' := Extend(run, acts, Pass(pid, a));
  }

  /** The state with pass pid at stage p, over store. */
  function With(s: State, store: Store, pid: nat, p: Proc): State {
    s.(store := store, procs := s.procs[pid := p])
  }

  lemma {:induction false} RunDeploymentPhase(run: seq<State>, acts: seq<Action>, pid: nat)
    returns (run': seq<State>, acts': seq<Action>)
    requires IsRun(run, acts) && pid in Last(run).procs && Last(run).procs[pid].ReadDeployment?
    ensures Continues(run, acts, run', acts')
    ensures var (store, p) := DeploymentPhase(Last(run).store, Last(run).procs[pid]);
      Last(run') == With(Last(run), store, pid, p)
  {
    hide Init, Stepped, PutDeploymentStep, GotDeployment;
    var s, p := Last(run), Last(run).procs[pid];
    run', acts' := ExtendPass(run, acts, pid, FetchDeployment(|acts|));
    var q := GotDeployment(p, Lookup(s.store.deployments, p.key));
    assert Last(run') == With(s, s.store, pid, q);
    if q.WriteDeployment? {
      var run1, acts1 := run', acts';
      run', acts' := ExtendPass(run1, acts1, pid, SendDeployment(Answered));
      ContinuesOn(run, acts, run1, acts1, run', acts');
    }
  }

  lemma {:induction false} RunServicePhase(run: seq<State>, acts: seq<Action>, pid: nat)
    returns (run': seq<State>, acts': seq<Action>)
    requires IsRun(run, acts) && pid in Last(run).procs && Last(run).procs[pid].ReadService?
    ensures Continues(run, acts, run', acts')
    ensures var (store, p) := ServicePhase(Last(run).store, Last(run).procs[pid]);
      Last(run') == With(Last(run), store, pid, p)
  {
    hide Init, Stepped, PutServiceStep, GotService;
    var s, p := Last(run), Last(run).procs[pid];
    run', acts' := ExtendPass(run, acts, pid, FetchService(|acts|));
    var q := GotService(p, Lookup(s.store.services, ServiceKey(p.key)));
    assert Last(run') == With(s, s.store, pid, q);
    if q.WriteService? {
      var run1, acts1 := run', acts';
      run', acts' := ExtendPass(run1, acts1, pid, SendService(Answered));
      ContinuesOn(run, acts, run1, acts1, run', acts');
    }
  }

  lemma {:induction false} RunChildren(run: seq<State>, acts: seq<Action>, key: Key, pid: nat)
    returns (run': seq<State>, acts': seq<Action>)
    requires IsRun(run, acts) && key in Last(run).store.servers && pid !in Last(run).procs
    ensures Continues(run, acts, run', acts')
    ensures var s := Last(run); var (store, p) := Children(s.store, key, s.store.servers[key]);
      Last(run') == With(s, store, pid, p)
  {
    hide Init, Stepped, DeploymentPhase, ServicePhase;
    var s := Last(run);
    var m := s.store.servers[key];
    run', acts' := ExtendPass(run, acts, pid, StartPass(key, |acts|));
    assert Last(run') == With(s, s.store, pid, Begin(key, m));
    if !m.deleting {
      var run1, acts1 := run', acts';
      run', acts' := RunDeploymentPhase(run1, acts1, pid);
      ContinuesOn(run, acts, run1, acts1, run', acts');
      var (store, p) := DeploymentPhase(s.store, Begin(key, m));
      assert Last(run') == With(s, store, pid, p);
      DeploymentPhaseSettles(s.store, Begin(key, m));
      if p.ReadService? {
        run1, acts1 := run', acts';
        run', acts' := RunServicePhase(run1, acts1, pid);
        ContinuesOn(run, acts, run1, acts1, run', acts');
      }
    }
  }

  /** A pass that nobody disturbs does to the system exactly what Reconcile does to the store. */
  lemma {:induction false} UndisturbedPass(run: seq<State>, acts: seq<Action>, key: Key, pid: nat)
    returns (run': seq<State>, acts': seq<Action>)
    requires IsRun(run, acts) && key in Last(run).store.servers && pid !in Last(run).procs
    ensures Continues(run, acts, run', acts')
    ensures var s := Last(run); Last(run') == s.(store := Controller.Reconcile(s.store, key, s.clock))
  {
    hide Init, Stepped, Children, PutStatusStep;
    var s := Last(run);
    var run1, acts1 := RunChildren(run, acts, key, pid);
    run', acts' := ExtendPass(run1, acts1, pid, SendStatus(Answered));
    ContinuesOn(run, acts, run1, acts1, run', acts');
    assert s.procs[pid := Last(run1).procs[pid]] - {pid} == s.procs;
  }

  // ---------- an MCPServer can become ready ----------

  /** Nothing else in the store's servers than the status and version of key. */
  ghost predicate OnlyStatusMoved(s: Store, t: Store, key: Key) {
    && key in s.servers && key in t.servers
    && t.servers == s.servers[key := s.servers[key].(status := t.servers[key].status, version := t.servers[key].version)]
  }

  lemma {:induction false} ReconcileMovesStatus(s: Store, key: Key, now: real)
    requires key in s.servers
    ensures OnlyStatusMoved(s, Controller.Reconcile(s, key, now), key)
  {
    hide Children;
    var m := s.servers[key];
    ChildrenSettle(s, key, m);
    var (c, p) := Children(s, key, m);
    StatusWritten(c, key, m, p.outcome, now);
    var t := Controller.Reconcile(s, key, now);
    assert t.servers == s.servers[key := t.servers[key]];
  }

  lemma {:induction false} StatusMovesOn(r: Store, s: Store, t: Store, key: Key)
    requires OnlyStatusMoved(r, s, key) && OnlyStatusMoved(s, t, key)
    ensures OnlyStatusMoved(r, t, key)
  {
    assert t.servers == r.servers[key := t.servers[key]];
  }

  lemma {:induction false} ExtendUser(run: seq<State>, acts: seq<Action>, a: UserAction)
    returns (run': seq<State>, acts': seq<Action>)
    requires IsRun(run, acts) && Unaided(Last(run).store, User(a))
    ensures Continues(run, acts, run', acts')
    ensures Last(run') == Last(run).(store := UserStep(Last(run).store, a))
  {
    hide UserStep, Init, Stepped, Unaided;
    run', acts' := Extend(run, acts, User(a));
  }

  lemma {:induction false} StaysHere(run: seq<State>, acts: seq<Action>)
    requires IsRun(run, acts)
    ensures Continues(run, acts, run, acts)
  {
    hide Init, Stepped;
    assert run[..|run|] == run && acts[..|acts|] == acts;
  }

  /** Whoever holds the Deployment gives it up. */
  lemma {:induction false} FreeDeployment(run: seq<State>, acts: seq<Action>, key: Key)
    returns (run': seq<State>, acts': seq<Action>)
    requires IsRun(run, acts) && key in Last(run).store.servers
    ensures Continues(run, acts, run', acts')
    ensures var s, t := Last(run), Last(run');
      && t == s.(store := s.store.(deployments := t.store.deployments)) && !DeploymentHeld(t.store, key)
  {
    hide Init, Stepped, OwnershipError;
    if DeploymentHeld(Last(run).store, key) {
      run', acts' := ExtendUser(run, acts, SetDeployment(key, None));
    } else {
      StaysHere(run, acts);
      run', acts' := run, acts;
    }
  }

  lemma {:induction false} ServiceKeyInjective(key: Key, other: Key)
    requires ServiceKey(key) == ServiceKey(other)
    ensures key == other
  {
    var a, b := key.name + "-svc", other.name + "-svc";
    assert a[..|key.name|] == key.name && b[..|other.name|] == other.name;
  }

  /** Whoever holds the Service gives it up. */
  lemma {:induction false} FreeService(run: seq<State>, acts: seq<Action>, key: Key)
    returns (run': seq<State>, acts': seq<Action>)
    requires IsRun(run, acts) && key in Last(run).store.servers
    ensures Continues(run, acts, run', acts')
    ensures var s, t := Last(run), Last(run');
      && t == s.(store := s.store.(services := t.store.services)) && !ServiceHeld(t.store, ServiceKey(key))
  {
    hide Init, Stepped, OwnershipError, ServiceKey;
    if ServiceHeld(Last(run).store, ServiceKey(key)) {
      run', acts' := ExtendUser(run, acts, SetService(ServiceKey(key), None));
    } else {
      StaysHere(run, acts);
      run', acts' := run, acts;
    }
  }

  lemma {:induction false} NotHeldIsClaimable(s: Store, key: Key)
    requires key in s.servers && !DeploymentHeld(s, key) && !ServiceHeld(s, ServiceKey(key))
    ensures Claimable(s, key, s.servers[key])
  {
    hide OwnershipError, ServiceKey;
    forall other | ServiceKey(other) == ServiceKey(key) ensures other == key {
      ServiceKeyInjective(key, other);
    }
  }

  /** A pass over children that nobody else holds creates or repairs them. */
  lemma {:induction false} BuildChildren(run: seq<State>, acts: seq<Action>, key: Key)
    returns (run': seq<State>, acts': seq<Action>)
    requires IsRun(run, acts) && key in Last(run).store.servers && !Last(run).store.servers[key].deleting
    requires Claimable(Last(run).store, key, Last(run).store.servers[key])
    ensures Continues(run, acts, run', acts')
    ensures var s, t := Last(run), Last(run');
      t == s.(store := t.store) && OnlyStatusMoved(s.store, t.store, key) && Built(t.store, key, t.store.servers[key])
  {
    hide Init, Stepped, Claimable, Built, Controller.Reconcile;
    var s := Last(run);
    var pid := FreshPass(s.procs.Keys);
    run', acts' := UndisturbedPass(run, acts, key, pid);
    PassBuildsChildren(s.store, key, s.clock);
    ReconcileMovesStatus(s.store, key, s.clock);
  }

  /** The Deployment controller reports that the Deployment it finds has rolled out. */
  lemma {:induction false} ReportRollout(run: seq<State>, acts: seq<Action>, key: Key)
    returns (run': seq<State>, acts': seq<Action>)
    requires IsRun(run, acts) && key in Last(run).store.servers
    requires Built(Last(run).store, key, Last(run).store.servers[key])
    ensures Continues(run, acts, run', acts')
    ensures var s, t := Last(run), Last(run');
      && t == s.(store := t.store) && t.store.servers == s.store.servers
      && Built(t.store, key, t.store.servers[key]) && RolledOut(t.store.deployments[key])
  {
    hide Init, Stepped;
    var d := Last(run).store.deployments[key];
    run', acts' := ExtendUser(run, acts, SetDeployment(key, Some(d.(status := DeploymentStatus(d.generation, 1, 1, 1, 1, [])))));
  }

  /** Once the rollout is reported, a pass makes the MCPServer ready. */
  lemma {:induction false} ReportReady(run: seq<State>, acts: seq<Action>, key: Key)
    returns (run': seq<State>, acts': seq<Action>)
    requires IsRun(run, acts) && key in Last(run).store.servers && !Last(run).store.servers[key].deleting
    requires Built(Last(run).store, key, Last(run).store.servers[key]) && RolledOut(Last(run).store.deployments[key])
    ensures Continues(run, acts, run', acts')
    ensures var s, t := Last(run), Last(run');
      && t == s.(store := t.store) && OnlyStatusMoved(s.store, t.store, key) && t.store.servers[key].IsReady()
      && Built(t.store, key, t.store.servers[key])
  {
    hide Init, Stepped, Built, Server.IsReady, RolledOut, Controller.Reconcile;
    var s := Last(run);
    var pid := FreshPass(s.procs.Keys);
    run', acts' := UndisturbedPass(run, acts, key, pid);
    BuiltIsKept(s.store, key, s.clock);
    ReconcileMovesStatus(s.store, key, s.clock);
  }

  /** Wherever the system is and whatever passes are under way, an MCPServer that is not being deleted can become
      ready: anyone who holds its children gives them up, a pass builds both, the Deployment controller reports the
      rollout of what that pass left, and another pass reports it. */
  lemma {:induction false} CanBecomeReady(run: seq<State>, acts: seq<Action>, key: Key)
    returns (run': seq<State>, acts': seq<Action>)
    requires IsRun(run, acts) && key in Last(run).store.servers && !Last(run).store.servers[key].deleting
    ensures Continues(run, acts, run', acts')
    ensures var s, t := Last(run), Last(run');
      && OnlyStatusMoved(s.store, t.store, key) && t.store.servers[key].IsReady()
      && Built(t.store, key, t.store.servers[key])
      && t == s.(store := t.store)
  {
    hide Init, Stepped, Claimable, Built, Server.IsReady, RolledOut, Unaided, DeploymentHeld, ServiceHeld;
    var run1, acts1 := FreeDeployment(run, acts, key);
    var run2, acts2 := FreeService(run1, acts1, key);
    ContinuesOn(run, acts, run1, acts1, run2, acts2);
    assert !DeploymentHeld(Last(run2).store, key) by { HeldByStore(Last(run1).store, Last(run2).store, key); }
    NotHeldIsClaimable(Last(run2).store, key);
    var run3, acts3 := BuildChildren(run2, acts2, key);
    ContinuesOn(run, acts, run2, acts2, run3, acts3);
    var run4, acts4 := ReportRollout(run3, acts3, key);
    ContinuesOn(run, acts, run3, acts3, run4, acts4);
    run', acts' := ReportReady(run4, acts4, key);
    ContinuesOn(run, acts, run4, acts4, run', acts');
    StatusMovesOn(Last(run).store, Last(run4).store, Last(run').store, key);
  }

  lemma {:induction false} HeldByStore(s: Store, t: Store, key: Key)
    requires t.deployments == s.deployments && t.servers == s.servers
    ensures DeploymentHeld(s, key) == DeploymentHeld(t, key)
  {
  }

  lemma {:induction false} FreshPass(taken: set<nat>) returns (pid: nat)
    ensures pid !in taken
  {
    pid := 0;
    while pid in taken
      invariant forall id: nat :: id < pid ==> id in taken
      decreases |taken| - pid
    {
      pid := pid + 1;
      BelowSize(taken, pid);
    }
  }

  lemma {:induction false} BelowSize(taken: set<nat>, n: nat)
    requires forall id: nat :: id < n ==> id in taken
    ensures n <= |taken|
  {
    if n > 0 { BelowSize(taken - {n - 1}, n - 1); }
  }

  // ---------- waiting is enough ----------

  /** From late on, the bucket is full and evictable. */
  lemma {:induction false} FullAgain(c: RateLimit.Config, b: RateLimit.Level) returns (late: real)
    requires c.rate > 0.0
    ensures forall now :: now >= late ==> RateLimit.Evictable(c, b, now)
  {
    var wait := (c.burst - b.tokens) / c.rate;
    late := b.last + (if wait > c.idleTTL then wait else c.idleTTL);
    forall now | now >= late ensures RateLimit.Evictable(c, b, now) {
      Scaled(wait, now - b.last, c.rate);
      assert wait * c.rate == c.burst - b.tokens;
    }
  }

  lemma {:induction false} Scaled(x: real, y: real, k: real)
    requires x <= y && k > 0.0
    ensures x * k <= y * k
  {
  }

  /** Whoever is refused now, with or without a bucket, is let in if they call again late enough, provided that nobody
      else has called in between. */
  lemma {:induction false} LetInAfterWaiting(c: RateLimit.Config, t: RateLimit.Table, id: string) returns (late: real)
    requires RateLimit.Sound(c) && |t| <= c.maxAgents
    ensures forall now :: now >= late ==> RateLimit.Step(c, t, RateLimit.Call(id, now)).0 == RateLimit.Allowed
  {
    late := 0.0;
    if id in t {
      late := FullAgain(c, t[id]);
      forall now | now >= late ensures RateLimit.Step(c, t, RateLimit.Call(id, now)).0 == RateLimit.Allowed {
        assert RateLimit.Evictable(c, t[id], now);
      }
    } else if t.Keys != {} {
      var other :| other in t;
      late := FullAgain(c, t[other]);
      forall now | now >= late ensures RateLimit.Step(c, t, RateLimit.Call(id, now)).0 == RateLimit.Allowed {
        RoomAfterSweep(c, t, id, other, now);
      }
    } else {
      assert t == map[];
    }
  }

  lemma {:induction false} RoomAfterSweep(c: RateLimit.Config, t: RateLimit.Table, id: string, other: string, now: real)
    requires RateLimit.Sound(c) && |t| <= c.maxAgents && id !in t && other in t && RateLimit.Evictable(c, t[other], now)
    ensures RateLimit.Step(c, t, RateLimit.Call(id, now)).0 == RateLimit.Allowed
  {
    var swept := RateLimit.Sweep(c, t, now);
    assert other !in swept && swept.Keys <= t.Keys - {other};
    SubsetSize(swept.Keys, t.Keys - {other});
    assert |t.Keys - {other}| == |t| - 1 && |swept| == |swept.Keys|;
  }

  // ---------- what is granted can get through ----------

  lemma {:induction false} ExtendGate(run: seq<State>, acts: seq<Action>, a: GateAction)
    returns (run': seq<State>, acts': seq<Action>)
    requires IsRun(run, acts)
    ensures Continues(run, acts, run', acts')
    ensures Last(run') == Last(run).(gateway := GateStep(Last(run), a))
  {
    hide GateStep, Init, Stepped;
    run', acts' := Extend(run, acts, Gate(a));
  }

  lemma {:induction false} ExtendTo(run: seq<State>, acts: seq<Action>, late: real)
    returns (run': seq<State>, acts': seq<Action>)
    requires IsRun(run, acts)
    ensures Continues(run, acts, run', acts')
    ensures Last(run') == Last(run).(clock := Last(run').clock) && Last(run').clock >= late
  {
    hide Init, Stepped;
    run', acts' := Extend(run, acts, Tick(late - Last(run).clock));
  }

  /** A poll can complete, whatever became of the one under way; it publishes the store as it is. */
  lemma {:induction false} Poll(run: seq<State>, acts: seq<Action>)
    returns (run': seq<State>, acts': seq<Action>)
    requires IsRun(run, acts)
    ensures Continues(run, acts, run', acts')
    ensures var s := Last(run);
      Last(run') == s.(gateway := s.gateway.(refresh := Quiet, backends := Snapshot(s.store.servers, s.clock, s.gateway.host)))
  {
    hide Init, Stepped, Next;
    var run1, acts1 := ExtendGate(run, acts, if Last(run).gateway.refresh.Listed? then PublishList else FailRefresh);
    var run2, acts2 := ExtendGate(run1, acts1, StartRefresh);
    ContinuesOn(run, acts, run1, acts1, run2, acts2);
    var run3, acts3 := ExtendGate(run2, acts2, ListServers);
    ContinuesOn(run, acts, run2, acts2, run3, acts3);
    run', acts' := ExtendGate(run3, acts3, PublishList);
    ContinuesOn(run, acts, run3, acts3, run', acts');
  }

  /** A route that leads to a server in the store is resolved to it in a snapshot of that store. */
  lemma {:induction false} LeadsResolves(s: State, host: string, route: Route, b: Backend)
    requires GatewaySafety.Leads(s, host, route, b)
    ensures Resolve(Snapshot(s.store.servers, b.observedAt, host), route.namespace, route.server) == Found(b)
  {
    var key, backends := Key(b.namespace, b.name), Snapshot(s.store.servers, b.observedAt, host);
    assert backends[key] == b;
    if route.namespace == "" {
      assert Named(backends, route.server) == {key};
    }
  }

  /** What a client sends. */
  datatype Sent = Sent(path: string, credential: Option<string>, slot: bool, review: Option<Review>)

  /** The request is authenticated as agent, its route leads to key alone, and the agent is on key's list. */
  ghost predicate Granted(s: State, sent: Sent, agent: string, key: Key) {
    && Authenticate(s.gateway.audience, sent.credential, sent.slot, sent.review) == Principal(agent)
    && ParsePath(sent.path).Some?
    && key in s.store.servers
    && GatewaySafety.Leads(s, s.gateway.host, ParsePath(sent.path).value, BackendOf(key, s.store.servers[key], s.clock, s.gateway.host))
    && Allows(s.store.servers[key].spec.allowed, agent)
  }

  /** The stages before the limiter, straight after a poll. */
  lemma {:induction false} RunToLimiter(run: seq<State>, acts: seq<Action>, id: nat, sent: Sent, agent: string, key: Key)
    returns (run': seq<State>, acts': seq<Action>)
    requires IsRun(run, acts) && id !in Last(run).gateway.requests && Granted(Last(run), sent, agent, key)
    requires var s := Last(run); s.gateway.backends == Snapshot(s.store.servers, s.clock, s.gateway.host)
    ensures Continues(run, acts, run', acts')
    ensures var s, g := Last(run), Last(run').gateway;
      && Last(run') == s.(gateway := g) && g == s.gateway.(requests := g.requests) && id in g.requests
      && g.requests[id] == Stamped(agent, ParsePath(sent.path).value, Found(BackendOf(key, s.store.servers[key], s.clock, g.host)), s.clock)
  {
    hide Init, Stepped, Next, ParsePath, Authenticate, Snapshot, BackendOf, Resolve, GatewaySafety.Leads;
    var s, route := Last(run), ParsePath(sent.path).value;
    var host := s.gateway.host;
    var b := BackendOf(key, s.store.servers[key], s.clock, host);
    assert b.observedAt == s.clock by { BackendStamped(key, s.store.servers[key], s.clock, host); }
    LeadsResolves(s, host, route, b);
    var run1, acts1 := ExtendGate(run, acts, Arrive(id, sent.path, sent.credential, sent.slot, sent.review));
    assert Last(run1).gateway == s.gateway.(requests := s.gateway.requests[id := Authenticated(agent, route)]);
    var run2, acts2 := ExtendRequest(run1, acts1, ResolveRequest(id));
    ContinuesOn(run, acts, run1, acts1, run2, acts2);
    run', acts' := ExtendRequest(run2, acts2, StampRequest(id));
    ContinuesOn(run, acts, run2, acts2, run', acts');
  }

  lemma {:induction false} BackendStamped(key: Key, m: Server, at: real, host: string)
    ensures var b := BackendOf(key, m, at, host);
      b.observedAt == at && b.allowed == m.spec.allowed && b.ready == m.IsReady() && Key(b.namespace, b.name) == key
  {
  }

  /** The limiter and the checks. */
  lemma {:induction false} RunFromLimiter(run: seq<State>, acts: seq<Action>, id: nat)
    returns (run': seq<State>, acts': seq<Action>)
    requires IsRun(run, acts)
    requires var s := Last(run); var g := s.gateway;
      && id in g.requests && g.requests[id].Stamped? && g.requests[id].result.Found?
      && var r := g.requests[id]; var b := r.result.backend;
      && b.ready && Allows(b.allowed, r.agent) && s.clock - b.observedAt <= POLICY_MAX_AGE
      && RateLimit.VerdictAt(g.limits, g.calls + [RateLimit.Call(r.agent, r.now)], |g.calls|) == RateLimit.Allowed
    ensures Continues(run, acts, run', acts')
    ensures var s, g := Last(run), Last(run').gateway;
      var r := s.gateway.requests[id];
      id in g.requests && g.requests[id] == Forwarded(r.agent, r.route, r.result.backend, s.clock, |s.gateway.calls|)
  {
    hide Init, Stepped, Next, RateLimit.VerdictAt, Allows;
    var run1, acts1 := ExtendRequest(run, acts, LimitRequest(id));
    run', acts' := ExtendRequest(run1, acts1, CheckRequest(id));
    ContinuesOn(run, acts, run1, acts1, run', acts');
  }

  /** One stage of a request; only the limiter stage touches more of the gateway than the request. */
  lemma {:induction false} ExtendRequest(run: seq<State>, acts: seq<Action>, a: GateAction)
    returns (run': seq<State>, acts': seq<Action>)
    requires IsRun(run, acts)
    requires a.ResolveRequest? || a.StampRequest? || a.LimitRequest? || a.CheckRequest?
    requires a.id in Last(run).gateway.requests
    ensures Continues(run, acts, run', acts')
    ensures var s, g := Last(run), Last(run').gateway;
      && Last(run') == s.(gateway := g)
      && g == s.gateway.(requests := g.requests, calls := g.calls)
      && a.id in g.requests && g.requests[a.id] == RequestStep(s, s.gateway.requests[a.id], a)
      && (!a.LimitRequest? ==> g.calls == s.gateway.calls)
  {
    hide Init, Stepped, Next, RequestStep;
    run', acts' := ExtendGate(run, acts, a);
  }

  lemma {:induction false} LeadsCarries(s: State, t: State, host: string, route: Route, key: Key)
    requires OnlyStatusMoved(s.store, t.store, key)
    requires GatewaySafety.Leads(s, host, route, BackendOf(key, s.store.servers[key], s.clock, host))
    ensures GatewaySafety.Leads(t, host, route, BackendOf(key, t.store.servers[key], t.clock, host))
  {
    assert t.store.servers.Keys == s.store.servers.Keys;
  }

  /** From every reachable state, with a limiter as configured, a listed account's request for a server that is not
      being deleted can be forwarded to that server. */
  lemma {:induction false} GrantedCanBeForwarded(run: seq<State>, acts: seq<Action>, id: nat, sent: Sent, agent: string, key: Key)
    returns (run': seq<State>, acts': seq<Action>)
    requires IsRun(run, acts) && RateLimit.Sound(Last(run).gateway.limits)
    requires id !in Last(run).gateway.requests && Granted(Last(run), sent, agent, key) && !Last(run).store.servers[key].deleting
    ensures Continues(run, acts, run', acts')
    ensures var g := Last(run').gateway;
      && id in g.requests && g.requests[id].Forwarded? && g.requests[id].agent == agent
      && Key(g.requests[id].backend.namespace, g.requests[id].backend.name) == key
  {
    hide Init, Stepped, Next, ParsePath, Authenticate, RateLimit.Step;
    var s := Last(run);
    var g := s.gateway;
    var run1, acts1 := CanBecomeReady(run, acts, key);
    RateLimit.TableBounded(g.limits, g.calls, |g.calls|);
    var table := RateLimit.TableAt(g.limits, g.calls, |g.calls|);
    var late := LetInAfterWaiting(g.limits, table, agent);
    var run2, acts2 := ExtendTo(run1, acts1, late);
    ContinuesOn(run, acts, run1, acts1, run2, acts2);
    var run3, acts3 := Poll(run2, acts2);
    ContinuesOn(run, acts, run2, acts2, run3, acts3);
    var t := Last(run3);
    LeadsCarries(s, t, g.host, ParsePath(sent.path).value, key);
    var call := RateLimit.Call(agent, t.clock);
    RateLimit.TablePrefix(g.limits, g.calls, [call], |g.calls|);
    BackendStamped(key, t.store.servers[key], t.clock, g.host);
    var run4, acts4 := RunToLimiter(run3, acts3, id, sent, agent, key);
    ContinuesOn(run, acts, run3, acts3, run4, acts4);
    run', acts' := RunFromLimiter(run4, acts4, id);
    ContinuesOn(run, acts, run4, acts4, run', acts');
  }
}

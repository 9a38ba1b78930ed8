/** What the reconciler keeps over every run: it never overwrites an object it does not own, and Ready never
    lies about a generation. */
module ControllerSafety {

  import opened Api
  import opened Text
  import opened Workload
  import opened Controller
  import opened Cluster

  // ---------- things that were true at some instant up to n ----------

  ghost predicate ServerAt(s: State, key: Key, m: Server) {
    key in s.store.servers && s.store.servers[key] == m
  }

  ghost predicate SeenServer(run: seq<State>, n: nat, key: Key, m: Server)
    requires n < |run|
  {
    exists i: nat :: i <= n && ServerAt(run[i], key, m)
  }

  ghost predicate DeploymentAt(s: State, key: Key, d: Deployment) {
    key in s.store.deployments && s.store.deployments[key] == d
  }

  ghost predicate SeenDeployment(run: seq<State>, n: nat, key: Key, d: Deployment)
    requires n < |run|
  {
    exists i: nat :: i <= n && DeploymentAt(run[i], key, d)
  }

  ghost predicate ServiceAt(s: State, key: Key, v: Service) {
    key in s.store.services && s.store.services[key] == v
  }

  ghost predicate SeenService(run: seq<State>, n: nat, key: Key, v: Service)
    requires n < |run|
  {
    exists i: nat :: i <= n && ServiceAt(run[i], key, v)
  }

  /** m's own Deployment, not being deleted, runs the image and port of m's spec. */
  ghost predicate Serves(key: Key, m: Server, d: Deployment) {
    OwnedBy(key, m, d.meta) && Runs(key.name, m.spec, d.spec)
  }

  /** At some instant up to n, m's own Deployment ran m's image and port and had rolled out. */
  ghost predicate RolloutSeen(run: seq<State>, n: nat, key: Key, m: Server)
    requires n < |run|
  {
    exists d :: SeenDeployment(run, n, key, d) && Serves(key, m, d) && RolledOut(d)
  }

  lemma {:induction false} SeenStays(run: seq<State>, n: nat, later: nat, key: Key, m: Server)
    requires n <= later < |run|
    ensures SeenServer(run, n, key, m) ==> SeenServer(run, later, key, m)
    ensures forall d :: SeenDeployment(run, n, key, d) ==> SeenDeployment(run, later, key, d)
    ensures forall v :: SeenService(run, n, ServiceKey(key), v) ==> SeenService(run, later, ServiceKey(key), v)
    ensures RolloutSeen(run, n, key, m) ==> RolloutSeen(run, later, key, m)
  {
  }

  // ---------- what a pass knows ----------

  /** dep carries the spec, status and generation of a Deployment that was seen to serve m. */
  ghost predicate Basis(run: seq<State>, n: nat, key: Key, m: Server, dep: Deployment)
    requires n < |run|
  {
    exists d :: SeenDeployment(run, n, key, d) && Serves(key, m, d)
      && dep.spec == d.spec && dep.status == d.status && dep.generation == d.generation
  }

  ghost predicate Knows(run: seq<State>, n: nat, p: Proc)
    requires n < |run|
  {
    && SeenServer(run, n, p.key, p.m)
    && (p.WriteDeployment? && p.readDeployment.Some? ==>
          var d := p.readDeployment.value;
          SeenDeployment(run, n, p.key, d) && OwnershipError(p.key, p.m, p.key, d.meta).None?)
    && ((p.ReadService? || p.WriteService?) && !p.changed ==> Basis(run, n, p.key, p.m, p.dep))
    && (p.WriteService? && p.readService.Some? ==>
          var v := p.readService.value;
          SeenService(run, n, ServiceKey(p.key), v) && OwnershipError(p.key, p.m, ServiceKey(p.key), v.meta).None?)
    && (p.WriteStatus? && p.outcome.status == IsTrue ==> RolloutSeen(run, n, p.key, p.m))
  }

  lemma {:induction false} KnowsStays(run: seq<State>, n: nat, later: nat, p: Proc)
    requires n <= later < |run| && Knows(run, n, p)
    ensures Knows(run, later, p)
  {
    SeenStays(run, n, later, p.key, p.m);
    if (p.ReadService? || p.WriteService?) && !p.changed {
      var d :| SeenDeployment(run, n, p.key, d) && Serves(p.key, p.m, d)
        && p.dep.spec == d.spec && p.dep.status == d.status && p.dep.generation == d.generation;
      assert SeenDeployment(run, later, p.key, d);
    }
  }

  lemma {:induction false} BeginKnows(run: seq<State>, n: nat, age: nat, key: Key)
    requires age <= n < |run| && key in run[age].store.servers
    ensures Knows(run, n, Begin(key, run[age].store.servers[key]))
  {
    assert ServerAt(run[age], key, run[age].store.servers[key]);
  }

  lemma {:induction false} FetchKnows(run: seq<State>, n: nat, p: Proc, a: PassAction)
    requires n < |run| && Knows(run, n, p)
    ensures Knows(run, n, FetchStep(run, n, p, a))
  {
    if a.FetchDeployment? && a.age <= n && p.key in run[a.age].store.deployments {
      assert DeploymentAt(run[a.age], p.key, run[a.age].store.deployments[p.key]);
    }
    if a.FetchService? && a.age <= n && ServiceKey(p.key) in run[a.age].store.services {
      assert ServiceAt(run[a.age], ServiceKey(p.key), run[a.age].store.services[ServiceKey(p.key)]);
    }
  }

  /** An update goes through only onto the version that was read, which is the object that was read. */
  lemma {:induction false} ReadIsHeld(run: seq<State>, acts: seq<Action>, n: nat, key: Key, d: Deployment)
    requires IsRun(run, acts) && n < |run| && SeenDeployment(run, n, key, d)
    requires key in run[n].store.deployments && run[n].store.deployments[key].meta.version == d.meta.version
    ensures run[n].store.deployments[key] == d
  {
    var i: nat :| i <= n && DeploymentAt(run[i], key, d);
    VersionPinsObject(run, acts, i, n, key);
  }

  lemma {:induction false} ReadServiceIsHeld(run: seq<State>, acts: seq<Action>, n: nat, key: Key, v: Service)
    requires IsRun(run, acts) && n < |run| && SeenService(run, n, key, v)
    requires key in run[n].store.services && run[n].store.services[key].meta.version == v.meta.version
    ensures run[n].store.services[key] == v
  {
    var i: nat :| i <= n && ServiceAt(run[i], key, v);
    VersionPinsObject(run, acts, i, n, key);
  }

  lemma {:induction false} ReadServerIsHeld(run: seq<State>, acts: seq<Action>, n: nat, key: Key, m: Server)
    requires IsRun(run, acts) && n < |run| && SeenServer(run, n, key, m)
    requires key in run[n].store.servers && run[n].store.servers[key].version == m.version
    ensures run[n].store.servers[key] == m
  {
    var i: nat :| i <= n && ServerAt(run[i], key, m);
    VersionPinsObject(run, acts, i, n, key);
  }

  // ---------- ownership ----------

  /** The object's controller is m, by name and UID, and it is not being deleted. */
  ghost predicate OwnedBy(key: Key, m: Server, meta: Meta) {
    !meta.deleting && exists block ::
      meta.controller == Some(OwnerRef("mcp.portkeeper.dev/v1alpha1", "MCPServer", key.name, m.uid, block))
  }

  /** The write creates an absent Deployment, or replaces one that m controls and that is not being deleted, keeping
      its status and all it does not manage; either way m controls the result, and it runs what m wants. */
  ghost predicate OwnedWrite(key: Key, m: Server, before: Option<Deployment>, after: Option<Deployment>) {
    && after.Some? && OwnedBy(key, m, after.value.meta) && Runs(key.name, m.spec, after.value.spec)
    && match before
       case None =>
         KeepsTheRest(DeploymentSpec(None, None, map[], [], ""), after.value.spec)
         && after.value.status == DeploymentStatus(0, 0, 0, 0, 0, [])
       case Some(d) =>
         && OwnedBy(key, m, d.meta) && KeepsTheRest(d.spec, after.value.spec) && after.value.status == d.status
         && after.value.generation == d.generation + (if after.value.spec != d.spec then 1 else 0)
         && after.value.meta.uid == d.meta.uid && after.value.meta.rest == d.meta.rest
  }

  ghost predicate OwnedServiceWrite(key: Key, m: Server, before: Option<Service>, after: Option<Service>) {
    && after.Some? && OwnedBy(key, m, after.value.meta) && Routes(key.name, m.spec, after.value.spec)
    && match before
       case None => after.value.spec.rest == "" == after.value.spec.ports[0].rest
       case Some(v) =>
         && OwnedBy(key, m, v.meta)
         && after.value.spec.rest == v.spec.rest
         && after.value.spec.ports[0].rest == (if v.spec.ports != [] then v.spec.ports[0].rest else "")
         && after.value.meta.uid == v.meta.uid && after.value.meta.rest == v.meta.rest
  }

  /** The reference that a pass sets is its own, and so is what it found to be its own. */
  lemma {:induction false} RefIsOwn(key: Key, m: Server)
    ensures forall meta: Meta :: meta.controller == Some(ControllerRef(key, m)) && !meta.deleting ==> OwnedBy(key, m, meta)
    ensures forall meta: Meta :: Controlled(key, m, meta) && !meta.deleting ==> OwnedBy(key, m, meta)
  {
    forall meta: Meta | Controlled(key, m, meta) && !meta.deleting ensures OwnedBy(key, m, meta) {
      var owner := meta.controller.value;
      assert owner == OwnerRef(API_VERSION, "MCPServer", key.name, m.uid, owner.blockOwnerDeletion);
    }
  }

  lemma {:induction false} PutDeploymentOwned(run: seq<State>, acts: seq<Action>, n: nat, p: Proc)
    requires IsRun(run, acts) && n < |run| && p.WriteDeployment? && Knows(run, n, p)
    ensures var s, t := run[n].store, PutDeploymentStep(run[n].store, p).0;
      && t == s.(deployments := t.deployments, next := t.next)
      && (forall key :: key != p.key ==> Lookup(t.deployments, key) == Lookup(s.deployments, key))
      && (t == s || OwnedWrite(p.key, p.m, Lookup(s.deployments, p.key), Lookup(t.deployments, p.key)))
  {
    hide Desired, Runs, KeepsTheRest, IsRun;
    var s, read := run[n].store, p.readDeployment;
    DesiredIsProjection(p.key.name, p.m.spec, if read.Some? then read.value.spec else NO_SPEC);
    RefIsOwn(p.key, p.m);
    if read.Some? && p.key in s.deployments && s.deployments[p.key].meta.version == read.value.meta.version {
      ReadIsHeld(run, acts, n, p.key, read.value);
    }
  }

  lemma {:induction false} PutServiceOwned(run: seq<State>, acts: seq<Action>, n: nat, p: Proc)
    requires IsRun(run, acts) && n < |run| && p.WriteService? && Knows(run, n, p)
    ensures var s, t := run[n].store, PutServiceStep(run[n].store, p).0;
      && t == s.(services := t.services, next := t.next)
      && (forall key :: key != ServiceKey(p.key) ==> Lookup(t.services, key) == Lookup(s.services, key))
      && (t == s || OwnedServiceWrite(p.key, p.m, Lookup(s.services, ServiceKey(p.key)), Lookup(t.services, ServiceKey(p.key))))
  {
    hide DesiredService, Routes, IsRun, PutService;
    var s, read, at := run[n].store, p.readService, ServiceKey(p.key);
    if PutService(s, p.key, p.m, read).Some? { PutServiceEffect(s, p.key, p.m, read); }
    DesiredServiceIsProjection(p.key.name, p.m.spec, if read.Some? then read.value.spec else ServiceSpec(map[], [], ""));
    RefIsOwn(p.key, p.m);
    if read.Some? && at in s.services && s.services[at].meta.version == read.value.meta.version {
      ReadServiceIsHeld(run, acts, n, at, read.value);
    }
  }

  // ---------- a pass learns only what is so ----------

  lemma {:induction false} PutDeploymentKnows(run: seq<State>, acts: seq<Action>, n: nat, p: Proc)
    requires IsRun(run, acts) && n < |run| && p.WriteDeployment? && Knows(run, n, p)
    ensures Knows(run, n, PutDeploymentStep(run[n].store, p).1)
  {
    var put := PutDeployment(run[n].store, p.key, p.m, p.readDeployment);
    if put.Some? && !Changes(p) {
      var d, held := p.readDeployment.value, run[n].store.deployments;
      DesiredIsProjection(p.key.name, p.m.spec, d.spec);
      if p.key in held && held[p.key].meta.version == d.meta.version {
        ReadIsHeld(run, acts, n, p.key, d);
      }
      RefIsOwn(p.key, p.m);
      assert Serves(p.key, p.m, d);
      assert Basis(run, n, p.key, p.m, put.value.1);
    }
  }

  lemma {:induction false} PutServiceKnows(run: seq<State>, acts: seq<Action>, n: nat, p: Proc)
    requires IsRun(run, acts) && n < |run| && p.WriteService? && Knows(run, n, p)
    ensures Knows(run, n, PutServiceStep(run[n].store, p).1)
  {
    var put := PutService(run[n].store, p.key, p.m, p.readService);
    if put.Some? && Readiness(p.dep, p.changed).status == IsTrue {
      ReadyIffRolledOut(p.dep, p.changed);
      assert Basis(run, n, p.key, p.m, p.dep);
      assert RolloutSeen(run, n, p.key, p.m);
    }
  }

  lemma {:induction false} SendKnows(run: seq<State>, acts: seq<Action>, n: nat, p: Proc, a: PassAction)
    requires IsRun(run, acts) && n < |run| && Knows(run, n, p)
    ensures var q := SendStep(run[n].store, run[n].clock, p, a).1; q.Some? ==> Knows(run, n, q.value)
  {
    if p.WriteDeployment? { PutDeploymentKnows(run, acts, n, p); }
    if p.WriteService? { PutServiceKnows(run, acts, n, p); }
  }

  lemma {:induction false} PassesKnow(run: seq<State>, acts: seq<Action>, n: nat, pid: nat)
    requires IsRun(run, acts) && n < |run| && pid in run[n].procs
    ensures Knows(run, n, run[n].procs[pid])
    decreases n
  {
    if n > 0 {
      var k := n - 1;
      assert Stepped(run, acts, k);
      if pid in run[k].procs {
        PassesKnow(run, acts, k, pid);
      }
      PassStepKnows(run, acts, k, pid);
      KnowsStays(run, k, n, run[n].procs[pid]);
    }
  }

  lemma {:induction false} PassStepKnows(run: seq<State>, acts: seq<Action>, k: nat, pid: nat)
    requires IsRun(run, acts) && k < |acts| && Stepped(run, acts, k)
    requires pid in run[k].procs ==> Knows(run, k, run[k].procs[pid])
    ensures pid in run[k + 1].procs ==> Knows(run, k, run[k + 1].procs[pid])
  {
    var a := acts[k];
    if a.Pass? && a.pid == pid {
      var c := a.pass;
      if c.StartPass? {
        if c.age <= k && c.key in run[c.age].store.servers { BeginKnows(run, k, c.age, c.key); }
      } else if pid in run[k].procs {
        FetchKnows(run, k, run[k].procs[pid], c);
        SendKnows(run, acts, k, run[k].procs[pid], c);
      }
    }
  }

  /** Over every run, with stale reads, lost answers and other actors between a read and its write: a step of a
      pass leaves each Deployment and each Service alone, or it is an owned write for an MCPServer that was seen. */
  lemma {:induction false} OwnershipSafety(run: seq<State>, acts: seq<Action>, k: nat, key: Key)
    requires IsRun(run, acts) && k < |acts| && acts[k].Pass?
    ensures var before, after := Lookup(run[k].store.deployments, key), Lookup(run[k + 1].store.deployments, key);
      after == before || exists m :: SeenServer(run, k, key, m) && OwnedWrite(key, m, before, after)
    ensures var before, after := Lookup(run[k].store.services, key), Lookup(run[k + 1].store.services, key);
      after == before || exists owner, m ::
        key == ServiceKey(owner) && SeenServer(run, k, owner, m) && OwnedServiceWrite(owner, m, before, after)
  {
    var pid, c := acts[k].pid, acts[k].pass;
    assert Stepped(run, acts, k);
    if pid in run[k].procs && !c.StartPass? {
      var p := run[k].procs[pid];
      PassesKnow(run, acts, k, pid);
      if p.WriteDeployment? { PutDeploymentOwned(run, acts, k, p); }
      if p.WriteService? { PutServiceOwned(run, acts, k, p); }
      SendWrites(run[k].store, run[k].clock, p, c);
    }
  }

  lemma {:induction false} SendWrites(s: Store, clock: real, p: Proc, a: PassAction)
    ensures var t := SendStep(s, clock, p, a).0;
      || (t.deployments == s.deployments && t.services == s.services)
      || (p.WriteDeployment? && t == PutDeploymentStep(s, p).0)
      || (p.WriteService? && t == PutServiceStep(s, p).0)
  {
  }

  // ---------- readiness ----------

  /** The stored status speaks of no later generation, and Ready only if the rollout has been seen. */
  ghost predicate Honest(run: seq<State>, n: nat, key: Key, m: Server)
    requires n < |run|
  {
    && m.status.observedGeneration <= m.generation
    && (m.IsReady() ==> RolloutSeen(run, n, key, m))
  }

  /** Editing a spec takes readiness away, and nothing else a user does gives it. */
  lemma {:induction false} UserStepHonest(run: seq<State>, n: nat, a: UserAction, key: Key)
    requires n < |run|
    requires key in run[n].store.servers ==> Honest(run, n, key, run[n].store.servers[key])
    requires key in UserStep(run[n].store, a).servers
    ensures Honest(run, n, key, UserStep(run[n].store, a).servers[key])
  {
    if key in run[n].store.servers {
      var m, m' := run[n].store.servers[key], UserStep(run[n].store, a).servers[key];
      if m'.IsReady() {
        assert m.IsReady() && m'.uid == m.uid && m'.spec == m.spec;
        SameServerRollout(run, n, key, m, m');
      }
    }
  }

  lemma {:induction false} SameServerRollout(run: seq<State>, n: nat, key: Key, m: Server, m': Server)
    requires n < |run| && RolloutSeen(run, n, key, m) && m'.uid == m.uid && m'.spec == m.spec
    ensures RolloutSeen(run, n, key, m')
  {
    var d :| SeenDeployment(run, n, key, d) && Serves(key, m, d) && RolledOut(d);
    assert Serves(key, m', d);
  }

  /** A status patch goes through only onto the version the pass has read. */
  lemma {:induction false} PutStatusHonest(run: seq<State>, acts: seq<Action>, n: nat, p: Proc, key: Key)
    requires IsRun(run, acts) && n < |run| && p.WriteStatus? && Knows(run, n, p)
    requires key in run[n].store.servers && Honest(run, n, key, run[n].store.servers[key])
    ensures var t := PutStatusStep(run[n].store, p, run[n].clock);
      key in t.servers && Honest(run, n, key, t.servers[key])
  {
    var s, t := run[n].store, PutStatusStep(run[n].store, p, run[n].clock);
    if key == p.key && t.servers[key] != s.servers[key] {
      ReadServerIsHeld(run, acts, n, key, p.m);
      var m := t.servers[key];
      assert m == p.m.(status := NextStatus(p.m, p.outcome, run[n].clock), version := s.next);
      SetConditionFrame(p.m.status.conditions,
        Condition(READY, p.outcome.status, p.m.generation, p.outcome.reason, p.outcome.message, run[n].clock), run[n].clock);
      if m.IsReady() {
        SameServerRollout(run, n, key, p.m, m);
      }
    }
  }

  lemma {:induction false} StepHonest(run: seq<State>, acts: seq<Action>, k: nat, key: Key)
    requires IsRun(run, acts) && k < |acts|
    requires key in run[k].store.servers ==> Honest(run, k, key, run[k].store.servers[key])
    requires key in run[k + 1].store.servers
    ensures Honest(run, k, key, run[k + 1].store.servers[key])
  {
    assert Stepped(run, acts, k);
    match acts[k]
    case Tick(_) =>
    case Gate(_) =>
    case User(u) => UserStepHonest(run, k, u, key);
    case Pass(pid, c) =>
      if pid in run[k].procs && !c.StartPass? {
        var p := run[k].procs[pid];
        PassesKnow(run, acts, k, pid);
        SendLeavesServers(run[k].store, run[k].clock, p, c);
        if p.WriteStatus? && key in run[k].store.servers { PutStatusHonest(run, acts, k, p, key); }
      }
  }

  lemma {:induction false} SendLeavesServers(s: Store, clock: real, p: Proc, a: PassAction)
    ensures var t := SendStep(s, clock, p, a).0;
      t.servers == s.servers || (p.WriteStatus? && t == PutStatusStep(s, p, clock) && t.servers.Keys == s.servers.Keys)
  {
    if p.WriteDeployment? { PutDeploymentKeepsServers(s, p); }
  }

  /** Ready never lies about a generation: whenever a stored MCPServer is ready, its own Deployment has, at some
      instant, run the image and port of the current generation, with that observed by the Deployment controller
      and every desired replica updated, ready and available. */
  lemma {:induction false} ReadyNeverLies(run: seq<State>, acts: seq<Action>, n: nat, key: Key)
    requires IsRun(run, acts) && n < |run| && key in run[n].store.servers
    ensures Honest(run, n, key, run[n].store.servers[key])
    decreases n
  {
    if n > 0 {
      if key in run[n - 1].store.servers { ReadyNeverLies(run, acts, n - 1, key); }
      StepHonest(run, acts, n - 1, key);
      SeenStays(run, n - 1, n, key, run[n].store.servers[key]);
    }
  }
}

/** Reconcile of internal/controller/mcpserver_controller.go, cut at its API calls, over a store of
    versioned objects. The same steps make up one undisturbed pass (here) and any interleaving (Cluster). */
module Controller {

  import opened Api
  import opened Text
  import opened Workload

  /** next numbers the objects' UIDs and versions: every write uses a new one. */
  datatype Store = Store(
    servers: map<Key, Server>, deployments: map<Key, Deployment>, services: map<Key, Service>, next: nat)

  // ---------- status ----------

  /** meta.SetStatusCondition: update the first condition of that type, or append one; the transition time
      moves only when the status does. */
  function SetCondition(conditions: seq<Condition>, c: Condition, now: real): seq<Condition> {
    if conditions == [] then [c.(transition := now)]
    else if conditions[0].kind == c.kind then
      [c.(transition := if conditions[0].status == c.status then conditions[0].transition else now)] + conditions[1..]
    else [conditions[0]] + SetCondition(conditions[1..], c, now)
  }

  function Others(conditions: seq<Condition>, kind: string): seq<Condition> {
    if conditions == [] then []
    else if conditions[0].kind == kind then conditions[1..]
    else [conditions[0]] + Others(conditions[1..], kind)
  }

  function NextStatus(m: Server, o: Outcome, now: real): ServerStatus {
    ServerStatus(o.phase, m.generation,
      SetCondition(m.status.conditions, Condition(READY, o.status, m.generation, o.reason, o.message, now), now))
  }

  /** All conditions but the one set stay as they are and where they are; that one reads back as it was set,
      and its transition time is the old one exactly if its status is the old one (or the clock stands still). */
  lemma {:induction false} SetConditionFrame(conditions: seq<Condition>, c: Condition, now: real)
    ensures Others(SetCondition(conditions, c, now), c.kind) == Others(conditions, c.kind)
    ensures var before, after := FindCondition(conditions, c.kind), FindCondition(SetCondition(conditions, c, now), c.kind);
      && after.Some? && after.value == c.(transition := after.value.transition)
      && (before.None? ==> after.value.transition == now)
      && (before.Some? ==> after.value.transition == if before.value.status == c.status then before.value.transition else now)
  {
    if conditions != [] && conditions[0].kind != c.kind {
      SetConditionFrame(conditions[1..], c, now);
      var tail := SetCondition(conditions[1..], c, now);
      assert SetCondition(conditions, c, now)[1..] == tail;
    }
  }

  lemma {:induction false} SetConditionIdempotent(conditions: seq<Condition>, c: Condition, now: real, later: real)
    ensures SetCondition(SetCondition(conditions, c, now), c.(transition := later), later) == SetCondition(conditions, c, now)
  {
    if conditions != [] && conditions[0].kind != c.kind {
      SetConditionIdempotent(conditions[1..], c, now, later);
      assert SetCondition(conditions, c, now)[1..] == SetCondition(conditions[1..], c, now);
    }
  }

  // ---------- API calls ----------

  const NO_SPEC := DeploymentSpec(None, None, map[], [], "")
  const NO_STATUS := DeploymentStatus(0, 0, 0, 0, 0, [])

  /** The Create or Update that CreateOrUpdate ends with, given what it read; None when the API server refuses
      because the object exists, is gone, or has another version. An unchanged object is not sent. */
  function PutDeployment(s: Store, key: Key, m: Server, read: Option<Deployment>): Option<(Store, Deployment)> {
    var controller := Some(ControllerRef(key, m));
    if read.None? then
      if key in s.deployments then None
      else
        var d := Deployment(Meta(s.next, s.next, false, controller, ""), 1, Desired(key.name, m.spec, NO_SPEC), NO_STATUS);
        Some((s.(deployments := s.deployments[key := d], next := s.next + 1), d))
    else
      var sent := read.value.(spec := Desired(key.name, m.spec, read.value.spec), meta := read.value.meta.(controller := controller));
      if sent == read.value then Some((s, sent))
      else if key !in s.deployments || s.deployments[key].meta.version != sent.meta.version then None
      else
        var held := s.deployments[key];
        var d := Deployment(sent.meta.(version := s.next), held.generation + (if sent.spec != held.spec then 1 else 0), sent.spec, held.status);
        Some((s.(deployments := s.deployments[key := d], next := s.next + 1), d))
  }

  function PutService(s: Store, key: Key, m: Server, read: Option<Service>): Option<Store> {
    var at, controller := ServiceKey(key), Some(ControllerRef(key, m));
    if read.None? then
      if at in s.services then None
      else
        var v := Service(Meta(s.next, s.next, false, controller, ""), DesiredService(key.name, m.spec, ServiceSpec(map[], [], "")));
        Some(s.(services := s.services[at := v], next := s.next + 1))
    else
      var sent := read.value.(spec := DesiredService(key.name, m.spec, read.value.spec), meta := read.value.meta.(controller := controller));
      if sent == read.value then Some(s)
      else if at !in s.services || s.services[at].meta.version != sent.meta.version then None
      else Some(s.(services := s.services[at := sent.(meta := sent.meta.(version := s.next))], next := s.next + 1))
  }

  /** What a put leaves in the place of the Service. */
  lemma {:induction false} PutServiceEffect(s: Store, key: Key, m: Server, read: Option<Service>)
    requires PutService(s, key, m, read).Some?
    ensures var t, at := PutService(s, key, m, read).value, ServiceKey(key);
      t == s ||
        (&& at in t.services && t == s.(services := s.services[at := t.services[at]], next := s.next + 1)
         && var v := t.services[at];
            && v.meta.controller == Some(ControllerRef(key, m))
            && match read
               case None => at !in s.services && !v.meta.deleting
                 && v.spec == DesiredService(key.name, m.spec, ServiceSpec(map[], [], ""))
               case Some(was) =>
                 && at in s.services && s.services[at].meta.version == was.meta.version
                 && v.spec == DesiredService(key.name, m.spec, was.spec)
                 && (v.meta.uid, v.meta.rest, v.meta.deleting) == (was.meta.uid, was.meta.rest, was.meta.deleting))
  {
    hide DesiredService;
  }

  /** The status patch under an optimistic lock on the version that was read; an unchanged status is not sent. */
  function PutStatus(s: Store, key: Key, m: Server, o: Outcome, now: real): Option<Store> {
    var status := NextStatus(m, o, now);
    if status == m.status then Some(s)
    else if key !in s.servers || s.servers[key].version != m.version then None
    else Some(s.(servers := s.servers[key := s.servers[key].(status := status, version := s.next)], next := s.next + 1))
  }

  // ---------- Reconcile as steps ----------

  datatype Proc =
    | ReadDeployment(key: Key, m: Server)
    | WriteDeployment(key: Key, m: Server, readDeployment: Option<Deployment>)
    | ReadService(key: Key, m: Server, dep: Deployment, changed: bool)
    | WriteService(key: Key, m: Server, dep: Deployment, changed: bool, readService: Option<Service>)
    | WriteStatus(key: Key, m: Server, outcome: Outcome)

  function Failure(p: Proc, message: string): Proc {
    WriteStatus(p.key, p.m, Outcome("Failed", IsFalse, "ReconcileError", message))
  }

  const CONFLICT := "the object has been modified"

  function Begin(key: Key, m: Server): Proc {
    if m.deleting then WriteStatus(key, m, Outcome("Pending", IsFalse, "Deleting", "MCPServer is being deleted"))
    else ReadDeployment(key, m)
  }

  /** Get of the Deployment, and the mutation's ownership check. */
  function GotDeployment(p: Proc, read: Option<Deployment>): Proc
    requires p.ReadDeployment?
  {
    var error := if read.None? then None else OwnershipError(p.key, p.m, p.key, read.value.meta);
    if error.Some? then Failure(p, error.value) else WriteDeployment(p.key, p.m, read)
  }

  /** Whether the mutation changes the spec that was read. */
  function Changes(p: Proc): bool
    requires p.WriteDeployment?
  {
    p.readDeployment.None? || !Runs(p.key.name, p.m.spec, p.readDeployment.value.spec)
  }

  function PutDeploymentStep(s: Store, p: Proc): (Store, Proc)
    requires p.WriteDeployment?
  {
    match PutDeployment(s, p.key, p.m, p.readDeployment)
    case None => (s, Failure(p, CONFLICT))
    case Some((s', dep)) => (s', ReadService(p.key, p.m, dep, Changes(p)))
  }

  function GotService(p: Proc, read: Option<Service>): Proc
    requires p.ReadService?
  {
    var error := if read.None? then None else OwnershipError(p.key, p.m, ServiceKey(p.key), read.value.meta);
    if error.Some? then Failure(p, error.value) else WriteService(p.key, p.m, p.dep, p.changed, read)
  }

  function PutServiceStep(s: Store, p: Proc): (Store, Proc)
    requires p.WriteService?
  {
    match PutService(s, p.key, p.m, p.readService)
    case None => (s, Failure(p, CONFLICT))
    case Some(s') => (s', WriteStatus(p.key, p.m, Readiness(p.dep, p.changed)))
  }

  /** deploymentReadiness on a Deployment that the mutation has given a replica count. */
  function Readiness(dep: Deployment, changed: bool): Outcome {
    if dep.spec.replicas.None? then Outcome("Failed", IsFalse, "ReconcileError", "no replica count")
    else DeploymentReadiness(dep, changed)
  }

  function PutStatusStep(s: Store, p: Proc, now: real): Store
    requires p.WriteStatus?
  {
    PutStatus(s, p.key, p.m, p.outcome, now).GetOr(s)
  }

  function Lookup<V>(m: map<Key, V>, key: Key): Option<V> {
    if key in m then Some(m[key]) else None
  }

  // ---------- one pass with no other actor ----------

  /** The Deployment part of a pass: the store afterwards and where the pass goes on. */
  function DeploymentPhase(s: Store, p: Proc): (Store, Proc)
    requires p.ReadDeployment?
  {
    var q := GotDeployment(p, Lookup(s.deployments, p.key));
    if q.WriteDeployment? then PutDeploymentStep(s, q) else (s, q)
  }

  function ServicePhase(s: Store, p: Proc): (Store, Proc)
    requires p.ReadService?
  {
    var q := GotService(p, Lookup(s.services, ServiceKey(p.key)));
    if q.WriteService? then PutServiceStep(s, q) else (s, q)
  }

  /** Both children reconciled; the pass is left with its outcome to report. */
  function Children(s: Store, key: Key, m: Server): (r: (Store, Proc))
    ensures r.1.WriteStatus? && r.1.key == key && r.1.m == m
  {
    var p := Begin(key, m);
    if p.WriteStatus? then (s, p)
    else
      var (s1, p1) := DeploymentPhase(s, p);
      if p1.WriteStatus? then (s1, p1) else ServicePhase(s1, p1)
  }

  function Reconcile(s: Store, key: Key, now: real): Store {
    if key !in s.servers then s
    else
      var (s1, p) := Children(s, key, s.servers[key]);
      PutStatusStep(s1, p, now)
  }

  /** n passes, at the given times. */
  function Passes(s: Store, key: Key, times: seq<real>): Store {
    if times == [] then s else Reconcile(Passes(s, key, times[..|times| - 1]), key, times[|times| - 1])
  }

  // ---------- convergence ----------

  ghost predicate DeploymentDone(key: Key, m: Server, d: Deployment) {
    Runs(key.name, m.spec, d.spec) && d.meta.controller == Some(ControllerRef(key, m)) && !d.meta.deleting
  }

  ghost predicate ServiceDone(key: Key, m: Server, v: Service) {
    Routes(key.name, m.spec, v.spec) && v.meta.controller == Some(ControllerRef(key, m)) && !v.meta.deleting
  }

  lemma {:induction false} FreshPutDeployment(s: Store, key: Key, m: Server)
    requires key in s.deployments ==> OwnershipError(key, m, key, s.deployments[key].meta).None?
    ensures var put := PutDeployment(s, key, m, Lookup(s.deployments, key));
      put.Some? && var (s', d) := put.value;
        DeploymentDone(key, m, d) && s' == s.(deployments := s.deployments[key := d], next := s'.next)
  {
    var spec := if key in s.deployments then s.deployments[key].spec else NO_SPEC;
    DesiredIsProjection(key.name, m.spec, spec);
    if key in s.deployments {
      assert s.deployments[key := s.deployments[key]] == s.deployments;
    }
  }

  lemma {:induction false} DoneDeploymentKept(s: Store, key: Key, m: Server, d: Deployment)
    requires DeploymentDone(key, m, d)
    ensures PutDeployment(s, key, m, Some(d)) == Some((s, d)) && OwnershipError(key, m, key, d.meta).None?
  {
    DesiredIsProjection(key.name, m.spec, d.spec);
    var meta := d.meta;
    assert meta.(controller := Some(ControllerRef(key, m))) == meta;
    assert d.(spec := d.spec, meta := meta) == d;
  }

  lemma {:induction false} FreshPutService(s: Store, key: Key, m: Server)
    requires var at := ServiceKey(key); at in s.services ==> OwnershipError(key, m, at, s.services[at].meta).None?
    ensures var at := ServiceKey(key); var put := PutService(s, key, m, Lookup(s.services, at));
      put.Some? && at in put.value.services && ServiceDone(key, m, put.value.services[at])
        && put.value == s.(services := put.value.services, next := put.value.next)
  {
    var at := ServiceKey(key);
    DesiredServiceIsProjection(key.name, m.spec, if at in s.services then s.services[at].spec else ServiceSpec(map[], [], ""));
  }

  lemma {:induction false} DoneServiceKept(s: Store, key: Key, m: Server, v: Service)
    requires ServiceDone(key, m, v)
    ensures PutService(s, key, m, Some(v)) == Some(s) && OwnershipError(key, m, ServiceKey(key), v.meta).None?
  {
    DesiredServiceIsProjection(key.name, m.spec, v.spec);
    var meta := v.meta;
    assert meta.(controller := Some(ControllerRef(key, m))) == meta;
    assert v.(spec := v.spec, meta := meta) == v;
  }

  // ---------- what a pass leaves of the children ----------

  /** A second look at the children writes nothing, and every look after that reports the same. */
  ghost predicate Settled(s: Store, key: Key, m: Server, o: Outcome) {
    Children(s, key, m) == (s, WriteStatus(key, m, o))
  }

  lemma {:induction false} ServicePhaseSettles(s: Store, p: Proc)
    requires p.ReadService?
    ensures var s1 := ServicePhase(s, p).0;
      && s1 == s.(services := s1.services, next := s1.next)
      && forall q: Proc :: q.ReadService? && q.key == p.key && q.m == p.m ==> ServicePhase(s1, q).0 == s1
  {
    var at := ServiceKey(p.key);
    if at !in s.services || OwnershipError(p.key, p.m, at, s.services[at].meta).None? {
      FreshPutService(s, p.key, p.m);
      var s1 := ServicePhase(s, p).0;
      forall q: Proc | q.ReadService? && q.key == p.key && q.m == p.m ensures ServicePhase(s1, q).0 == s1 {
        DoneServiceKept(s1, q.key, q.m, s1.services[at]);
      }
    }
  }

  lemma {:induction false} DeploymentPhaseSettles(s: Store, p: Proc)
    requires p.ReadDeployment?
    ensures var (s1, p1) := DeploymentPhase(s, p);
      && s1 == s.(deployments := s1.deployments, next := s1.next)
      && (p1.WriteStatus? ==> s1 == s && p1.key == p.key && p1.m == p.m)
      && (p1.ReadService? ==> p1.key == p.key && p1.m == p.m && p.key in s1.deployments && DeploymentDone(p.key, p.m, s1.deployments[p.key]))
      && (p1.WriteStatus? || p1.ReadService?)
  {
    if p.key !in s.deployments || OwnershipError(p.key, p.m, p.key, s.deployments[p.key].meta).None? {
      FreshPutDeployment(s, p.key, p.m);
    }
  }

  lemma {:induction false} DoneDeploymentPhase(s: Store, p: Proc)
    requires p.ReadDeployment? && p.key in s.deployments && DeploymentDone(p.key, p.m, s.deployments[p.key])
    ensures DeploymentPhase(s, p) == (s, ReadService(p.key, p.m, s.deployments[p.key], false))
  {
    DoneDeploymentKept(s, p.key, p.m, s.deployments[p.key]);
  }

  /** After one pass over the children, the next writes neither of them. */
  lemma {:induction false} ChildrenSettle(s: Store, key: Key, m: Server)
    ensures var s1 := Children(s, key, m).0;
      && s1.servers == s.servers
      && Settled(s1, key, m, Children(s1, key, m).1.outcome)
  {
    hide DeploymentPhase, ServicePhase, DeploymentDone;
    if !m.deleting {
      var p := ReadDeployment(key, m);
      DeploymentPhaseSettles(s, p);
      var (s1, p1) := DeploymentPhase(s, p);
      if p1.ReadService? {
        ServicePhaseSettles(s1, p1);
        var s2 := ServicePhase(s1, p1).0;
        DoneDeploymentPhase(s2, p);
        assert s2.deployments == s1.deployments;
      }
    }
  }

  ghost predicate SameWants(m: Server, n: Server) {
    m.uid == n.uid && m.spec == n.spec && m.deleting == n.deleting
  }

  /** The same stage of a pass over another version of the MCPServer. */
  ghost function For(p: Proc, n: Server): Proc {
    match p
    case ReadDeployment(key, _) => ReadDeployment(key, n)
    case WriteDeployment(key, _, read) => WriteDeployment(key, n, read)
    case ReadService(key, _, dep, changed) => ReadService(key, n, dep, changed)
    case WriteService(key, _, dep, changed, read) => WriteService(key, n, dep, changed, read)
    case WriteStatus(key, _, outcome) => WriteStatus(key, n, outcome)
  }

  lemma {:induction false} SettledDeploymentPhase(s: Store, t: Store, key: Key, m: Server, n: Server)
    requires s.deployments == t.deployments && SameWants(m, n)
    requires DeploymentPhase(s, ReadDeployment(key, m)).0 == s
    ensures var p := DeploymentPhase(s, ReadDeployment(key, m)).1;
      DeploymentPhase(t, ReadDeployment(key, n)) == (t, For(p, n))
  {
  }

  lemma {:induction false} SettledServicePhase(s: Store, t: Store, p: Proc, n: Server)
    requires s.services == t.services && p.ReadService? && SameWants(p.m, n)
    requires ServicePhase(s, p).0 == s
    ensures ServicePhase(t, For(p, n)) == (t, For(ServicePhase(s, p).1, n))
  {
  }

  /** Settling is about the children and the wants only, not about statuses and versions. */
  lemma {:induction false} SettledCarries(s: Store, t: Store, key: Key, m: Server, n: Server, o: Outcome)
    requires Settled(s, key, m, o) && s.deployments == t.deployments && s.services == t.services && SameWants(m, n)
    ensures Settled(t, key, n, o)
  {
    if !m.deleting {
      DeploymentPhaseSettles(s, ReadDeployment(key, m));
      var (s1, p1) := DeploymentPhase(s, ReadDeployment(key, m));
      if p1.ReadService? { ServicePhaseSettles(s1, p1); }
      assert s1.next <= Children(s, key, m).0.next by { if p1.ReadService? { NextGrows(s1, p1); } }
      assert s1.next >= s.next;
      assert s1 == s by { if s1.next == s.next { PhaseWritesNothing(s, ReadDeployment(key, m)); } }
      SettledDeploymentPhase(s, t, key, m, n);
      if p1.ReadService? { SettledServicePhase(s, t, p1, n); }
    }
  }

  lemma {:induction false} NextGrows(s: Store, p: Proc)
    requires p.ReadService?
    ensures ServicePhase(s, p).0.next >= s.next
  {
  }

  lemma {:induction false} PhaseWritesNothing(s: Store, p: Proc)
    requires p.ReadDeployment? && DeploymentPhase(s, p).0.next == s.next
    ensures DeploymentPhase(s, p).0 == s
  {
  }

  /** Reporting an outcome twice writes it once. */
  lemma {:induction false} StatusSettles(m: Server, o: Outcome, now: real, later: real)
    ensures var n := m.(status := NextStatus(m, o, now)); NextStatus(n, o, later) == n.status
  {
    SetConditionIdempotent(m.status.conditions, Condition(READY, o.status, m.generation, o.reason, o.message, now), now, later);
  }

  lemma {:induction false} ReconcileSettled(s: Store, key: Key, o: Outcome, now: real)
    requires key in s.servers && Settled(s, key, s.servers[key], o)
    ensures var m, t := s.servers[key], Reconcile(s, key, now);
      && t == s.(servers := t.servers, next := t.next)
      && key in t.servers && SameWants(m, t.servers[key])
      && Settled(t, key, t.servers[key], o)
      && (NextStatus(m, o, now) == m.status ==> t == s)
      && (forall later :: NextStatus(t.servers[key], o, later) == t.servers[key].status)
  {
    var m, t := s.servers[key], Reconcile(s, key, now);
    forall later ensures NextStatus(t.servers[key], o, later) == t.servers[key].status {
      StatusSettles(m, o, now, later);
    }
    SettledCarries(s, t, key, m, t.servers[key], o);
  }

  /** The third pass writes nothing, and neither does any later one: from every store, whoever owns the
      children, whether or not they or the MCPServer are being deleted. (Every write would raise next.) */
  lemma {:induction false} ThirdPassWritesNothing(s: Store, key: Key, t1: real, t2: real, t3: real)
    ensures var s2 := Reconcile(Reconcile(s, key, t1), key, t2);
      Reconcile(s2, key, t3) == s2
  {
    hide DeploymentPhase, ServicePhase, NextStatus, Settled;
    if key in s.servers {
      var m := s.servers[key];
      ChildrenSettle(s, key, m);
      var (c, p) := Children(s, key, m);
      var s1 := PutStatusStep(c, p, t1);
      var o := Children(c, key, m).1.outcome;
      SettledCarries(c, s1, key, m, s1.servers[key], o);
      ReconcileSettled(s1, key, o, t2);
      var s2 := Reconcile(s1, key, t2);
      ReconcileSettled(s2, key, o, t3);
    }
  }

  lemma {:induction false} PassesConverge(s: Store, key: Key, times: seq<real>)
    requires |times| >= 2
    ensures Passes(s, key, times) == Passes(s, key, times[..2])
  {
    if |times| == 2 {
      assert times[..2] == times;
    } else {
      var most := times[..|times| - 1];
      PassesConverge(s, key, most);
      assert most[..2] == times[..2];
      assert times[..2][..1] == times[..1] && times[..1][..0] == [];
      assert Passes(s, key, times[..1]) == Reconcile(s, key, times[0]);
      ThirdPassWritesNothing(s, key, times[0], times[1], times[|times| - 1]);
    }
  }

  // ---------- what a pass reports ----------

  /** A status that goes through makes the MCPServer ready exactly if the outcome says so and it is not being
      deleted: every failure takes readiness away. Other conditions stay. */
  lemma {:induction false} StatusReportsOutcome(m: Server, o: Outcome, now: real)
    ensures var n := m.(status := NextStatus(m, o, now));
      && (n.IsReady() <==> !m.deleting && o.status == IsTrue)
      && n.status.phase == o.phase && n.status.observedGeneration == m.generation
      && Others(n.status.conditions, READY) == Others(m.status.conditions, READY)
    ensures var c := FindCondition(NextStatus(m, o, now).conditions, "Ready");
      c.Some? && (c.value.status, c.value.reason, c.value.message, c.value.observedGeneration)
              == (o.status, o.reason, o.message, m.generation)
  {
    SetConditionFrame(m.status.conditions, Condition(READY, o.status, m.generation, o.reason, o.message, now), now);
  }

  /** The Deployment already is m's, runs what m wants, and has rolled out; and nobody else holds the Service. */
  ghost predicate ReadyToServe(s: Store, key: Key, m: Server) {
    var at := ServiceKey(key);
    && !m.deleting && key in s.deployments
    && Controlled(key, m, s.deployments[key].meta) && !s.deployments[key].meta.deleting
    && Runs(key.name, m.spec, s.deployments[key].spec) && RolledOut(s.deployments[key])
    && (at in s.services ==> Controlled(key, m, s.services[at].meta) && !s.services[at].meta.deleting)
  }

  lemma {:induction false} ServicePhaseReports(s: Store, p: Proc)
    requires p.ReadService? && p.dep.spec.replicas.Some?
    ensures var at := ServiceKey(p.key);
      ServicePhase(s, p).1.outcome.status == IsTrue <==>
        !p.changed && RolledOut(p.dep)
        && (at in s.services ==> Controlled(p.key, p.m, s.services[at].meta) && !s.services[at].meta.deleting)
  {
    var at := ServiceKey(p.key);
    if at !in s.services || OwnershipError(p.key, p.m, at, s.services[at].meta).None? { FreshPutService(s, p.key, p.m); }
    ReadyIffRolledOut(p.dep, p.changed);
  }

  lemma {:induction false} DeploymentPhaseReports(s: Store, key: Key, m: Server)
    ensures var p := DeploymentPhase(s, ReadDeployment(key, m)).1;
      && (p.WriteStatus? ==> p.outcome.status == IsFalse)
      && (p.ReadService? ==> p.dep.spec.replicas.Some?)
      && (p.ReadService? && !p.changed && RolledOut(p.dep) <==>
            key in s.deployments && Controlled(key, m, s.deployments[key].meta) && !s.deployments[key].meta.deleting
            && Runs(key.name, m.spec, s.deployments[key].spec) && RolledOut(s.deployments[key]))
  {
    if key !in s.deployments || OwnershipError(key, m, key, s.deployments[key].meta).None? {
      FreshPutDeployment(s, key, m);
      if key in s.deployments { DesiredIsProjection(key.name, m.spec, s.deployments[key].spec); }
    }
  }

  /** An undisturbed pass leaves the MCPServer ready exactly if it was ready to serve. */
  lemma {:induction false} PassReportsTruth(s: Store, key: Key, now: real)
    requires key in s.servers
    ensures var t := Reconcile(s, key, now);
      key in t.servers && (t.servers[key].IsReady() <==> ReadyToServe(s, key, s.servers[key]))
  {
    var m := s.servers[key];
    var (c, p) := Children(s, key, m);
    ChildrenSettle(s, key, m);
    StatusReportsOutcome(m, p.outcome, now);
    if !m.deleting {
      DeploymentPhaseReports(s, key, m);
      DeploymentPhaseSettles(s, ReadDeployment(key, m));
      var (s1, p1) := DeploymentPhase(s, ReadDeployment(key, m));
      if p1.ReadService? { ServicePhaseReports(s1, p1); }
    }
    StatusWritten(c, key, m, p.outcome, now);
  }

  lemma {:induction false} StatusWritten(s: Store, key: Key, m: Server, o: Outcome, now: real)
    requires key in s.servers && s.servers[key] == m
    ensures var t := PutStatusStep(s, WriteStatus(key, m, o), now);
      && key in t.servers
      && t.servers[key] == m.(status := NextStatus(m, o, now), version := t.servers[key].version)
  {
  }

  // ---------- what a pass builds ----------

  /** Each child is absent, or m's own and not being deleted. */
  ghost predicate Claimable(s: Store, key: Key, m: Server) {
    var at := ServiceKey(key);
    && (key in s.deployments ==> OwnershipError(key, m, key, s.deployments[key].meta).None?)
    && (at in s.services ==> OwnershipError(key, m, at, s.services[at].meta).None?)
  }

  /** Both children exist, are m's own, and are what m wants. */
  ghost predicate Built(s: Store, key: Key, m: Server) {
    var at := ServiceKey(key);
    key in s.deployments && DeploymentDone(key, m, s.deployments[key]) && at in s.services && ServiceDone(key, m, s.services[at])
  }

  lemma {:induction false} DeploymentPhaseBuilds(s: Store, key: Key, m: Server)
    ensures var (t, p) := DeploymentPhase(s, ReadDeployment(key, m));
      var free := key in s.deployments ==> OwnershipError(key, m, key, s.deployments[key].meta).None?;
      && t.services == s.services
      && (if free then p.ReadService? && key in t.deployments && DeploymentDone(key, m, t.deployments[key])
          else p.WriteStatus? && t == s && !DeploymentDone(key, m, s.deployments[key]))
  {
    if key in s.deployments ==> OwnershipError(key, m, key, s.deployments[key].meta).None? { FreshPutDeployment(s, key, m); }
  }

  lemma {:induction false} ServicePhaseBuilds(s: Store, p: Proc)
    requires p.ReadService?
    ensures var t, at := ServicePhase(s, p).0, ServiceKey(p.key);
      && t.deployments == s.deployments
      && if at in s.services ==> OwnershipError(p.key, p.m, at, s.services[at].meta).None?
         then at in t.services && ServiceDone(p.key, p.m, t.services[at])
         else t == s && !ServiceDone(p.key, p.m, s.services[at])
  {
    var at := ServiceKey(p.key);
    if at in s.services ==> OwnershipError(p.key, p.m, at, s.services[at].meta).None? { FreshPutService(s, p.key, p.m); }
  }

  /** Children that are as wanted carry traffic: the Service reaches the container of the wanted image, at the wanted port. */
  lemma {:induction false} BuiltConnects(s: Store, key: Key, m: Server)
    requires Built(s, key, m)
    ensures Connects(s.deployments[key].spec, s.services[Key(key.namespace, key.name + "-svc")].spec, m.spec.image, m.spec.port)
  {
    WantedConnects(key.name, m.spec, s.deployments[key].spec, s.services[ServiceKey(key)].spec);
  }

  /** One pass for an MCPServer that is not being deleted creates or repairs both children, exactly if no one else
      holds them: afterwards each is its own and as it wants it. */
  lemma {:induction false} PassBuildsChildren(s: Store, key: Key, now: real)
    requires key in s.servers && !s.servers[key].deleting
    ensures var t := Reconcile(s, key, now);
      key in t.servers && SameWants(s.servers[key], t.servers[key])
      && (Built(t, key, t.servers[key]) <==> Claimable(s, key, s.servers[key]))
      && (Built(t, key, t.servers[key]) ==>
            Connects(t.deployments[key].spec, t.services[ServiceKey(key)].spec, t.servers[key].spec.image, t.servers[key].spec.port))
  {
    hide DeploymentPhase, ServicePhase, DeploymentDone, ServiceDone, OwnershipError, Connects;
    var m := s.servers[key];
    DeploymentPhaseBuilds(s, key, m);
    DeploymentPhaseSettles(s, ReadDeployment(key, m));
    var (s1, p1) := DeploymentPhase(s, ReadDeployment(key, m));
    if p1.ReadService? { ServicePhaseBuilds(s1, p1); }
    ChildrenSettle(s, key, m);
    var (c, p) := Children(s, key, m);
    StatusWritten(c, key, m, p.outcome, now);
    var t := Reconcile(s, key, now);
    BuiltForSame(c, key, m, t.servers[key]);
    if Built(t, key, t.servers[key]) { BuiltConnects(t, key, t.servers[key]); }
  }

  lemma {:induction false} BuiltForSame(s: Store, key: Key, m: Server, n: Server)
    requires SameWants(m, n)
    ensures Built(s, key, m) == Built(s, key, n)
  {
  }

  /** A pass over children that are as wanted leaves them, and reports exactly whether the Deployment has rolled out. */
  lemma {:induction false} BuiltIsKept(s: Store, key: Key, now: real)
    requires key in s.servers && !s.servers[key].deleting && Built(s, key, s.servers[key])
    ensures var t := Reconcile(s, key, now);
      && key in t.servers && SameWants(s.servers[key], t.servers[key])
      && t.deployments == s.deployments && t.services == s.services && Built(t, key, t.servers[key])
      && (t.servers[key].IsReady() <==> RolledOut(t.deployments[key]))
  {
    hide DeploymentPhase, ServicePhase, DesiredService, Server.IsReady, RolledOut, NextStatus;
    var m, at := s.servers[key], ServiceKey(key);
    DoneDeploymentPhase(s, ReadDeployment(key, m));
    DoneDeploymentKept(s, key, m, s.deployments[key]);
    DoneServiceKept(s, key, m, s.services[at]);
    DoneServicePhase(s, ReadService(key, m, s.deployments[key], false));
    var (c, p) := Children(s, key, m);
    assert c == s;
    StatusWritten(c, key, m, p.outcome, now);
    PassReportsTruth(s, key, now);
  }

  lemma {:induction false} DoneServicePhase(s: Store, p: Proc)
    requires p.ReadService? && ServiceKey(p.key) in s.services && ServiceDone(p.key, p.m, s.services[ServiceKey(p.key)])
    ensures ServicePhase(s, p).0 == s
  {
    DoneServiceKept(s, p.key, p.m, s.services[ServiceKey(p.key)]);
  }

  /** From children that are absent or its own: the first pass builds both, all later ones keep them as built,
      and from the second on the stored status is ready exactly if the Deployment built has rolled out. */
  lemma {:induction false} PassesBuildAndReport(s: Store, key: Key, times: seq<real>)
    requires key in s.servers && !s.servers[key].deleting && Claimable(s, key, s.servers[key]) && |times| >= 1
    ensures var first, t := Reconcile(s, key, times[0]), Passes(s, key, times);
      && key in t.servers && SameWants(s.servers[key], t.servers[key])
      && t.deployments == first.deployments && t.services == first.services && Built(t, key, t.servers[key])
      && (|times| >= 2 ==> (t.servers[key].IsReady() <==> RolledOut(t.deployments[key])))
  {
    hide Reconcile, Built, RolledOut, Server.IsReady;
    var most := times[..|times| - 1];
    if |times| == 1 {
      assert most == [];
      PassBuildsChildren(s, key, times[0]);
    } else {
      PassesBuildAndReport(s, key, most);
      BuiltIsKept(Passes(s, key, most), key, times[|times| - 1]);
    }
  }

  // ---------- what a pass reports, case by case ----------

  /** Deletion first; then a child that it may not touch; then a Deployment that had to be changed; then the rollout. */
  ghost predicate PassReports(s: Store, key: Key, m: Server, o: Outcome) {
    if m.deleting then (o.phase, o.status, o.reason) == ("Pending", IsFalse, "Deleting")
    else if !Claimable(s, key, m) then (o.phase, o.status, o.reason) == ("Failed", IsFalse, "ReconcileError")
    else if key !in s.deployments || !Runs(key.name, m.spec, s.deployments[key].spec) then
      (o.phase, o.status, o.reason) == ("Pending", IsFalse, "Progressing")
    else Reports(s.deployments[key], false, o)
  }

  lemma {:induction false} DeploymentPhaseOutcome(s: Store, key: Key, m: Server)
    ensures var p := DeploymentPhase(s, ReadDeployment(key, m)).1;
      if key in s.deployments && OwnershipError(key, m, key, s.deployments[key].meta).Some? then
        p.WriteStatus? && (p.outcome.phase, p.outcome.status, p.outcome.reason) == ("Failed", IsFalse, "ReconcileError")
      else
        && p.ReadService? && p.key == key && p.m == m && p.dep.spec.replicas.Some?
        && (p.changed <==> key !in s.deployments || !Runs(key.name, m.spec, s.deployments[key].spec))
        && (!p.changed ==>
              var d := s.deployments[key]; (p.dep.spec, p.dep.status, p.dep.generation) == (d.spec, d.status, d.generation))
  {
    hide Desired, Runs, OwnershipError;
    if key !in s.deployments || OwnershipError(key, m, key, s.deployments[key].meta).None? {
      FreshPutDeployment(s, key, m);
      DoneHasReplicas(key, m);
      if key in s.deployments { DesiredIsProjection(key.name, m.spec, s.deployments[key].spec); }
    }
  }

  lemma {:induction false} DoneHasReplicas(key: Key, m: Server)
    ensures forall d :: DeploymentDone(key, m, d) ==> d.spec.replicas.Some?
  {
  }

  lemma {:induction false} ServicePhaseOutcome(s: Store, p: Proc)
    requires p.ReadService? && p.dep.spec.replicas.Some?
    ensures var at, q := ServiceKey(p.key), ServicePhase(s, p).1;
      && q.WriteStatus?
      && if at in s.services && OwnershipError(p.key, p.m, at, s.services[at].meta).Some? then
           (q.outcome.phase, q.outcome.status, q.outcome.reason) == ("Failed", IsFalse, "ReconcileError")
         else Reports(p.dep, p.changed, q.outcome)
  {
    hide Reports, DeploymentReadiness, OwnershipError;
    var at := ServiceKey(p.key);
    if at !in s.services || OwnershipError(p.key, p.m, at, s.services[at].meta).None? { FreshPutService(s, p.key, p.m); }
    ReadinessExact(p.dep, p.changed);
  }

  lemma {:induction false} ReportsAlike(d: Deployment, e: Deployment, o: Outcome)
    requires d.spec.replicas.Some? && (d.spec, d.status, d.generation) == (e.spec, e.status, e.generation)
    ensures Reports(d, false, o) == Reports(e, false, o)
  {
    hide FirstFailed;
  }

  lemma {:induction false} ReportsChanged(d: Deployment, o: Outcome)
    requires d.spec.replicas.Some? && Reports(d, true, o)
    ensures (o.phase, o.status, o.reason) == ("Pending", IsFalse, "Progressing")
  {
  }

  /** What an undisturbed pass writes into the status, for every store: phase, Ready condition and reason. */
  lemma {:induction false} PassReportsExactly(s: Store, key: Key, now: real) returns (o: Outcome)
    requires key in s.servers
    ensures PassReports(s, key, s.servers[key], o)
    ensures var t := Reconcile(s, key, now);
      && key in t.servers && t.servers[key].status.phase == o.phase
      && t.servers[key].status.observedGeneration == s.servers[key].generation
    ensures var c := FindCondition(Reconcile(s, key, now).servers[key].status.conditions, "Ready");
      c.Some? && (c.value.status, c.value.reason, c.value.message) == (o.status, o.reason, o.message)
    ensures s.servers[key].deleting ==>
      Reconcile(s, key, now).deployments == s.deployments && Reconcile(s, key, now).services == s.services
  {
    hide DeploymentPhase, ServicePhase, Reports, Runs, OwnershipError, NextStatus, FindCondition;
    var m := s.servers[key];
    var (c, p) := Children(s, key, m);
    o := p.outcome;
    ChildrenSettle(s, key, m);
    StatusWritten(c, key, m, o, now);
    StatusReportsOutcome(m, o, now);
    if !m.deleting {
      DeploymentPhaseOutcome(s, key, m);
      DeploymentPhaseBuilds(s, key, m);
      var (s1, p1) := DeploymentPhase(s, ReadDeployment(key, m));
      if p1.ReadService? {
        ServicePhaseOutcome(s1, p1);
        if Claimable(s, key, m) {
          if p1.changed {
            ReportsChanged(p1.dep, o);
          } else {
            ReportsAlike(p1.dep, s.deployments[key], o);
          }
        }
      }
    }
  }
}

/** The Deployment and Service of one MCPServer, and how internal/controller/mcpserver_controller.go
    projects them onto what the MCPServer asks for. A field called rest stands for everything in the object
    that the controller does not manage. Nil and empty maps and lists are one value, as for
    equality.Semantic.DeepEqual. */
module Workload {

  import opened Api
  import opened Text

  datatype OwnerRef = OwnerRef(apiVersion: string, kind: string, name: string, uid: nat, blockOwnerDeletion: bool)

  /** controller is the owner reference that has Controller set, if any. */
  datatype Meta = Meta(uid: nat, version: nat, deleting: bool, controller: Option<OwnerRef>, rest: string)

  datatype Handler = NoHandler | TcpSocket(port: int) | OtherHandler(text: string)

  datatype Probe = Probe(handler: Handler, rest: string)

  datatype ContainerPort = ContainerPort(port: int, protocol: string, rest: string)

  datatype Container = Container(
    name: string, image: string, ports: seq<ContainerPort>, readiness: Option<Probe>, rest: string)

  datatype Selector = Selector(matchLabels: map<string, string>, rest: string)

  datatype DeploymentSpec = DeploymentSpec(
    replicas: Option<int>, selector: Option<Selector>, labels: map<string, string>, containers: seq<Container>, rest: string)

  datatype DeploymentCondition = DeploymentCondition(kind: string, status: ConditionStatus, reason: string, message: string)

  datatype DeploymentStatus = DeploymentStatus(
    observedGeneration: int, replicas: int, updated: int, ready: int, available: int, conditions: seq<DeploymentCondition>)

  datatype Deployment = Deployment(meta: Meta, generation: int, spec: DeploymentSpec, status: DeploymentStatus)

  datatype TargetPort = PortNumber(port: int) | PortName(name: string)

  datatype ServicePort = ServicePort(port: int, target: TargetPort, protocol: string, rest: string)

  datatype ServiceSpec = ServiceSpec(selector: map<string, string>, ports: seq<ServicePort>, rest: string)

  datatype Service = Service(meta: Meta, spec: ServiceSpec)

  const SERVER_LABEL := "mcp.portkeeper.dev/server"
  const API_VERSION := "mcp.portkeeper.dev/v1alpha1"
  const CONTAINER := "mcp-server"

  function ServiceKey(key: Key): Key {
    Key(key.namespace, key.name + "-svc")
  }

  // ---------- ownership ----------

  /** The object's controller reference carries this MCPServer's UID, name, kind and API version. */
  predicate Controlled(key: Key, m: Server, meta: Meta) {
    && meta.controller.Some?
    && var owner := meta.controller.value;
       owner.uid == m.uid && owner.name == key.name && owner.kind == "MCPServer" && owner.apiVersion == API_VERSION
  }

  /** A child may be touched exactly if its controller is an MCPServer of this API with this MCPServer's name and UID, and
      it is not being deleted. */
  lemma {:induction false} OwnershipExact(key: Key, m: Server, target: Key, meta: Meta)
    ensures OwnershipError(key, m, target, meta).None? <==>
      !meta.deleting && exists block ::
        meta.controller == Some(OwnerRef("mcp.portkeeper.dev/v1alpha1", "MCPServer", key.name, m.uid, block))
  {
    if OwnershipError(key, m, target, meta).None? {
      var owner := meta.controller.value;
      assert owner == OwnerRef(API_VERSION, "MCPServer", key.name, m.uid, owner.blockOwnerDeletion);
    }
  }

  /** Why an existing object may not be touched, if it may not. */
  function OwnershipError(key: Key, m: Server, target: Key, meta: Meta): Option<string> {
    if !Controlled(key, m, meta) then
      Some("refusing to mutate " + target.namespace + "/" + target.name + ": not controlled by MCPServer UID " + Decimal(m.uid))
    else if meta.deleting then
      Some("cannot reconcile " + target.namespace + "/" + target.name + ": resource is being deleted")
    else None
  }

  /** controllerutil.SetControllerReference on an object that is new or already controlled by m. */
  function ControllerRef(key: Key, m: Server): OwnerRef {
    OwnerRef(API_VERSION, "MCPServer", key.name, m.uid, true)
  }

  // ---------- the Deployment ----------

  /** Index of the first container with the managed name, or the length. */
  function ManagedIndex(containers: seq<Container>): (i: nat)
    ensures i <= |containers|
    ensures i < |containers| ==> containers[i].name == CONTAINER
    ensures forall j :: 0 <= j < i ==> containers[j].name != CONTAINER
  {
    if containers == [] || containers[0].name == CONTAINER then 0 else 1 + ManagedIndex(containers[1..])
  }

  function ManagedContainer(c: Container, want: ServerSpec): Container {
    c.(image := want.image,
       ports := [ContainerPort(want.port, "TCP", "")],
       readiness := Some(Probe(TcpSocket(want.port), if c.readiness.Some? then c.readiness.value.rest else "")))
  }

  function ManagedContainers(containers: seq<Container>, want: ServerSpec): seq<Container> {
    var i := ManagedIndex(containers);
    if i < |containers| then containers[i := ManagedContainer(containers[i], want)]
    else containers + [ManagedContainer(Container(CONTAINER, "", [], None, ""), want)]
  }

  function Desired(name: string, want: ServerSpec, d: DeploymentSpec): DeploymentSpec {
    DeploymentSpec(
      Some(1),
      Some(Selector(map[SERVER_LABEL := name], "")),
      d.labels[SERVER_LABEL := name],
      ManagedContainers(d.containers, want),
      d.rest)
  }

  /** The Deployment already runs one replica of the wanted image on the wanted port, found by the wanted label,
      in the first container of the managed name. */
  predicate Runs(name: string, want: ServerSpec, d: DeploymentSpec) {
    && d.replicas == Some(1)
    && d.selector == Some(Selector(map[SERVER_LABEL := name], ""))
    && SERVER_LABEL in d.labels && d.labels[SERVER_LABEL] == name
    && var i := ManagedIndex(d.containers);
       && i < |d.containers|
       && d.containers[i].image == want.image
       && d.containers[i].ports == [ContainerPort(want.port, "TCP", "")]
       && d.containers[i].readiness.Some? && d.containers[i].readiness.value.handler == TcpSocket(want.port)
  }

  lemma {:induction false} ManagedIndexIs(containers: seq<Container>, i: nat)
    requires i < |containers| && containers[i].name == CONTAINER
    requires forall j :: 0 <= j < i ==> containers[j].name != CONTAINER
    ensures ManagedIndex(containers) == i
  {
  }

  /** Where the managed container is afterwards: where it was, or at the end. */
  lemma {:induction false} ManagedIndexKept(containers: seq<Container>, want: ServerSpec)
    ensures ManagedIndex(ManagedContainers(containers, want)) == ManagedIndex(containers)
  {
    ManagedIndexIs(ManagedContainers(containers, want), ManagedIndex(containers));
  }

  /** Every other container is in its place, and of the managed one and its probe all other fields, every other label,
      and the rest of the spec; a container that was missing is added at the end with nothing else in it. */
  ghost predicate KeepsTheRest(d: DeploymentSpec, e: DeploymentSpec) {
    var i := ManagedIndex(d.containers);
    && |e.containers| == (if i < |d.containers| then |d.containers| else |d.containers| + 1)
    && (forall j :: 0 <= j < |d.containers| && j != i ==> e.containers[j] == d.containers[j])
    && e.containers[i].name == CONTAINER && e.containers[i].readiness.Some?
    && (if i < |d.containers| then
          && e.containers[i].rest == d.containers[i].rest
          && (d.containers[i].readiness.Some? ==> e.containers[i].readiness.value.rest == d.containers[i].readiness.value.rest)
        else e.containers[i].rest == "" == e.containers[i].readiness.value.rest)
    && (forall tag :: tag != SERVER_LABEL ==>
          (tag in e.labels <==> tag in d.labels) && (tag in d.labels ==> e.labels[tag] == d.labels[tag]))
    && e.rest == d.rest
  }

  /** The mutation is a projection onto the Deployments that already run what is wanted: its result runs it,
      a second application changes nothing, and it changes nothing exactly when there was nothing to change.
      It leaves alone every other container in its place, the other fields of the managed one and of its probe,
      every other label, and the rest of the spec. */
  lemma {:induction false} DesiredIsProjection(name: string, want: ServerSpec, d: DeploymentSpec)
    ensures Runs(name, want, Desired(name, want, d)) && KeepsTheRest(d, Desired(name, want, d))
    ensures Desired(name, want, d) == d <==> Runs(name, want, d)
    ensures Desired(name, want, Desired(name, want, d)) == Desired(name, want, d)
  {
    ManagedIndexKept(d.containers, want);
    var once := Desired(name, want, d);
    assert Runs(name, want, once);
    RunsIsFixed(name, want, once);
    if Runs(name, want, d) { RunsIsFixed(name, want, d); }
  }

  lemma {:induction false} RunsIsFixed(name: string, want: ServerSpec, d: DeploymentSpec)
    requires Runs(name, want, d)
    ensures Desired(name, want, d) == d
  {
    var i := ManagedIndex(d.containers);
    assert ManagedContainer(d.containers[i], want) == d.containers[i];
    assert d.containers[i := d.containers[i]] == d.containers;
    assert d.labels[SERVER_LABEL := name] == d.labels;
  }

  // ---------- the Service ----------

  function DesiredService(name: string, want: ServerSpec, s: ServiceSpec): ServiceSpec {
    var first := if |s.ports| != 0 then s.ports[0] else ServicePort(0, PortNumber(0), "", "");
    ServiceSpec(
      map[SERVER_LABEL := name],
      [first.(port := want.port, target := PortNumber(want.port), protocol := "TCP")],
      s.rest)
  }

  /** The Service sends the wanted port, and no other, over TCP to the same port of the pods with the wanted label. */
  predicate Routes(name: string, want: ServerSpec, s: ServiceSpec) {
    && s.selector == map[SERVER_LABEL := name]
    && |s.ports| == 1
    && s.ports[0].port == want.port && s.ports[0].target == PortNumber(want.port) && s.ports[0].protocol == "TCP"
  }

  /** The mutation of the Service is a projection onto those that route what is wanted; it keeps the other fields of the
      first port and the rest of the spec. */
  lemma {:induction false} DesiredServiceIsProjection(name: string, want: ServerSpec, s: ServiceSpec)
    ensures var e := DesiredService(name, want, s);
      && Routes(name, want, e) && (e == s <==> Routes(name, want, s))
      && e.rest == s.rest && e.ports[0].rest == if |s.ports| != 0 then s.ports[0].rest else ""
  {
    var e := DesiredService(name, want, s);
    if Routes(name, want, s) {
      assert e.ports[0] == s.ports[0];
      assert e.ports == s.ports;
    }
  }

  /** The Service reaches the container: what it selects is what the Deployment selects and labels its pods with, and its
      one port leads to the port that the container opens and its probe asks. */
  ghost predicate Connects(d: DeploymentSpec, v: ServiceSpec, image: string, port: int) {
    && d.selector.Some? && v.selector == d.selector.value.matchLabels
    && (forall tag :: tag in v.selector ==> tag in d.labels && d.labels[tag] == v.selector[tag])
    && "mcp.portkeeper.dev/server" in v.selector
    && |v.ports| == 1 && v.ports[0].port == port && v.ports[0].target == PortNumber(port) && v.ports[0].protocol == "TCP"
    && exists i :: 0 <= i < |d.containers| && Opens(d.containers[i], image, port)
  }

  ghost predicate Opens(c: Container, image: string, port: int) {
    && c.name == "mcp-server" && c.image == image
    && |c.ports| == 1 && c.ports[0].port == port && c.ports[0].protocol == "TCP"
    && c.readiness.Some? && c.readiness.value.handler == TcpSocket(port)
  }

  /** Children that are as wanted fit together. */
  lemma {:induction false} WantedConnects(name: string, want: ServerSpec, d: DeploymentSpec, v: ServiceSpec)
    requires Runs(name, want, d) && Routes(name, want, v)
    ensures Connects(d, v, want.image, want.port)
  {
    var i := ManagedIndex(d.containers);
    assert Opens(d.containers[i], want.image, want.port);
  }

  lemma {:induction false} DesiredServiceIdempotent(name: string, want: ServerSpec, s: ServiceSpec)
    ensures DesiredService(name, want, DesiredService(name, want, s)) == DesiredService(name, want, s)
  {
  }

  // ---------- readiness ----------

  datatype Outcome = Outcome(phase: string, status: ConditionStatus, reason: string, message: string)

  predicate RolloutFailed(c: DeploymentCondition) {
    || (c.kind == "Progressing" && c.status == IsFalse && c.reason == "ProgressDeadlineExceeded")
    || (c.kind == "ReplicaFailure" && c.status == IsTrue)
  }

  function FirstFailure(conditions: seq<DeploymentCondition>): Option<DeploymentCondition> {
    if conditions == [] then None
    else if RolloutFailed(conditions[0]) then Some(conditions[0])
    else FirstFailure(conditions[1..])
  }

  function DeploymentReadiness(dep: Deployment, changed: bool): Outcome
    requires dep.spec.replicas.Some?
  {
    if changed || dep.status.observedGeneration != dep.generation then
      Outcome("Pending", IsFalse, "Progressing", "Waiting for the Deployment controller to observe the desired workload")
    else
      var failure := FirstFailure(dep.status.conditions);
      if failure.Some? then
        var c := failure.value;
        Outcome("Failed", IsFalse, if c.reason == "" then c.kind else c.reason, c.message)
      else
        var desired := dep.spec.replicas.value;
        if desired > 0 && dep.status.replicas == desired && dep.status.updated == desired
           && dep.status.ready >= desired && dep.status.available >= desired
        then Outcome("Ready", IsTrue, "DeploymentAvailable", "The desired Deployment replicas are updated, ready, and available")
        else Outcome("Pending", IsFalse, "DeploymentUnavailable", "Waiting for the desired Deployment replicas to be updated, ready, and available")
  }

  /** Every desired replica of the observed generation is updated, ready and available. */
  ghost predicate RolledOut(dep: Deployment) {
    && dep.status.observedGeneration == dep.generation
    && dep.spec.replicas.Some? && dep.spec.replicas.value > 0
    && dep.status.replicas == dep.status.updated == dep.spec.replicas.value
    && dep.status.ready >= dep.spec.replicas.value && dep.status.available >= dep.spec.replicas.value
    && forall c :: c in dep.status.conditions ==> !Broken(c)
  }

  lemma {:induction false} FirstFailureExact(conditions: seq<DeploymentCondition>)
    ensures FirstFailure(conditions).None? <==> forall c :: c in conditions ==> !Broken(c)
  {
    if conditions != [] {
      FirstFailureExact(conditions[1..]);
      BrokenExact(conditions[0]);
      assert forall c :: c in conditions <==> c == conditions[0] || c in conditions[1..];
    }
  }

  /** Ready is reported exactly for an unchanged Deployment that has rolled out. */
  lemma {:induction false} ReadyIffRolledOut(dep: Deployment, changed: bool)
    requires dep.spec.replicas.Some?
    ensures DeploymentReadiness(dep, changed).status == IsTrue <==> !changed && RolledOut(dep)
  {
    FirstFailureExact(dep.status.conditions);
  }

  /** Position of the first condition that reports a failed rollout: past its deadline, or a replica that fails. */
  ghost predicate FirstFailed(conditions: seq<DeploymentCondition>, i: nat) {
    && i < |conditions| && Broken(conditions[i])
    && forall j :: 0 <= j < i ==> !Broken(conditions[j])
  }

  ghost predicate Broken(c: DeploymentCondition) {
    match c.kind
    case "Progressing" => c.status.IsFalse? && c.reason == "ProgressDeadlineExceeded"
    case "ReplicaFailure" => c.status.IsTrue?
    case _ => false
  }

  lemma {:induction false} FirstFailureAt(conditions: seq<DeploymentCondition>)
    ensures FirstFailure(conditions) == None ==> forall j :: 0 <= j < |conditions| ==> !Broken(conditions[j])
    ensures forall i: nat :: FirstFailed(conditions, i) ==> FirstFailure(conditions) == Some(conditions[i])
    ensures FirstFailure(conditions).Some? ==> exists i: nat :: FirstFailed(conditions, i)
  {
    if conditions != [] {
      BrokenExact(conditions[0]);
      if !Broken(conditions[0]) {
        var rest := conditions[1..];
        FirstFailureAt(rest);
        assert forall i: nat :: FirstFailed(conditions, i) ==> i > 0 && rest[i - 1] == conditions[i] && FirstFailed(rest, i - 1);
        assert forall i: nat :: FirstFailed(rest, i) ==> FirstFailed(conditions, i + 1);
      } else {
        assert FirstFailed(conditions, 0);
      }
    }
  }

  lemma {:induction false} BrokenExact(c: DeploymentCondition)
    ensures Broken(c) <==> RolloutFailed(c)
  {
    assert |"Progressing"| != |"ReplicaFailure"|;
  }

  /** Everything that readiness can report, and when: waiting for the Deployment controller, a failed rollout with the
      reason and message of its first failed condition, ready, or waiting for replicas. */
  ghost predicate Reports(dep: Deployment, changed: bool, o: Outcome)
    requires dep.spec.replicas.Some?
  {
    var n, s := dep.spec.replicas.value, dep.status;
    if changed || s.observedGeneration != dep.generation then
      (o.phase, o.status, o.reason) == ("Pending", IsFalse, "Progressing")
    else if exists i: nat :: FirstFailed(s.conditions, i) then
      exists i: nat :: FirstFailed(s.conditions, i)
        && (o.phase, o.status, o.message) == ("Failed", IsFalse, s.conditions[i].message)
        && o.reason == if s.conditions[i].reason != "" then s.conditions[i].reason else s.conditions[i].kind
    else if n > 0 && s.replicas == n && s.updated == n && s.ready >= n && s.available >= n then
      (o.phase, o.status, o.reason) == ("Ready", IsTrue, "DeploymentAvailable")
    else (o.phase, o.status, o.reason) == ("Pending", IsFalse, "DeploymentUnavailable")
  }

  lemma {:induction false} ReadinessExact(dep: Deployment, changed: bool)
    requires dep.spec.replicas.Some?
    ensures Reports(dep, changed, DeploymentReadiness(dep, changed))
  {
    hide Broken;
    FirstFailureAt(dep.status.conditions);
  }

  lemma {:induction false} PhasesDiffer()
    ensures "Ready" != "Failed" && "Failed" != "Pending"
  {
    assert |"Ready"| != |"Failed"| && |"Failed"| != |"Pending"|;
  }

  /** Failed is reported exactly for an unchanged Deployment whose observed rollout has failed. */
  lemma {:induction false} FailedIffRolloutFailed(dep: Deployment, changed: bool)
    requires dep.spec.replicas.Some?
    ensures DeploymentReadiness(dep, changed).phase == "Failed" <==>
      !changed && dep.status.observedGeneration == dep.generation && exists c :: c in dep.status.conditions && Broken(c)
  {
    PhasesDiffer();
    FirstFailureExact(dep.status.conditions);
  }

  // ---------- the working copy ----------

  /** The object that CreateOrUpdate hands to the mutation: a fresh one, or one read from the cluster. */
  class DeploymentDraft {
    var existing: Option<Meta>
    var controller: Option<OwnerRef>
    var spec: DeploymentSpec

    constructor (existing: Option<Meta>, spec: DeploymentSpec)
      ensures this.existing == existing && this.spec == spec
      ensures controller == if existing.Some? then existing.value.controller else None
    {
      this.existing, this.spec := existing, spec;
      controller := if existing.Some? then existing.value.controller else None;
    }

    /** The mutation callback of reconcileDeployment. */
    method Mutate(key: Key, m: Server) returns (error: Option<string>, changed: bool)
      modifies this`controller, this`spec
      ensures error == if existing.Some? then OwnershipError(key, m, key, existing.value) else None
      ensures error.Some? ==> spec == old(spec) && controller == old(controller) && !changed
      ensures error.None? ==>
        && spec == Desired(key.name, m.spec, old(spec))
        && controller == Some(ControllerRef(key, m))
        && (changed <==> !Runs(key.name, m.spec, old(spec)))
    {
      error, changed := None, false;
      if existing.Some? {
        error := OwnershipError(key, m, key, existing.value);
        if error.Some? {
          return;
        }
      }
      var before := spec;
      spec := spec.(replicas := Some(1));
      spec := spec.(selector := Some(Selector(map[SERVER_LABEL := key.name], "")));
      spec := spec.(labels := spec.labels[SERVER_LABEL := key.name]);
      var index := 0;
      while index < |spec.containers| && spec.containers[index].name != CONTAINER
        invariant index <= |spec.containers|
        invariant forall j :: 0 <= j < index ==> spec.containers[j].name != CONTAINER
      {
        index := index + 1;
      }
      if index == |spec.containers| {
        spec := spec.(containers := spec.containers + [Container(CONTAINER, "", [], None, "")]);
      } else {
        ManagedIndexIs(spec.containers, index);
      }
      var container := spec.containers[index];
      container := container.(image := m.spec.image);
      container := container.(ports := [ContainerPort(m.spec.port, "TCP", "")]);
      if container.readiness.None? {
        container := container.(readiness := Some(Probe(NoHandler, "")));
      }
      container := container.(readiness := Some(container.readiness.value.(handler := TcpSocket(m.spec.port))));
      spec := spec.(containers := spec.containers[index := container]);
      assert spec.containers == ManagedContainers(before.containers, m.spec);
      DesiredIsProjection(key.name, m.spec, before);
      changed := before != spec;
      controller := Some(ControllerRef(key, m));
    }
  }
}

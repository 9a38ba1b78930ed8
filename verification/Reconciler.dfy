/** Reconcile as it runs: reads, in-place mutation of working copies, and writes, one after the other. */
module Reconciling {

  import opened Api
  import opened Text
  import opened Workload
  import opened Controller

  /** The API server as an undisturbed reconciler sees it. */
  class ApiServer {
    var servers: map<Key, Server>
    var deployments: map<Key, Deployment>
    var services: map<Key, Service>
    var next: nat

    ghost function View(): Store
      reads this
    {
      Store(servers, deployments, services, next)
    }

    method Load(s: Store)
      modifies this
      ensures View() == s
    {
      servers, deployments, services, next := s.servers, s.deployments, s.services, s.next;
    }

    method UpdateStatus(p: Proc, now: real)
      requires p.WriteStatus?
      modifies this
      ensures View() == PutStatusStep(old(View()), p, now)
    {
      var m := p.m;
      var before := m.status;
      m := m.(status := NextStatus(m, p.outcome, now));
      if before == m.status {
        return;
      }
      if p.key in servers && servers[p.key].version == m.version {
        servers := servers[p.key := servers[p.key].(status := m.status, version := next)];
        next := next + 1;
      }
    }

    /** CreateOrUpdate with the mutation of DeploymentDraft; error is the mutation's. */
    method ReconcileDeployment(key: Key, m: Server) returns (q: Proc)
      modifies this
      ensures (View(), q) == DeploymentPhase(old(View()), ReadDeployment(key, m))
      ensures q.WriteStatus? || (q.ReadService? && q.key == key && q.m == m)
    {
      var read := Lookup(deployments, key);
      var draft := new DeploymentDraft(
        if read.Some? then Some(read.value.meta) else None, if read.Some? then read.value.spec else NO_SPEC);
      var error, changed := draft.Mutate(key, m);
      var p := ReadDeployment(key, m);
      if error.Some? {
        return Failure(p, error.value);
      }
      if read.None? {
        DesiredIsProjection(key.name, m.spec, NO_SPEC);
        var dep := Deployment(Meta(next, next, false, draft.controller, ""), 1, draft.spec, NO_STATUS);
        deployments, next := deployments[key := dep], next + 1;
        return ReadService(key, m, dep, changed);
      }
      var sent := read.value.(spec := draft.spec, meta := read.value.meta.(controller := draft.controller));
      if sent == read.value {
        return ReadService(key, m, sent, changed);
      }
      var dep := Deployment(
        sent.meta.(version := next), read.value.generation + (if sent.spec != read.value.spec then 1 else 0),
        sent.spec, read.value.status);
      deployments, next := deployments[key := dep], next + 1;
      q := ReadService(key, m, dep, changed);
    }

    method ReconcileService(p: Proc) returns (q: Proc)
      requires p.ReadService?
      modifies this
      ensures (View(), q) == ServicePhase(old(View()), p) && q.WriteStatus?
    {
      var at := ServiceKey(p.key);
      var done := WriteStatus(p.key, p.m, Readiness(p.dep, p.changed));
      if at !in services {
        var svc := Service(
          Meta(next, next, false, Some(ControllerRef(p.key, p.m)), ""),
          DesiredService(p.key.name, p.m.spec, ServiceSpec(map[], [], "")));
        services, next := services[at := svc], next + 1;
        return done;
      }
      var svc := services[at];
      var error := OwnershipError(p.key, p.m, at, svc.meta);
      if error.Some? {
        return Failure(p, error.value);
      }
      var sent := svc.(
        spec := DesiredService(p.key.name, p.m.spec, svc.spec),
        meta := svc.meta.(controller := Some(ControllerRef(p.key, p.m))));
      if sent != svc {
        services, next := services[at := sent.(meta := sent.meta.(version := next))], next + 1;
      }
      q := done;
    }

    method Reconcile(key: Key, now: real)
      modifies this
      ensures View() == Controller.Reconcile(old(View()), key, now)
    {
      hide DeploymentPhase, ServicePhase, PutStatusStep;
      if key !in servers {
        return;
      }
      var m := servers[key];
      var p := Begin(key, m);
      if p.ReadDeployment? {
        p := ReconcileDeployment(key, m);
        if p.ReadService? {
          p := ReconcileService(p);
        }
      }
      UpdateStatus(p, now);
    }
  }
}

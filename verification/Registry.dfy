/** internal/gateway/registry.go: the snapshot of MCPServers that requests are resolved against. */
module GatewayRegistry {

  import opened Api
  import opened Sets
  import opened Text
  import Workload

  datatype Backend = Backend(
    namespace: string, name: string, address: string, ready: bool,
    allowed: seq<ServiceAccountReference>, observedAt: real)

  datatype Resolution = Found(backend: Backend) | NotFound | Ambiguous

  const POLICY_MAX_AGE := 15.0

  /** host is GATEWAY_BACKEND_HOST, "" when unset. */
  function Address(key: Key, port: int, host: string): string {
    if host != "" then host + ":" + Int(port)
    else key.name + "-svc." + key.namespace + ".svc.cluster.local:" + Int(port)
  }

  /** Where a server's traffic goes: to the override, or to the Service that the controller builds for it; at its port. */
  ghost predicate ReachedAt(key: Key, port: int, host: string, address: string) {
    var service := Workload.ServiceKey(key);
    && service == Key(key.namespace, key.name + "-svc")
    && address ==
      (if host != "" then host else service.name + "." + service.namespace + ".svc.cluster.local") + ":" + Int(port)
  }

  lemma {:induction false} AddressReaches(key: Key, port: int, host: string)
    ensures ReachedAt(key, port, host, Address(key, port, host))
  {
    if host == "" {
      var ns, tail := key.namespace, ".svc.cluster.local";
      assert "-svc." == "-svc" + "." && ".svc.cluster.local:" == tail + ":";
      assert key.name + "-svc." + ns + ".svc.cluster.local:" + Int(port) == key.name + "-svc" + "." + ns + tail + ":" + Int(port);
    }
  }

  /** Without an override, servers with different names or ports have different addresses, if namespaces have no dots. */
  lemma {:induction false} AddressesDiffer(key: Key, port: int, other: Key, port': int)
    requires Address(key, port, "") == Address(other, port', "") && FreeOf(key.namespace, '.') && FreeOf(other.namespace, '.')
    ensures key == other && port == port'
  {
    AddressReaches(key, port, "");
    AddressReaches(other, port', "");
    IntHasNoColon(port);
    IntHasNoColon(port');
    var tail := ".svc.cluster.local";
    var a, b := key.name + "-svc", other.name + "-svc";
    assert [':'] == ":" && ['.'] == ".";
    LastSeparator(a + "." + key.namespace + tail, Int(port), b + "." + other.namespace + tail, Int(port'), ':');
    IntInjective(port, port');
    SameSuffix(a + "." + key.namespace, b + "." + other.namespace, tail);
    LastSeparator(a, key.namespace, b, other.namespace, '.');
    SameSuffix(key.name, other.name, "-svc");
  }

  lemma {:induction false} SameSuffix(a: string, b: string, tail: string)
    requires a + tail == b + tail
    ensures a == b
  {
    assert |a| == |b|;
    assert (a + tail)[..|a|] == a && (b + tail)[..|b|] == b;
  }

  lemma {:induction false} IntHasNoColon(n: int)
    ensures FreeOf(Int(n), ':')
  {
  }

  function BackendOf(key: Key, server: Server, observedAt: real, host: string): Backend {
    Backend(key.namespace, key.name, Address(key, server.spec.port, host), server.IsReady(), server.spec.allowed, observedAt)
  }

  /** What the registry holds after a list that found these servers. */
  function Snapshot(servers: map<Key, Server>, observedAt: real, host: string): map<Key, Backend> {
    map key | key in servers :: BackendOf(key, servers[key], observedAt, host)
  }

  /** The entry says of the server what it is called, where it is reached, whether it is ready and whom it allows. */
  ghost predicate Describes(b: Backend, key: Key, server: Server, observedAt: real, host: string) {
    && Key(b.namespace, b.name) == key && ReachedAt(key, server.spec.port, host, b.address)
    && b.ready == server.IsReady() && b.allowed == server.spec.allowed && b.observedAt == observedAt
  }

  ghost predicate Publishes(backends: map<Key, Backend>, servers: map<Key, Server>, observedAt: real, host: string) {
    backends.Keys == servers.Keys && forall key :: key in servers ==> Describes(backends[key], key, servers[key], observedAt, host)
  }

  lemma {:induction false} SnapshotPublishes(servers: map<Key, Server>, observedAt: real, host: string)
    ensures Publishes(Snapshot(servers, observedAt, host), servers, observedAt, host)
  {
    forall key | key in servers ensures Describes(BackendOf(key, servers[key], observedAt, host), key, servers[key], observedAt, host) {
      AddressReaches(key, servers[key].spec.port, host);
    }
  }

  function Named(backends: map<Key, Backend>, name: string): set<Key> {
    set key | key in backends && key.name == name
  }

  /** Exact lookup in a namespace, or by a name that only one namespace has. */
  ghost function Resolve(backends: map<Key, Backend>, namespace: string, name: string): (r: Resolution)
    ensures namespace != "" ==>
      r == if Key(namespace, name) in backends then Found(backends[Key(namespace, name)]) else NotFound
    ensures namespace == "" ==> (r == NotFound <==> |Named(backends, name)| == 0)
    ensures namespace == "" ==> (r == Ambiguous <==> |Named(backends, name)| >= 2)
    ensures namespace == "" ==> forall key :: key in Named(backends, name) && |Named(backends, name)| == 1 ==> r == Found(backends[key])
  {
    if namespace != "" then
      if Key(namespace, name) in backends then Found(backends[Key(namespace, name)]) else NotFound
    else
      var named := Named(backends, name);
      if |named| == 0 then NotFound
      else if |named| >= 2 then Ambiguous
      else
        var key :| key in named;
        assert forall other :: other in named ==> other == key by { Singleton(named, key); }
        Found(backends[key])
  }

  lemma {:induction false} NamedKeys(backends: map<Key, Backend>, name: string)
    ensures Named(backends, name) <= backends.Keys
    ensures forall key :: key in Named(backends, name) <==> key in backends && key.name == name
  {
  }

  /** One more key has been looked at. */
  lemma {:induction false} SeenGrows(named: set<Key>, pending: set<Key>, key: Key)
    requires key in pending
    ensures named - (pending - {key}) == if key in named then (named - pending) + {key} else named - pending
    ensures key !in named - pending
  {
  }

  lemma {:induction false} TwoNamed(named: set<Key>, key: Key, other: Key)
    requires key in named && other in named && key != other
    ensures |named| >= 2
  {
    SubsetSize({key, other}, named);
  }

  /** The list as a map; of two items with one key the later counts. */
  function ByKey(items: seq<(Key, Server)>): map<Key, Server> {
    if items == [] then map[] else ByKey(items[..|items| - 1])[items[|items| - 1].0 := items[|items| - 1].1]
  }

  /** A list that names every server of the store, in any order, is the store. */
  lemma {:induction false} ListOfStore(items: seq<(Key, Server)>, servers: map<Key, Server>)
    requires forall i :: 0 <= i < |items| ==> items[i].0 in servers && servers[items[i].0] == items[i].1
    requires forall key :: key in servers ==> exists i :: 0 <= i < |items| && items[i].0 == key
    ensures ByKey(items) == servers
  {
    ByKeyHolds(items, servers);
  }

  lemma {:induction false} ByKeyHolds(items: seq<(Key, Server)>, servers: map<Key, Server>)
    requires forall i :: 0 <= i < |items| ==> items[i].0 in servers && servers[items[i].0] == items[i].1
    ensures forall key :: key in ByKey(items) ==> key in servers && ByKey(items)[key] == servers[key]
    ensures forall i :: 0 <= i < |items| ==> items[i].0 in ByKey(items)
  {
    if items != [] {
      ByKeyHolds(items[..|items| - 1], servers);
      forall i | 0 <= i < |items| ensures items[i].0 in ByKey(items) {
        if i < |items| - 1 { assert items[i] == items[..|items| - 1][i]; }
      }
    }
  }

  class Registry {
    var backends: map<Key, Backend>
    var synced: bool

    constructor ()
      ensures backends == map[] && !synced
    {
      backends, synced := map[], false;
    }

    /** One poll: observedAt was read before the list was asked for, and a failed list (None) changes nothing. */
    method Refresh(observedAt: real, list: Option<seq<(Key, Server)>>, host: string)
      modifies this
      ensures list.None? ==> backends == old(backends) && synced == old(synced)
      ensures list.Some? ==> synced && backends == Snapshot(ByKey(list.value), observedAt, host)
      ensures list.Some? ==> Publishes(backends, ByKey(list.value), observedAt, host)
    {
      if list.None? {
        return;
      }
      var items, next := list.value, map[];
      for n := 0 to |items|
        invariant next == Snapshot(ByKey(items[..n]), observedAt, host)
      {
        var (key, server) := items[n];
        assert items[..n + 1][..n] == items[..n];
        next := next[key := BackendOf(key, server, observedAt, host)];
      }
      assert items[..|items|] == items;
      SnapshotPublishes(ByKey(items), observedAt, host);
      backends := next;
      synced := true;
    }

    method HasSynced() returns (ok: bool)
      ensures ok == synced
    {
      return synced;
    }

    /** The range over the map yields the keys in any order; the answer does not depend on it. */
    method Lookup(namespace: string, name: string) returns (r: Resolution)
      ensures r == Resolve(backends, namespace, name)
    {
      if namespace != "" {
        if Key(namespace, name) in backends {
          return Found(backends[Key(namespace, name)]);
        }
        return NotFound;
      }
      hide Named;
      ghost var named := Named(backends, name);
      var pending := backends.Keys;
      var hit: Option<Key> := None;
      NamedKeys(backends, name);
      while pending != {}
        invariant pending <= backends.Keys
        invariant named - pending == if hit.Some? then {hit.value} else {}
        decreases pending
      {
        var key :| key in pending;
        SeenGrows(named, pending, key);
        pending := pending - {key};
        if key.name == name {
          if hit.Some? {
            TwoNamed(named, key, hit.value);
            return Ambiguous;
          }
          hit := Some(key);
        }
      }
      assert named - pending == named;
      if hit.None? {
        return NotFound;
      }
      assert hit.value in named;
      r := Found(backends[hit.value]);
    }
  }
}

/** Path parsing of internal/gateway/router.go. */
module Routing {

  import opened Text

  /** namespace is "" on a legacy route. */
  datatype Route = Route(namespace: string, server: string, endpoint: string)

  function ParsePath(path: string): Option<Route> {
    var parts := Split(Trim(path, '/'), '/');
    if |parts| != 2 && |parts| != 3 then None
    else if exists i :: 0 <= i < |parts| && parts[i] == "" then None
    else if |parts| == 3 then Some(Route(parts[0], parts[1], parts[2]))
    else Some(Route("", parts[0], parts[1]))
  }

  function Components(r: Route): (parts: seq<string>)
    ensures |parts| == 2 || |parts| == 3
  {
    if r.namespace == "" then [r.server, r.endpoint] else [r.namespace, r.server, r.endpoint]
  }

  /** Two or three nonempty components without slashes. */
  ghost predicate Routable(parts: seq<string>) {
    && (|parts| == 2 || |parts| == 3)
    && forall i :: 0 <= i < |parts| ==> parts[i] != "" && FreeOf(parts[i], '/')
  }

  lemma {:induction false} JoinEnds(parts: seq<string>, sep: char)
    requires |parts| > 0 && forall i :: 0 <= i < |parts| ==> parts[i] != "" && FreeOf(parts[i], sep)
    ensures var s := Join(parts, sep); s != "" && s[0] != sep && s[|s| - 1] != sep
  {
    if |parts| > 1 {
      JoinEnds(parts[1..], sep);
    }
  }

  /** Parsing inverts joining with slashes, whatever slashes surround the path. */
  lemma {:induction false} ParseInvertsJoin(parts: seq<string>, before: nat, after: nat)
    requires Routable(parts)
    ensures var r := ParsePath(Repeat('/', before) + Join(parts, '/') + Repeat('/', after));
      r.Some? && Components(r.value) == parts && (r.value.namespace == "" <==> |parts| == 2)
  {
    JoinEnds(parts, '/');
    TrimPadding(before, Join(parts, '/'), after, '/');
    SplitOfJoin(parts, '/');
  }

  /** On success the components are nonempty and slash-free, and joining them gives the trimmed path back;
      and every path whose trimmed form is such a join succeeds. */
  lemma {:induction false} ParseExact(path: string)
    ensures ParsePath(path).Some? <==> exists parts :: Routable(parts) && Join(parts, '/') == Trim(path, '/')
    ensures ParsePath(path).Some? ==>
      Routable(Components(ParsePath(path).value)) && Join(Components(ParsePath(path).value), '/') == Trim(path, '/')
  {
    var parts := Split(Trim(path, '/'), '/');
    SplitPartsFree(Trim(path, '/'), '/');
    JoinOfSplit(Trim(path, '/'), '/');
    if ParsePath(path).Some? {
      assert Components(ParsePath(path).value) == parts;
    }
    forall other | Routable(other) && Join(other, '/') == Trim(path, '/') ensures other == parts {
      SplitOfJoin(other, '/');
    }
  }
}

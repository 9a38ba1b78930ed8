/** internal/gateway/metrics.go: which label values reach Prometheus, and how many there can ever be. */
module Metrics {

  import opened Sets
  import opened Text

  const SERVER_LIMIT := 256
  const AGENT_LIMIT := 128

  // ---------- permanent admission ----------

  function Admit(limit: nat, values: set<string>, value: string): (r: (bool, set<string>))
    ensures values <= r.1
    ensures r.0 <==> value in r.1
    ensures |values| <= limit ==> |r.1| <= limit
  {
    if value in values then (true, values)
    else if |values| >= limit then (false, values)
    else (true, values + {value})
  }

  class BoundedLabels {
    const limit: nat
    var values: set<string>

    constructor (limit: nat)
      ensures this.limit == limit && values == {}
    {
      this.limit, values := limit, {};
    }

    method TryAdmit(value: string) returns (ok: bool)
      modifies this
      ensures (ok, values) == Admit(limit, old(values), value)
    {
      if value in values {
        return true;
      }
      if |values| >= limit {
        return false;
      }
      values := values + {value};
      ok := true;
    }
  }

  /** The admitted values after the first k calls of h. */
  function ValuesAt(limit: nat, h: seq<string>, k: nat): set<string>
    requires k <= |h|
  {
    if k == 0 then {} else Admit(limit, ValuesAt(limit, h, k - 1), h[k - 1]).1
  }

  function DecisionAt(limit: nat, h: seq<string>, k: nat): bool
    requires k < |h|
  {
    Admit(limit, ValuesAt(limit, h, k), h[k]).0
  }

  function Distinct(h: seq<string>, k: nat): set<string>
    requires k <= |h|
  {
    set i | 0 <= i < k :: h[i]
  }

  /** Call i is the first with its value. */
  ghost predicate First(h: seq<string>, i: nat)
    requires i < |h|
  {
    h[i] !in Distinct(h, i)
  }

  lemma {:induction false} DistinctGrows(h: seq<string>, k: nat)
    requires k < |h|
    ensures Distinct(h, k + 1) == Distinct(h, k) + {h[k]}
  {
  }

  lemma {:induction false} AdmitStep(limit: nat, values: set<string>, seen: set<string>, value: string)
    requires values <= seen && |values| <= limit && (|values| < limit ==> values == seen)
    ensures var now := Admit(limit, values, value).1;
      now <= seen + {value} && (|now| < limit ==> now == seen + {value}) && (forall x :: x in seen && x in now ==> x in values)
  {
    SubsetSize(values, seen);
  }

  lemma {:induction false} ValuesStep(limit: nat, h: seq<string>, k: nat)
    requires k < |h|
    ensures (DecisionAt(limit, h, k), ValuesAt(limit, h, k + 1)) == Admit(limit, ValuesAt(limit, h, k), h[k])
  {
  }

  /** Until the limit is reached every value is admitted; then none more. */
  lemma {:induction false} ValuesExact(limit: nat, h: seq<string>, k: nat)
    requires k <= |h|
    ensures var values := ValuesAt(limit, h, k);
      values <= Distinct(h, k) && |values| <= limit && (|values| < limit ==> values == Distinct(h, k))
  {
    if k > 0 {
      var j: nat := k - 1;
      ValuesExact(limit, h, j);
      ValuesStep(limit, h, j);
      DistinctGrows(h, j);
      AdmitStep(limit, ValuesAt(limit, h, j), Distinct(h, j), h[j]);
    }
  }

  lemma {:induction false} ValuesGrow(limit: nat, h: seq<string>, i: nat, k: nat)
    requires i <= k <= |h|
    ensures ValuesAt(limit, h, i) <= ValuesAt(limit, h, k)
    decreases k
  {
    if i < k {
      var j: nat := k - 1;
      ValuesGrow(limit, h, i, j);
      ValuesStep(limit, h, j);
    }
  }

  /** A value's decision is made at its first call and never changes: it is admitted exactly if fewer than limit
      distinct values came before that call. */
  lemma {:induction false} DecisionIsPermanent(limit: nat, h: seq<string>, i: nat, k: nat)
    requires i <= k < |h| && h[i] == h[k] && First(h, i)
    ensures DecisionAt(limit, h, k) <==> |Distinct(h, i)| < limit
  {
    hide ValuesAt, DecisionAt, Admit;
    FirstDecision(limit, h, i);
    if i < k {
      ValuesStep(limit, h, i);
      ValuesStep(limit, h, k);
      ValuesGrow(limit, h, i + 1, k);
      ValuesExact(limit, h, k);
      if !DecisionAt(limit, h, i) { SubsetSize(ValuesAt(limit, h, i), ValuesAt(limit, h, k)); }
    }
  }

  lemma {:induction false} FirstDecision(limit: nat, h: seq<string>, i: nat)
    requires i < |h| && First(h, i)
    ensures DecisionAt(limit, h, i) <==> |Distinct(h, i)| < limit
    ensures !DecisionAt(limit, h, i) ==> |ValuesAt(limit, h, i)| == limit && ValuesAt(limit, h, i + 1) == ValuesAt(limit, h, i)
  {
    ValuesStep(limit, h, i);
    ValuesExact(limit, h, i);
    SubsetSize(ValuesAt(limit, h, i), Distinct(h, i));
  }

  // ---------- the series of the request counter ----------

  /** How far a request got before it was recorded. */
  datatype Reach = Unauthenticated | Unresolved(endpoint: string) | Server(namespace: string, name: string, endpoint: string)

  type Pair = (string, string)

  /** ((namespace, server), endpoint), (status, result) */
  type Series = ((Pair, string), (string, string))

  const CODES: seq<int> := [200, 201, 202, 204, 400, 401, 403, 404, 405, 409, 429, 500, 502, 503, 504]

  function FamilyLabel(c: int): string {
    Int(c) + "xx"
  }

  function StatusLabel(status: int): string {
    if status in CODES then Int(status)
    else if 100 <= status <= 599 then FamilyLabel(status / 100)
    else "other"
  }

  function EndpointLabel(endpoint: string): string {
    if endpoint == "mcp" then "mcp" else "other"
  }

  function ResultLabel(completed: bool): string {
    if completed then "complete" else "aborted"
  }

  function PairKey(pair: Pair): string {
    pair.0 + ['/'] + pair.1
  }

  const UNAUTHENTICATED: Pair := ("", "_unauthenticated")
  const UNRESOLVED: Pair := ("", "_unresolved")
  const OVERFLOW: Pair := ("_overflow", "_overflow")

  /** The server labels of a request, and the admitted servers afterwards. */
  function PairStep(admitted: set<string>, reach: Reach): (Pair, set<string>) {
    match reach
    case Unauthenticated => (UNAUTHENTICATED, admitted)
    case Unresolved(_) => (UNRESOLVED, admitted)
    case Server(namespace, name, _) =>
      var (ok, admitted') := Admit(SERVER_LIMIT, admitted, PairKey((namespace, name)));
      (if ok then (namespace, name) else OVERFLOW, admitted')
  }

  function EndpointOf(reach: Reach): string {
    if reach.Unauthenticated? then "other" else EndpointLabel(reach.endpoint)
  }

  /** What requests do to the metrics, in the order in which it happens: a request comes to a point where it is to be
      recorded under other labels than before, or it ends and is recorded. Requests run at once, so there may be any
      events of others in between. */
  datatype Event = Reached(id: nat, reach: Reach) | Ended(id: nat, status: int, completed: bool)

  /** labels holds those that each open request would now be recorded under. */
  datatype Meter = Meter(admitted: set<string>, labels: map<nat, (Pair, string)>, series: set<Series>)

  function SeriesOf(tag: (Pair, string), status: int, completed: bool): Series {
    (tag, (StatusLabel(status), ResultLabel(completed)))
  }

  function MeterStep(m: Meter, e: Event): Meter {
    match e
    case Reached(id, reach) =>
      var (pair, admitted) := PairStep(m.admitted, reach);
      m.(admitted := admitted, labels := m.labels[id := (pair, EndpointOf(reach))])
    case Ended(id, status, completed) =>
      if id !in m.labels then m
      else m.(labels := m.labels - {id}, series := m.series + {SeriesOf(m.labels[id], status, completed)})
  }

  /** The metrics after the first k events of h. */
  function MeterAt(h: seq<Event>, k: nat): Meter
    requires k <= |h|
  {
    if k == 0 then Meter({}, map[], {}) else MeterStep(MeterAt(h, k - 1), h[k - 1])
  }

  // ---------- counting ----------

  function Product<A, B>(a: set<A>, b: set<B>): set<(A, B)> {
    set x, y | x in a && y in b :: (x, y)
  }

  lemma {:induction false} RowSize<A, B>(x: A, b: set<B>)
    ensures |Product({x}, b)| <= |b|
    decreases b
  {
    if b == {} {
      assert Product({x}, b) == {};
    } else {
      var y :| y in b;
      RowSize(x, b - {y});
      assert Product({x}, b) == Product({x}, b - {y}) + {(x, y)};
    }
  }

  lemma {:induction false} OneMoreRow(m: nat, n: nat)
    ensures m * n + n == (m + 1) * n
  {
  }

  lemma {:induction false} ProductSize<A, B>(a: set<A>, b: set<B>)
    ensures |Product(a, b)| <= |a| * |b|
    decreases a
  {
    if a == {} {
      assert Product(a, b) == {};
    } else {
      var x :| x in a;
      var rest := a - {x};
      ProductSize(rest, b);
      RowSize(x, b);
      assert Product(a, b) == Product(rest, b) + Product({x}, b);
      UnionSize(Product(rest, b), Product({x}, b));
      OneMoreRow(|rest|, |b|);
    }
  }

  /** Namespaces have no slash, so the pair can be read back from its key. */
  lemma {:induction false} PairKeyInjective(p: Pair, q: Pair)
    requires FreeOf(p.0, '/') && FreeOf(q.0, '/') && PairKey(p) == PairKey(q)
    ensures p == q
  {
    SplitHead(p.0, p.1, '/');
    SplitHead(q.0, q.1, '/');
    JoinOfSplit(p.1, '/');
    JoinOfSplit(q.1, '/');
    assert ([p.0] + Split(p.1, '/'))[1..] == Split(p.1, '/') == ([q.0] + Split(q.1, '/'))[1..] == Split(q.1, '/');
  }

  /** With slashes allowed, two servers share a key and both get through on one admission. */
  lemma {:induction false} SlashesShareAKey()
    ensures PairKey(("a/b", "c")) == PairKey(("a", "b/c")) && ("a/b", "c") != ("a", "b/c")
    ensures PairStep(PairStep({}, Server("a/b", "c", "")).1, Server("a", "b/c", "")) == (("a", "b/c"), {PairKey(("a", "b/c"))})
  {
    assert "a/b" + ['/'] + "c" == "a" + ['/'] + "b/c";
    assert "a/b"[1] == '/' && |"a/b"| != |"a"|;
  }

  ghost predicate Names(e: Event) {
    e.Reached? && e.reach.Server?
  }

  ghost predicate SlashFree(h: seq<Event>) {
    forall i :: 0 <= i < |h| && Names(h[i]) ==> FreeOf(h[i].reach.namespace, '/')
  }

  /** The servers that the first k events named and that are admitted. */
  ghost function AdmittedPairs(h: seq<Event>, k: nat): set<Pair>
    requires k <= |h|
  {
    set i | 0 <= i < k && Names(h[i]) && PairKey((h[i].reach.namespace, h[i].reach.name)) in MeterAt(h, k).admitted
      :: (h[i].reach.namespace, h[i].reach.name)
  }

  ghost function Pairs(h: seq<Event>, k: nat): set<Pair>
    requires k <= |h|
  {
    AdmittedPairs(h, k) + {UNAUTHENTICATED, UNRESOLVED, OVERFLOW}
  }

  lemma {:induction false} PairsBounded(h: seq<Event>, k: nat)
    requires k <= |h| && SlashFree(h)
    ensures |Pairs(h, k)| <= SERVER_LIMIT + 3
  {
    hide MeterAt;
    AdmittedBounded(h, k);
    var pairs := AdmittedPairs(h, k);
    forall p, q | p in pairs && q in pairs && PairKey(p) == PairKey(q) ensures p == q {
      PairKeyInjective(p, q);
    }
    InjectionSize(pairs, MeterAt(h, k).admitted, PairKey);
  }

  lemma {:induction false} AdmittedBounded(h: seq<Event>, k: nat)
    requires k <= |h|
    ensures |MeterAt(h, k).admitted| <= SERVER_LIMIT
  {
    if k > 0 { AdmittedBounded(h, k - 1); }
  }

  lemma {:induction false} AdmittedGrow(m: Meter, e: Event)
    ensures m.admitted <= MeterStep(m, e).admitted
  {
  }

  lemma {:induction false} PairsGrow(h: seq<Event>, k: nat)
    requires k < |h|
    ensures Pairs(h, k) <= Pairs(h, k + 1)
    ensures h[k].Reached? ==> PairStep(MeterAt(h, k).admitted, h[k].reach).0 in Pairs(h, k + 1)
  {
    hide Admit, PairKey;
    AdmittedGrow(MeterAt(h, k), h[k]);
    AdmittedPairsGrow(h, k);
    if Names(h[k]) {
      var pair := (h[k].reach.namespace, h[k].reach.name);
      if PairStep(MeterAt(h, k).admitted, h[k].reach).0 == pair && pair != OVERFLOW {
        assert PairKey(pair) in MeterAt(h, k + 1).admitted;
      }
    }
  }

  lemma {:induction false} AdmittedPairsGrow(h: seq<Event>, k: nat)
    requires k < |h| && MeterAt(h, k).admitted <= MeterAt(h, k + 1).admitted
    ensures AdmittedPairs(h, k) <= AdmittedPairs(h, k + 1)
  {
    hide MeterAt;
  }

  const ENDPOINTS: set<string> := {"mcp", "other"}
  const RESULTS: set<string> := {"complete", "aborted"}

  const FAMILIES: seq<int> := [1, 2, 3, 4, 5]

  ghost function LabelsOf(codes: seq<int>, families: seq<int>): set<string> {
    (set c | c in codes :: Int(c)) + (set c | c in families :: FamilyLabel(c)) + {"other"}
  }

  ghost function StatusLabels(): set<string> {
    LabelsOf(CODES, FAMILIES)
  }

  lemma {:induction false} LabelsOfSize(codes: seq<int>, families: seq<int>)
    ensures |LabelsOf(codes, families)| <= |codes| + |families| + 1
  {
    var a, b := set c | c in codes :: Int(c), set c | c in families :: FamilyLabel(c);
    var number, family := Int, FamilyLabel;
    forall y | y in a ensures exists x :: x in codes && number(x) == y {
      var x :| x in codes && Int(x) == y;
      assert number(x) == y;
    }
    forall y | y in b ensures exists x :: x in families && family(x) == y {
      var x :| x in families && FamilyLabel(x) == y;
      assert family(x) == y;
    }
    ImageOfSeqSize(codes, number, a);
    ImageOfSeqSize(families, family, b);
    UnionSize(a, b);
    UnionSize(a + b, {"other"});
  }

  lemma {:induction false} StatusLabelsBounded()
    ensures |StatusLabels()| <= 21
  {
    LabelsOfSize(CODES, FAMILIES);
    assert |CODES| == 15 && |FAMILIES| == 5;
  }

  lemma {:induction false} StatusLabelKnown(status: int)
    ensures StatusLabel(status) in StatusLabels()
  {
    if status !in CODES && 100 <= status <= 599 {
      assert status / 100 in FAMILIES;
    }
  }

  ghost function AllSeries(pairs: set<Pair>): set<Series> {
    Product(Product(pairs, ENDPOINTS), Product(StatusLabels(), RESULTS))
  }

  lemma {:induction false} AllSeriesGrow(p: set<Pair>, q: set<Pair>)
    requires p <= q
    ensures AllSeries(p) <= AllSeries(q)
  {
    assert Product(p, ENDPOINTS) <= Product(q, ENDPOINTS);
  }

  ghost predicate LabelsFrom(pairs: set<Pair>, tag: (Pair, string)) {
    tag.0 in pairs && tag.1 in ENDPOINTS
  }

  lemma {:induction false} InAllSeries(pairs: set<Pair>, tag: (Pair, string), status: int, completed: bool)
    requires LabelsFrom(pairs, tag)
    ensures SeriesOf(tag, status, completed) in AllSeries(pairs)
  {
    hide StatusLabel, StatusLabels;
    StatusLabelKnown(status);
    assert tag in Product(pairs, ENDPOINTS);
    assert (StatusLabel(status), ResultLabel(completed)) in Product(StatusLabels(), RESULTS);
  }

  /** Everything recorded, and everything about to be, is under one of these pairs. */
  ghost predicate Within(m: Meter, pairs: set<Pair>) {
    m.series <= AllSeries(pairs) && forall id :: id in m.labels ==> LabelsFrom(pairs, m.labels[id])
  }

  lemma {:induction false} WithinStep(m: Meter, e: Event, p: set<Pair>, q: set<Pair>)
    requires Within(m, p) && p <= q && (e.Reached? ==> PairStep(m.admitted, e.reach).0 in q)
    ensures Within(MeterStep(m, e), q)
  {
    hide AllSeries, PairStep, SeriesOf;
    AllSeriesGrow(p, q);
    if e.Ended? && e.id in m.labels { InAllSeries(q, m.labels[e.id], e.status, e.completed); }
  }

  lemma {:induction false} SeriesWithin(h: seq<Event>, k: nat)
    requires k <= |h|
    ensures Within(MeterAt(h, k), Pairs(h, k))
  {
    hide Within, MeterStep, Pairs;
    if k > 0 {
      var j: nat := k - 1;
      SeriesWithin(h, j);
      PairsGrow(h, j);
      WithinStep(MeterAt(h, j), h[j], Pairs(h, j), Pairs(h, k));
    } else {
      WithinStarts(Pairs(h, 0));
    }
  }

  lemma {:induction false} WithinStarts(pairs: set<Pair>)
    ensures Within(Meter({}, map[], {}), pairs)
  {
  }

  lemma {:induction false} AllSeriesSize(pairs: set<Pair>)
    requires |pairs| <= SERVER_LIMIT + 3
    ensures |AllSeries(pairs)| <= 259 * 2 * 21 * 2
  {
    StatusLabelsBounded();
    ProductSize(pairs, ENDPOINTS);
    ProductSize(StatusLabels(), RESULTS);
    var left, right := Product(pairs, ENDPOINTS), Product(StatusLabels(), RESULTS);
    Multiply(|pairs|, 259, |ENDPOINTS|, 2);
    Multiply(|StatusLabels()|, 21, |RESULTS|, 2);
    ProductSize(left, right);
    Multiply(|left|, 259 * 2, |right|, 21 * 2);
  }

  lemma {:induction false} Multiply(a: nat, b: nat, c: nat, d: nat)
    requires a <= b && c <= d
    ensures a * c <= b * d
  {
    assert a * c <= b * c <= b * d;
  }

  /** However the events of concurrent requests interleave, the request counter never has more than
      259 * 2 * 21 * 2 series. */
  lemma {:induction false} SeriesBounded(h: seq<Event>, k: nat)
    requires k <= |h| && SlashFree(h)
    ensures |MeterAt(h, k).series| <= 259 * 2 * 21 * 2
  {
    hide MeterAt, AllSeries, Pairs;
    SeriesWithin(h, k);
    PairsBounded(h, k);
    AllSeriesSize(Pairs(h, k));
    SubsetSize(MeterAt(h, k).series, AllSeries(Pairs(h, k)));
  }

  // ---------- what is recorded ----------

  /** The fifteen common codes by number, other codes of HTTP by family, and anything else as other. */
  ghost predicate CodeText(status: int, text: string) {
    if status in {200, 201, 202, 204, 400, 401, 403, 404, 405, 409, 429, 500, 502, 503, 504} then
      |text| == 3 && Value(text) == status
    else if 100 <= status < 600 then
      |text| == 3 && Value(text[..1]) == status / 100 && text[1..] == "xx"
    else text == "other"
  }

  lemma {:induction false} ThreeDigits(n: nat)
    requires 100 <= n <= 999
    ensures |Int(n)| == 3 && Value(Int(n)) == n
  {
    DecimalReads(n);
    assert |Decimal(n / 100)| == 1;
    assert |Decimal(n / 10)| == 2;
  }

  lemma {:induction false} OneDigit(n: nat)
    requires n <= 9
    ensures |Int(n)| == 1 && Value(Int(n)) == n
  {
    DecimalReads(n);
  }

  lemma {:induction false} StatusLabelExact(status: int)
    ensures CodeText(status, StatusLabel(status))
  {
    hide Int, Value;
    if status in CODES {
      ThreeDigits(status);
    } else if 100 <= status <= 599 {
      OneDigit(status / 100);
      assert StatusLabel(status)[..1] == Int(status / 100) && StatusLabel(status)[1..] == "xx";
    }
  }

  /** The server's own names only if it was admitted, and nothing of a request that was not authenticated. */
  ghost predicate Labelled(tag: (Pair, string), reach: Reach, own: bool) {
    match reach
    case Unauthenticated => tag == (("", "_unauthenticated"), "other")
    case Unresolved(endpoint) => tag == (("", "_unresolved"), if endpoint == "mcp" then "mcp" else "other")
    case Server(namespace, name, endpoint) =>
      tag == (if own then (namespace, name) else ("_overflow", "_overflow"), if endpoint == "mcp" then "mcp" else "other")
  }

  ghost predicate SeriesText(x: Series, reach: Reach, own: bool, status: int, completed: bool) {
    && Labelled(x.0, reach, own) && CodeText(status, x.1.0)
    && x.1.1 == if completed then "complete" else "aborted"
  }

  /** Whether the server that event i names is admitted when it does. */
  ghost predicate OwnName(h: seq<Event>, i: nat)
    requires i < |h|
  {
    Names(h[i]) && PairKey((h[i].reach.namespace, h[i].reach.name)) in MeterAt(h, i + 1).admitted
  }

  /** Event i is where the request that may end at j got to. */
  ghost predicate LastReach(h: seq<Event>, i: nat, j: nat, id: nat)
    requires j <= |h|
  {
    i < j && h[i].Reached? && h[i].id == id && forall k :: i < k < j ==> h[k].id != id
  }

  ghost predicate RecordedBy(h: seq<Event>, i: nat, j: nat, x: Series)
    requires i < j < |h|
  {
    && h[j].Ended? && LastReach(h, i, j, h[j].id)
    && x == SeriesOf(LabelAt(h, i), h[j].status, h[j].completed)
    && SeriesText(x, h[i].reach, OwnName(h, i), h[j].status, h[j].completed)
  }

  ghost function LabelAt(h: seq<Event>, i: nat): (Pair, string)
    requires i < |h|
  {
    if h[i].Reached? then (PairStep(MeterAt(h, i).admitted, h[i].reach).0, EndpointOf(h[i].reach)) else (OVERFLOW, "other")
  }

  lemma {:induction false} LabelAtExact(h: seq<Event>, i: nat)
    requires i < |h| && h[i].Reached?
    ensures Labelled(LabelAt(h, i), h[i].reach, OwnName(h, i))
  {
    hide PairKey;
  }

  /** An open request would be recorded under the labels of where it got to last. */
  lemma {:induction false} OpenLabels(h: seq<Event>, k: nat, id: nat)
    requires k <= |h|
    ensures id in MeterAt(h, k).labels <==> exists i: nat :: LastReach(h, i, k, id)
    ensures forall i: nat :: LastReach(h, i, k, id) ==> id in MeterAt(h, k).labels && MeterAt(h, k).labels[id] == LabelAt(h, i)
  {
    hide PairStep, EndpointOf, SeriesOf;
    if k > 0 {
      var j: nat := k - 1;
      OpenLabels(h, j, id);
      assert forall i: nat :: i < j ==> (LastReach(h, i, k, id) <==> LastReach(h, i, j, id) && h[j].id != id);
      assert LastReach(h, j, k, id) <==> h[j].Reached? && h[j].id == id;
      if id in MeterAt(h, k).labels && h[j].id != id {
        var i: nat :| LastReach(h, i, j, id);
        assert LastReach(h, i, k, id);
      }
    }
  }

  /** Every series stands for a request that ended, under the labels of where it got to, its status and whether it was
      completed; and every request that ended has one. */
  lemma {:induction false} RecordedExact(h: seq<Event>, k: nat, x: Series)
    requires k <= |h|
    ensures x in MeterAt(h, k).series <==> exists i: nat, j: nat :: i < j < k && RecordedBy(h, i, j, x)
  {
    hide PairStep, EndpointOf, SeriesText, SeriesOf, LastReach, LabelAt;
    if k > 0 {
      var n: nat := k - 1;
      RecordedExact(h, n, x);
      var e := h[n];
      if e.Ended? {
        OpenLabels(h, n, e.id);
        forall i: nat | LastReach(h, i, n, e.id)
          ensures i < n && h[i].Reached?
            && SeriesText(SeriesOf(LabelAt(h, i), e.status, e.completed), h[i].reach, OwnName(h, i), e.status, e.completed)
        {
          EndedText(h, i, n);
        }
        if e.id in MeterAt(h, n).labels && x == SeriesOf(MeterAt(h, n).labels[e.id], e.status, e.completed) {
          var i: nat :| LastReach(h, i, n, e.id);
          assert RecordedBy(h, i, n, x);
        }
      }
    }
  }

  lemma {:induction false} EndedText(h: seq<Event>, i: nat, j: nat)
    requires j < |h| && h[j].Ended? && LastReach(h, i, j, h[j].id)
    ensures i < j && h[i].Reached?
    ensures SeriesText(SeriesOf(LabelAt(h, i), h[j].status, h[j].completed), h[i].reach, OwnName(h, i), h[j].status, h[j].completed)
  {
    hide LabelAt, OwnName, CodeText;
    LabelAtExact(h, i);
    StatusLabelExact(h[j].status);
  }

  /** The keys of the servers that the first k events name. */
  ghost function KeysNamed(h: seq<Event>, k: nat): seq<string>
    requires k <= |h|
  {
    if k == 0 then []
    else
      KeysNamed(h, k - 1)
        + if Names(h[k - 1]) then [h[k - 1].reach.namespace + "/" + h[k - 1].reach.name] else []
  }

  lemma {:induction false} ValuesPrefix(limit: nat, h: seq<string>, more: seq<string>, k: nat)
    requires k <= |h|
    ensures ValuesAt(limit, h + more, k) == ValuesAt(limit, h, k)
  {
    if k > 0 { ValuesPrefix(limit, h, more, k - 1); }
  }

  lemma {:induction false} AdmittedAre(h: seq<Event>, k: nat)
    requires k <= |h|
    ensures MeterAt(h, k).admitted == ValuesAt(256, KeysNamed(h, k), |KeysNamed(h, k)|)
  {
    hide Admit;
    if k > 0 {
      var j: nat := k - 1;
      AdmittedAre(h, j);
      var keys := KeysNamed(h, j);
      if Names(h[j]) {
        var key := h[j].reach.namespace + "/" + h[j].reach.name;
        assert "/" == ['/'];
        assert KeysNamed(h, k) == keys + [key];
        assert key == PairKey((h[j].reach.namespace, h[j].reach.name));
        ValuesPrefix(256, keys, [key], |keys|);
        ValuesStep(256, keys + [key], |keys|);
      } else {
        assert KeysNamed(h, k) == keys;
      }
    }
  }

  /** A server is recorded under its own name exactly if fewer than 256 other servers were named before it first was. */
  lemma {:induction false} OwnNameIff(h: seq<Event>, i: nat, first: nat)
    requires i < |h| && Names(h[i])
    requires var keys := KeysNamed(h, i + 1); first < |keys| && First(keys, first) && keys[first] == keys[|keys| - 1]
    ensures OwnName(h, i) <==> |Distinct(KeysNamed(h, i + 1), first)| < 256
  {
    var keys := KeysNamed(h, i + 1);
    var last: nat := |keys| - 1;
    AdmittedAre(h, i + 1);
    assert "/" == ['/'];
    DecisionIsPermanent(256, keys, first, last);
    ValuesStep(256, keys, last);
  }

  // ---------- the rate-limit counter ----------

  /** A limited agent is counted under its own name exactly if fewer than 128 others were limited before it first was. */
  lemma {:induction false} AgentLabelExact(h: seq<string>, first: nat, k: nat)
    requires first <= k < |h| && h[first] == h[k] && First(h, first)
    ensures AgentLabel(h, k) == if |Distinct(h, first)| < 128 then h[k] else "_overflow"
  {
    DecisionIsPermanent(AGENT_LIMIT, h, first, k);
  }

  function AgentLabel(h: seq<string>, k: nat): string
    requires k < |h|
  {
    if DecisionAt(AGENT_LIMIT, h, k) then h[k] else "_overflow"
  }

  /** However many agents are limited, the rate-limit counter has at most 129 labels. */
  lemma {:induction false} AgentLabelsBounded(h: seq<string>)
    ensures |set k | 0 <= k < |h| :: AgentLabel(h, k)| <= AGENT_LIMIT + 1
  {
    ValuesExact(AGENT_LIMIT, h, |h|);
    var labels := set k | 0 <= k < |h| :: AgentLabel(h, k);
    var admitted := ValuesAt(AGENT_LIMIT, h, |h|);
    forall k | 0 <= k < |h| ensures AgentLabel(h, k) in admitted + {"_overflow"} {
      ValuesStep(AGENT_LIMIT, h, k);
      ValuesGrow(AGENT_LIMIT, h, k + 1, |h|);
    }
    UnionSize(admitted, {"_overflow"});
    SubsetSize(labels, admitted + {"_overflow"});
  }
}

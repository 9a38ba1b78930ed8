/** latencySummary of internal/democlient/benchmark.go: nearest-rank percentiles of a private sorted copy.
    The rank ceil(p * n) is exact, where the program rounds the product. */
module Percentiles {

  import opened Sets

  datatype LatencySummary = LatencySummary(samples: nat, p50: real, p95: real, p99: real)

  function Insert(x: real, s: seq<real>): seq<real> {
    if s == [] || x <= s[0] then [x] + s else [s[0]] + Insert(x, s[1..])
  }

  /** sort.Float64s on a copy. */
  function SortedCopy(s: seq<real>): (r: seq<real>)
    ensures |r| == |s|
  {
    if s == [] then [] else
      assert forall x, t: seq<real> :: |Insert(x, t)| == |t| + 1 by { forall x, t: seq<real> { InsertSize(x, t); } }
      Insert(s[0], SortedCopy(s[1..]))
  }

  lemma {:induction false} InsertSize(x: real, s: seq<real>)
    ensures |Insert(x, s)| == |s| + 1
  {
    if s != [] && x > s[0] { InsertSize(x, s[1..]); }
  }

  /** ceil(percent / 100 * n) */
  function Rank(percent: nat, n: nat): nat {
    (percent * n + 99) / 100
  }

  lemma {:induction false} RankInRange(percent: nat, n: nat)
    requires 1 <= percent <= 100 && n > 0
    ensures 1 <= Rank(percent, n) <= n
  {
    assert percent * n >= n && percent * n <= 100 * n;
  }

  function Percentile(values: seq<real>, percent: nat): real
    requires values != [] && 1 <= percent <= 100
  {
    RankInRange(percent, |values|);
    SortedCopy(values)[Rank(percent, |values|) - 1]
  }

  function Summary(values: seq<real>): LatencySummary {
    if values == [] then LatencySummary(0, 0.0, 0.0, 0.0)
    else LatencySummary(|values|, Percentile(values, 50), Percentile(values, 95), Percentile(values, 99))
  }

  // ---------- counting ----------

  function CountAtMost(s: seq<real>, v: real): nat {
    if s == [] then 0 else (if s[0] <= v then 1 else 0) + CountAtMost(s[1..], v)
  }

  function CountBelow(s: seq<real>, v: real): nat {
    if s == [] then 0 else (if s[0] < v then 1 else 0) + CountBelow(s[1..], v)
  }

  lemma {:induction false} CountsOfInsert(x: real, s: seq<real>, v: real)
    ensures CountAtMost(Insert(x, s), v) == CountAtMost([x] + s, v)
    ensures CountBelow(Insert(x, s), v) == CountBelow([x] + s, v)
  {
    if s != [] && x > s[0] {
      CountsOfInsert(x, s[1..], v);
      assert ([x] + s)[1..] == s && ([x] + s[1..])[1..] == s[1..];
      assert ([s[0]] + Insert(x, s[1..]))[1..] == Insert(x, s[1..]);
    }
  }

  lemma {:induction false} CountsOfSortedCopy(s: seq<real>, v: real)
    ensures CountAtMost(SortedCopy(s), v) == CountAtMost(s, v)
    ensures CountBelow(SortedCopy(s), v) == CountBelow(s, v)
  {
    if s != [] {
      CountsOfSortedCopy(s[1..], v);
      CountsOfInsert(s[0], SortedCopy(s[1..]), v);
      assert ([s[0]] + SortedCopy(s[1..]))[1..] == SortedCopy(s[1..]);
    }
  }

  ghost predicate Ascending(s: seq<real>) {
    forall i, j :: 0 <= i <= j < |s| ==> s[i] <= s[j]
  }

  lemma {:induction false} InsertAscending(x: real, s: seq<real>)
    requires Ascending(s)
    ensures Ascending(Insert(x, s))
    ensures forall y :: y in Insert(x, s) <==> y == x || y in s
  {
    if s != [] && x > s[0] {
      InsertAscending(x, s[1..]);
      assert forall y :: y in s <==> y == s[0] || y in s[1..];
      var t := Insert(x, s[1..]);
      forall j | 0 <= j < |t| ensures s[0] <= t[j] {
        assert t[j] in t;
        if t[j] != x {
          var i :| 0 <= i < |s[1..]| && s[1..][i] == t[j];
          assert s[1..][i] == s[i + 1];
        }
      }
    }
  }

  lemma {:induction false} SortedCopyAscending(s: seq<real>)
    ensures Ascending(SortedCopy(s))
    ensures forall y :: y in SortedCopy(s) <==> y in s
  {
    if s != [] {
      SortedCopyAscending(s[1..]);
      InsertAscending(s[0], SortedCopy(s[1..]));
      assert forall y :: y in s <==> y == s[0] || y in s[1..];
    }
  }

  lemma {:induction false} CountsInAscending(s: seq<real>, i: nat)
    requires Ascending(s) && i < |s|
    ensures CountAtMost(s, s[i]) >= i + 1
    ensures CountBelow(s, s[i]) <= i
  {
    if i > 0 {
      CountsInAscending(s[1..], i - 1);
    } else {
      NoneBelow(s, s[0]);
    }
  }

  lemma {:induction false} NoneBelow(s: seq<real>, v: real)
    requires forall i :: 0 <= i < |s| ==> v <= s[i]
    ensures CountBelow(s, v) == 0
  {
    if s != [] { NoneBelow(s[1..], v); }
  }

  lemma {:induction false} AtMostLessIsBelow(s: seq<real>, v: real, w: real)
    requires v < w
    ensures CountAtMost(s, v) <= CountBelow(s, w)
  {
    if s != [] { AtMostLessIsBelow(s[1..], v, w); }
  }

  /** At least rank samples are at most v, and fewer than rank are below it. */
  ghost predicate NearestRank(values: seq<real>, rank: nat, v: real) {
    v in values && CountAtMost(values, v) >= rank && CountBelow(values, v) < rank
  }

  /** A percentile is the one value that is a nearest-rank percentile, by counting and without any order. */
  lemma {:induction false} PercentileExact(values: seq<real>, percent: nat, v: real)
    requires values != [] && 1 <= percent <= 100
    ensures v == Percentile(values, percent) <==> NearestRank(values, Rank(percent, |values|), v)
  {
    var sorted, rank, p := SortedCopy(values), Rank(percent, |values|), Percentile(values, percent);
    RankInRange(percent, |values|);
    SortedCopyAscending(values);
    CountsInAscending(sorted, rank - 1);
    CountsOfSortedCopy(values, p);
    assert p in sorted;
    if v < p { AtMostLessIsBelow(values, v, p); }
    if p < v { AtMostLessIsBelow(values, p, v); }
  }

  // ---------- what a summary holds ----------

  ghost function AtMost(values: seq<real>, v: real): set<int> {
    set i | 0 <= i < |values| && values[i] <= v
  }

  ghost function BelowIt(values: seq<real>, v: real): set<int> {
    set i | 0 <= i < |values| && values[i] < v
  }

  /** v is one of the values; at least percent of a hundred of them are at most v, and fewer are below it. */
  ghost predicate IsPercentile(values: seq<real>, percent: nat, v: real) {
    && v in values
    && 100 * |AtMost(values, v)| >= percent * |values|
    && 100 * |BelowIt(values, v)| < percent * |values|
  }

  lemma {:induction false} CountsAreSizes(values: seq<real>, v: real)
    ensures |AtMost(values, v)| == CountAtMost(values, v) && |BelowIt(values, v)| == CountBelow(values, v)
  {
    if values == [] {
      assert AtMost(values, v) == {} && BelowIt(values, v) == {};
    } else {
      var rest := values[1..];
      CountsAreSizes(rest, v);
      ShiftedSize(AtMost(values, v), AtMost(rest, v), values[0] <= v);
      ShiftedSize(BelowIt(values, v), BelowIt(rest, v), values[0] < v);
    }
  }

  ghost function Shifted(positions: set<int>): set<int> {
    set i | i in positions :: i + 1
  }

  lemma {:induction false} ShiftedKeepsSize(positions: set<int>)
    ensures |Shifted(positions)| == |positions|
    decreases positions
  {
    if |positions| == 0 {
      assert positions == {} && Shifted(positions) == {};
    } else {
      var i := Pick(positions);
      var rest := positions - {i};
      ShiftedKeepsSize(rest);
      assert positions == rest + {i} && i + 1 !in Shifted(rest);
      assert forall j :: j in Shifted(positions) <==> j in Shifted(rest) || j == i + 1;
      assert Shifted(positions) == Shifted(rest) + {i + 1};
    }
  }

  /** Positions in the whole, in the tail, and whether the first is among them. */
  lemma {:induction false} ShiftedSize(whole: set<int>, tail: set<int>, first: bool)
    requires forall i :: i in whole <==> (i == 0 && first) || i - 1 in tail
    requires forall i :: i in tail ==> i >= 0
    ensures |whole| == |tail| + if first then 1 else 0
  {
    ShiftedKeepsSize(tail);
    assert forall i :: i in Shifted(tail) <==> i - 1 in tail;
    assert whole == Shifted(tail) + if first then {0} else {};
  }

  /** The rank is the ceiling, so it can be divided out. */
  lemma {:induction false} RankDividesOut(percent: nat, n: nat, count: nat)
    ensures count >= Rank(percent, n) <==> 100 * count >= percent * n
  {
  }

  lemma {:induction false} PercentileMeans(values: seq<real>, percent: nat, v: real)
    requires values != [] && 1 <= percent <= 100
    ensures v == Percentile(values, percent) <==> IsPercentile(values, percent, v)
  {
    hide Percentile, Rank;
    PercentileExact(values, percent, v);
    CountsAreSizes(values, v);
    RankDividesOut(percent, |values|, CountAtMost(values, v));
    RankDividesOut(percent, |values|, CountBelow(values, v));
  }

  /** A summary is the one that has the number of values and their 50th, 95th and 99th nearest-rank percentiles,
      in these fields; and all zeros if there are none. */
  lemma {:induction false} SummaryExact(values: seq<real>, s: LatencySummary)
    ensures s == Summary(values) <==>
      if values == [] then s == LatencySummary(0, 0.0, 0.0, 0.0)
      else
        && s.samples == |values| && IsPercentile(values, 50, s.p50)
        && IsPercentile(values, 95, s.p95) && IsPercentile(values, 99, s.p99)
  {
    hide IsPercentile, Percentile;
    if values != [] {
      PercentileMeans(values, 50, s.p50);
      PercentileMeans(values, 95, s.p95);
      PercentileMeans(values, 99, s.p99);
    }
  }

  lemma {:induction false} PercentilesOrdered(values: seq<real>)
    requires values != []
    ensures var s := Summary(values); s.p50 <= s.p95 <= s.p99
  {
    var n := |values|;
    RankInRange(50, n);
    RankInRange(95, n);
    RankInRange(99, n);
    SortedCopyAscending(values);
  }

  lemma {:induction false} CountsWithout(s: seq<real>, i: nat, v: real)
    requires i < |s|
    ensures CountAtMost(s, v) == CountAtMost(s[..i] + s[i + 1..], v) + if s[i] <= v then 1 else 0
    ensures CountBelow(s, v) == CountBelow(s[..i] + s[i + 1..], v) + if s[i] < v then 1 else 0
  {
    if i == 0 {
      assert s[..0] + s[1..] == s[1..];
    } else {
      CountsWithout(s[1..], i - 1, v);
      var rest := s[..i] + s[i + 1..];
      assert rest[1..] == s[1..][..i - 1] + s[1..][i..];
    }
  }

  lemma {:induction false} MultisetWithout(s: seq<real>, i: nat)
    requires i < |s|
    ensures multiset(s[..i] + s[i + 1..]) == multiset(s) - multiset{s[i]}
  {
    assert s == s[..i] + ([s[i]] + s[i + 1..]);
  }

  lemma {:induction false} CountsOfPermutation(a: seq<real>, b: seq<real>, v: real)
    requires multiset(a) == multiset(b)
    ensures CountAtMost(a, v) == CountAtMost(b, v) && CountBelow(a, v) == CountBelow(b, v)
  {
    if a == [] {
      assert b == [] by { assert |multiset(b)| == 0; }
    } else {
      var i := PositionIn(a, b);
      var a', b' := a[1..], b[..i] + b[i + 1..];
      assert multiset(a') == multiset(b') by {
        MultisetWithout(a, 0);
        MultisetWithout(b, i);
        assert a[..0] + a[1..] == a';
      }
      CountsOfPermutation(a', b', v);
      CountsWithout(b, i, v);
    }
  }

  lemma {:induction false} PositionIn(a: seq<real>, b: seq<real>) returns (i: nat)
    requires multiset(a) == multiset(b) && a != []
    ensures i < |b| && b[i] == a[0]
  {
    assert a[0] in multiset(b);
    i :| 0 <= i < |b| && b[i] == a[0];
  }

  /** The summary does not depend on the order of the samples. */
  lemma {:induction false} SummaryOfPermutation(a: seq<real>, b: seq<real>)
    requires multiset(a) == multiset(b)
    ensures Summary(a) == Summary(b)
  {
    assert |a| == |multiset(a)| == |multiset(b)| == |b|;
    if a != [] {
      SamePercentile(a, b, 50);
      SamePercentile(a, b, 95);
      SamePercentile(a, b, 99);
    }
  }

  lemma {:induction false} SamePercentile(a: seq<real>, b: seq<real>, percent: nat)
    requires multiset(a) == multiset(b) && |a| == |b| && a != [] && 1 <= percent <= 100
    ensures Percentile(a, percent) == Percentile(b, percent)
  {
    var v := Percentile(a, percent);
    PercentileExact(a, percent, v);
    PercentileExact(b, percent, v);
    CountsOfPermutation(a, b, v);
    assert v in multiset(a);
  }
}

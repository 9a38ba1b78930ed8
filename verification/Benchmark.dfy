/** The benchmark engine of internal/democlient/benchmark.go: concurrent workers, aggregation, the phase loop and
    the pairing of direct and gateway measurements. Goroutines are scheduled arbitrarily, the SDK answers
    arbitrarily, and the context may be cancelled between any two steps. */
module Benchmarking {

  import opened Progress
  import opened Percentiles
  import opened Plan
  import opened Text

  /** Counts per category; a multiset stands for the map of counts. */
  type Tally = multiset<string>

  datatype Measurement = Measurement(
    key: PhaseKey, planned: nat, attempts: nat, successes: nat, errors: nat, categories: Tally,
    initErrors: Tally, closeErrors: Tally, warmupAttempts: nat, warmupErrors: Tally,
    completion: LatencySummary, success: LatencySummary, firstProgress: LatencySummary, samples: seq<Sample>)

  // ---------- cancellation ----------

  class Context {
    var cancelled: bool

    constructor ()
      ensures !cancelled
    {
      cancelled := false;
    }

    /** ctx.Err() != nil: it may have become so since anyone last looked, and stays so. */
    method Err() returns (done: bool)
      modifies this
      ensures old(cancelled) ==> cancelled
      ensures done == cancelled
    {
      var now := *;
      if now {
        cancelled := true;
      }
      done := cancelled;
    }
  }

  // ---------- concurrent workers ----------

  /** Worker i's slot holds its calls 0, 1, 2, ... without a gap, no more than it was to make. */
  ghost predicate GapFree(slot: seq<Sample>, worker: nat, calls: nat) {
    |slot| <= calls && forall k :: 0 <= k < |slot| ==> slot[k].worker == worker && slot[k].call == k
  }

  ghost predicate Slots(slots: seq<seq<Sample>>, calls: nat, tool: Tool) {
    forall i :: 0 <= i < |slots| ==> GapFree(slots[i], i, calls) && forall s :: s in slots[i] ==> SoundSample(tool, s)
  }

  lemma {:induction false} SlotGrows(slots: seq<seq<Sample>>, calls: nat, tool: Tool, i: nat, s: Sample)
    requires Slots(slots, calls, tool) && i < |slots| && |slots[i]| < calls && SoundSample(tool, s)
    requires s.worker == i && s.call == |slots[i]|
    ensures Slots(slots[i := slots[i] + [s]], calls, tool)
  {
  }

  /** One call of one worker, with whatever the SDK does. */
  method MakeCall(worker: BenchmarkWorker, tool: Tool, i: nat, call: nat, phase: Phase) returns (sample: Sample)
    modifies worker
    ensures SoundSample(tool, sample) && sample.worker == i && sample.call == call
    ensures worker.sent == old(worker.sent) + if tool == StreamTool then [Token(phase, i, call)] else []
  {
    hide TrackerAt, Notifications, Category, Categorized, Token, SoundSample;
    var x: Exchange := *;
    sample := worker.Call(tool, i, call, phase, x);
    CallIsSound(tool, i, call, phase, x, sample);
  }

  lemma {:induction false} StartsEmpty(n: nat, calls: nat, tool: Tool, phase: Phase)
    ensures Slots(seq(n, _ => []), calls, tool)
    ensures forall i: nat :: Sent(phase, i, tool, 0) == []
  {
  }

  lemma {:induction false} SlotShort(slots: seq<seq<Sample>>, calls: nat, tool: Tool, i: nat)
    requires Slots(slots, calls, tool) && i < |slots|
    ensures |slots[i]| <= calls
  {
  }

  lemma {:induction false} SentStep(before: seq<string>, phase: Phase, worker: nat, tool: Tool, n: nat)
    ensures before + Sent(phase, worker, tool, n) + (if tool == StreamTool then [Token(phase, worker, n)] else [])
         == before + Sent(phase, worker, tool, n + 1)
  {
    hide Token;
  }

  /** parallelWorkers around a worker's call loop: each turn one worker that has not stopped looks at the context
      and makes its next call, or stops. */
  method ParallelCalls(ctx: Context, workers: seq<BenchmarkWorker>, calls: nat, tool: Tool, phase: Phase)
    returns (slots: seq<seq<Sample>>)
    requires forall i :: 0 <= i < |workers| ==> workers[i] as object != ctx
    requires forall i, j :: 0 <= i < j < |workers| ==> workers[i] != workers[j]
    modifies ctx, workers
    ensures forall i :: 0 <= i < |workers| && i < |slots| ==>
      workers[i].sent == old(workers[i].sent) + Sent(phase, i, tool, |slots[i]|)
    ensures |slots| == |workers| && Slots(slots, calls, tool)
    ensures old(ctx.cancelled) ==> ctx.cancelled
    ensures !ctx.cancelled ==> forall i :: 0 <= i < |slots| ==> |slots[i]| == calls
  {
    hide SoundSample, Remaining, Sent, Token, GapFree;
    StartsEmpty(|workers|, calls, tool, phase);
    slots := seq(|workers|, _ => []);
    var running := Below(|workers|);
    while running != {}
      invariant |slots| == |workers| && Slots(slots, calls, tool)
      invariant forall i :: 0 <= i < |workers| ==> workers[i].sent == old(workers[i].sent) + Sent(phase, i, tool, |slots[i]|)
      invariant forall i :: i in running ==> 0 <= i < |workers|
      invariant old(ctx.cancelled) ==> ctx.cancelled
      invariant !ctx.cancelled ==> forall i :: 0 <= i < |slots| && i !in running ==> |slots[i]| == calls
      decreases running, Remaining(slots, calls)
    {
      var i :| i in running;
      var call := |slots[i]|;
      var stop := call == calls;
      if !stop {
        stop := ctx.Err();
      }
      if stop {
        running := running - {i};
      } else {
        var sample := MakeCall(workers[i], tool, i, call, phase);
        SentStep(old(workers[i].sent), phase, i, tool, call);
        SlotShort(slots, calls, tool, i);
        RemainingShrinks(slots, calls, i, sample);
        SlotGrows(slots, calls, tool, i, sample);
        slots := slots[i := slots[i] + [sample]];
      }
    }
  }

  function Below(n: nat): (r: set<nat>)
    ensures forall i :: i in r <==> 0 <= i < n
  {
    if n == 0 then {} else Below(n - 1) + {n - 1}
  }

  ghost function Remaining(slots: seq<seq<Sample>>, calls: nat): nat {
    if slots == [] then 0
    else Remaining(slots[..|slots| - 1], calls) + if |slots[|slots| - 1]| <= calls then calls - |slots[|slots| - 1]| else 0
  }

  lemma {:induction false} RemainingShrinks(slots: seq<seq<Sample>>, calls: nat, i: nat, s: Sample)
    requires i < |slots| && |slots[i]| < calls
    ensures Remaining(slots[i := slots[i] + [s]], calls) == Remaining(slots, calls) - 1
  {
    var next, last := slots[i := slots[i] + [s]], |slots| - 1;
    if i < last {
      RemainingShrinks(slots[..last], calls, i, s);
      assert next[..last] == slots[..last][i := slots[i] + [s]];
    } else {
      assert next[..last] == slots[..last];
    }
  }

  // ---------- collecting the samples ----------

  function Concat(slots: seq<seq<Sample>>): seq<Sample> {
    if slots == [] then [] else Concat(slots[..|slots| - 1]) + slots[|slots| - 1]
  }

  lemma {:induction false} ConcatSize(slots: seq<seq<Sample>>, calls: nat)
    requires forall i :: 0 <= i < |slots| ==> |slots[i]| <= calls
    ensures |Concat(slots)| <= |slots| * calls
    ensures |Concat(slots)| == |slots| * calls <==> forall i :: 0 <= i < |slots| ==> |slots[i]| == calls
  {
    if slots != [] {
      var last := |slots| - 1;
      ConcatSize(slots[..last], calls);
      assert forall i :: 0 <= i < last ==> slots[..last][i] == slots[i];
      OneMoreTime(|slots|, calls);
    }
  }

  /** Worker by worker, and each worker's calls in order. */
  ghost predicate InOrder(samples: seq<Sample>) {
    forall i, j :: 0 <= i < j < |samples| ==>
      samples[i].worker < samples[j].worker || (samples[i].worker == samples[j].worker && samples[i].call < samples[j].call)
  }

  ghost predicate FromWorkersBelow(samples: seq<Sample>, n: nat) {
    forall i :: 0 <= i < |samples| ==> samples[i].worker < n
  }

  lemma {:induction false} ConcatInOrder(slots: seq<seq<Sample>>, calls: nat)
    requires forall i :: 0 <= i < |slots| ==> GapFree(slots[i], i, calls)
    ensures InOrder(Concat(slots)) && FromWorkersBelow(Concat(slots), |slots|)
  {
    if slots != [] {
      var last := |slots| - 1;
      var most := slots[..last];
      forall i | 0 <= i < last ensures GapFree(most[i], i, calls) { assert most[i] == slots[i]; }
      ConcatInOrder(most, calls);
      OrderedAppend(Concat(most), slots[last], last, calls);
    }
  }

  lemma {:induction false} OrderedAppend(samples: seq<Sample>, slot: seq<Sample>, worker: nat, calls: nat)
    requires InOrder(samples) && FromWorkersBelow(samples, worker) && GapFree(slot, worker, calls)
    ensures InOrder(samples + slot) && FromWorkersBelow(samples + slot, worker + 1)
  {
  }

  method Collect(slots: seq<seq<Sample>>) returns (samples: seq<Sample>)
    ensures samples == Concat(slots)
  {
    samples := [];
    for i := 0 to |slots|
      invariant samples == Concat(slots[..i])
    {
      assert slots[..i + 1][..i] == slots[..i];
      samples := samples + slots[i];
    }
    assert slots[..|slots|] == slots;
  }

  // ---------- aggregation ----------

  function Durations(samples: seq<Sample>): seq<real> {
    if samples == [] then [] else Durations(samples[..|samples| - 1]) + [samples[|samples| - 1].duration]
  }

  function Successful(samples: seq<Sample>): seq<Sample> {
    if samples == [] then []
    else
      var last := samples[|samples| - 1];
      Successful(samples[..|samples| - 1]) + if last.error == "" then [last] else []
  }

  function Categories(samples: seq<Sample>): Tally {
    if samples == [] then multiset{}
    else
      var last := samples[|samples| - 1];
      Categories(samples[..|samples| - 1]) + if last.error == "" then multiset{} else multiset{last.error}
  }

  /** The first-progress latencies of the samples that made progress. */
  function FirstProgress(samples: seq<Sample>): seq<real> {
    if samples == [] then []
    else
      var last := samples[|samples| - 1];
      FirstProgress(samples[..|samples| - 1]) + if last.updates > 0 then [last.first.GetOr(0.0)] else []
  }

  /** The counts and summaries of a measurement, as the loop over its samples adds them up. */
  ghost predicate Tallied(m: Measurement) {
    && m.attempts == |m.samples| == m.successes + m.errors
    && m.successes == |Successful(m.samples)|
    && m.categories == Categories(m.samples)
    && m.completion == Summary(Durations(m.samples))
    && m.success == Summary(Durations(Successful(m.samples)))
    && m.firstProgress == Summary(FirstProgress(Successful(m.samples)))
  }

  // ---------- what the counts and summaries mean ----------

  /** The samples that pass the test, by position. */
  ghost function Those(samples: seq<Sample>, test: Sample -> bool): set<int> {
    set i | 0 <= i < |samples| && test(samples[i])
  }

  /** p is the value of one of these samples; at least percent of a hundred of them have at most that value, and
      fewer have less. */
  ghost predicate HasPercentile(samples: seq<Sample>, test: Sample -> bool, value: Sample -> real, percent: nat, p: real) {
    && (exists i :: i in Those(samples, test) && value(samples[i]) == p)
    && 100 * |Those(samples, (x: Sample) => test(x) && value(x) <= p)| >= percent * |Those(samples, test)|
    && 100 * |Those(samples, (x: Sample) => test(x) && value(x) < p)| < percent * |Those(samples, test)|
  }

  /** The summary is over the values of exactly these samples; all zeros if there are none. */
  ghost predicate Summarizes(s: LatencySummary, samples: seq<Sample>, test: Sample -> bool, value: Sample -> real) {
    && s.samples == |Those(samples, test)|
    && if s.samples == 0 then s == LatencySummary(0, 0.0, 0.0, 0.0)
       else
         && HasPercentile(samples, test, value, 50, s.p50)
         && HasPercentile(samples, test, value, 95, s.p95)
         && HasPercentile(samples, test, value, 99, s.p99)
  }

  /** Every sample is an attempt, a success without an error, or an error of its category; the latencies are those of
      all of them, of the successful ones, and the first-progress times of the successful ones that made progress. */
  ghost predicate Aggregated(m: Measurement) {
    && m.attempts == |m.samples| == m.successes + m.errors
    && m.successes == |Those(m.samples, (x: Sample) => x.error == "")|
    && (forall category: string :: m.categories[category] ==
          if category == "" then 0 else |Those(m.samples, (x: Sample) => x.error == category)|)
    && |m.categories| == m.errors
    && Summarizes(m.completion, m.samples, (x: Sample) => true, (x: Sample) => x.duration)
    && Summarizes(m.success, m.samples, (x: Sample) => x.error == "", (x: Sample) => x.duration)
    && Summarizes(m.firstProgress, m.samples, (x: Sample) => x.error == "" && x.updates > 0, (x: Sample) => x.first.GetOr(0.0))
  }

  lemma {:induction false} ThoseStep(samples: seq<Sample>, test: Sample -> bool)
    requires samples != []
    ensures var most, last := samples[..|samples| - 1], samples[|samples| - 1];
      Those(samples, test) == Those(most, test) + if test(last) then {|samples| - 1} else {}
    ensures var most, last := samples[..|samples| - 1], samples[|samples| - 1];
      |Those(samples, test)| == |Those(most, test)| + if test(last) then 1 else 0
  {
  }

  /** The values of the samples that pass the test, in order. */
  ghost function Picked(samples: seq<Sample>, test: Sample -> bool, value: Sample -> real): seq<real> {
    if samples == [] then []
    else
      var last := samples[|samples| - 1];
      Picked(samples[..|samples| - 1], test, value) + if test(last) then [value(last)] else []
  }

  lemma {:induction false} PickedCounts(
    samples: seq<Sample>, test: Sample -> bool, value: Sample -> real, v: real, under: Sample -> bool, below: Sample -> bool)
    requires forall x :: under(x) <==> test(x) && value(x) <= v
    requires forall x :: below(x) <==> test(x) && value(x) < v
    ensures var values := Picked(samples, test, value);
      && |values| == |Those(samples, test)|
      && |AtMost(values, v)| == |Those(samples, under)|
      && |BelowIt(values, v)| == |Those(samples, below)|
  {
    hide AtMost, BelowIt, Those;
    if samples == [] {
      NothingCounted(v);
      NoneThere(test);
      NoneThere(under);
      NoneThere(below);
    } else {
      var most, last := samples[..|samples| - 1], samples[|samples| - 1];
      PickedCounts(most, test, value, v, under, below);
      ThoseStep(samples, test);
      ThoseStep(samples, under);
      ThoseStep(samples, below);
      if test(last) {
        OneMoreValue(Picked(most, test, value), value(last), v);
      } else {
        assert Picked(samples, test, value) == Picked(most, test, value);
      }
    }
  }

  lemma {:induction false} NothingCounted(v: real)
    ensures |AtMost([], v)| == 0 && |BelowIt([], v)| == 0
  {
    assert AtMost([], v) == {} && BelowIt([], v) == {};
  }

  lemma {:induction false} NoneThere(test: Sample -> bool)
    ensures |Those([], test)| == 0
  {
    assert Those([], test) == {};
  }

  lemma {:induction false} OneMoreValue(values: seq<real>, x: real, v: real)
    ensures |AtMost(values + [x], v)| == |AtMost(values, v)| + if x <= v then 1 else 0
    ensures |BelowIt(values + [x], v)| == |BelowIt(values, v)| + if x < v then 1 else 0
  {
    OneMoreAtMost(values, x, v);
    OneMoreBelow(values, x, v);
  }

  lemma {:induction false} OneMoreAtMost(values: seq<real>, x: real, v: real)
    ensures |AtMost(values + [x], v)| == |AtMost(values, v)| + if x <= v then 1 else 0
  {
    var next: set<int> := if x <= v then {|values|} else {};
    assert forall i :: i in AtMost(values + [x], v) <==> i in AtMost(values, v) || i in next;
    assert AtMost(values + [x], v) == AtMost(values, v) + next;
  }

  lemma {:induction false} OneMoreBelow(values: seq<real>, x: real, v: real)
    ensures |BelowIt(values + [x], v)| == |BelowIt(values, v)| + if x < v then 1 else 0
  {
    var next: set<int> := if x < v then {|values|} else {};
    assert forall i :: i in BelowIt(values + [x], v) <==> i in BelowIt(values, v) || i in next;
    assert BelowIt(values + [x], v) == BelowIt(values, v) + next;
  }

  lemma {:induction false} PickedFrom(samples: seq<Sample>, test: Sample -> bool, value: Sample -> real, v: real)
    requires v in Picked(samples, test, value)
    ensures exists i :: i in Those(samples, test) && value(samples[i]) == v
  {
    var most, n := samples[..|samples| - 1], |samples| - 1;
    if test(samples[n]) && value(samples[n]) == v {
      assert n in Those(samples, test);
    } else {
      PickedFrom(most, test, value, v);
      var i :| i in Those(most, test) && value(most[i]) == v;
      assert i in Those(samples, test) && samples[i] == most[i];
    }
  }

  lemma {:induction false} PickedPercentile(
    samples: seq<Sample>, test: Sample -> bool, value: Sample -> real, percent: nat, p: real)
    requires IsPercentile(Picked(samples, test, value), percent, p)
    ensures HasPercentile(samples, test, value, percent, p)
  {
    hide Picked, Those, AtMost, BelowIt;
    PickedCounts(samples, test, value, p, (x: Sample) => test(x) && value(x) <= p, (x: Sample) => test(x) && value(x) < p);
    PickedFrom(samples, test, value, p);
  }

  /** The summary of the values that these samples have. */
  lemma {:induction false} SummaryOfPicked(samples: seq<Sample>, test: Sample -> bool, value: Sample -> real)
    ensures Summarizes(Summary(Picked(samples, test, value)), samples, test, value)
  {
    hide Picked, Summary, IsPercentile, HasPercentile, Those;
    var values := Picked(samples, test, value);
    var s := Summary(values);
    SummaryExact(values, s);
    PickedCounts(samples, test, value, 0.0, (x: Sample) => test(x) && value(x) <= 0.0, (x: Sample) => test(x) && value(x) < 0.0);
    if values != [] {
      PickedPercentile(samples, test, value, 50, s.p50);
      PickedPercentile(samples, test, value, 95, s.p95);
      PickedPercentile(samples, test, value, 99, s.p99);
    }
  }

  lemma {:induction false} DurationsPicked(samples: seq<Sample>, test: Sample -> bool, value: Sample -> real)
    requires forall x :: test(x) && value(x) == x.duration
    ensures Durations(samples) == Picked(samples, test, value)
  {
    if samples != [] { DurationsPicked(samples[..|samples| - 1], test, value); }
  }

  lemma {:induction false} SuccessfulPicked(samples: seq<Sample>, test: Sample -> bool, value: Sample -> real)
    requires forall x :: test(x) <==> x.error == ""
    requires forall x :: value(x) == x.duration
    ensures Durations(Successful(samples)) == Picked(samples, test, value)
    ensures |Successful(samples)| == |Those(samples, test)|
  {
    hide Those, Durations;
    if samples != [] {
      var most := samples[..|samples| - 1];
      SuccessfulPicked(most, test, value);
      ThoseStep(samples, test);
      Append(Successful(most), samples[|samples| - 1]);
      SuccessfulStep(samples);
    } else {
      NoneThere(test);
      NoDurations();
    }
  }

  lemma {:induction false} SuccessfulStep(samples: seq<Sample>)
    requires samples != []
    ensures var most, last := samples[..|samples| - 1], samples[|samples| - 1];
      Successful(samples) == if last.error == "" then Successful(most) + [last] else Successful(most)
  {
  }

  lemma {:induction false} NoDurations()
    ensures Durations([]) == [] && FirstProgress([]) == []
  {
  }

  lemma {:induction false} ProgressPicked(samples: seq<Sample>, test: Sample -> bool, value: Sample -> real)
    requires forall x :: test(x) <==> x.error == "" && x.updates > 0
    requires forall x :: value(x) == x.first.GetOr(0.0)
    ensures FirstProgress(Successful(samples)) == Picked(samples, test, value)
  {
    hide FirstProgress;
    if samples != [] {
      var most := samples[..|samples| - 1];
      ProgressPicked(most, test, value);
      Append(Successful(most), samples[|samples| - 1]);
      SuccessfulStep(samples);
    } else {
      NoDurations();
    }
  }

  lemma {:induction false} CategoriesExact(samples: seq<Sample>, category: string, test: Sample -> bool)
    requires forall x :: test(x) <==> x.error == category
    ensures Categories(samples)[category] == if category == "" then 0 else |Those(samples, test)|
  {
    hide Those;
    if samples != [] {
      CategoriesExact(samples[..|samples| - 1], category, test);
      ThoseStep(samples, test);
    } else {
      NoneThere(test);
    }
  }

  /** What the loop adds up is what the report says it is. */
  lemma {:induction false} TalliedIsAggregated(m: Measurement)
    requires Tallied(m)
    ensures Aggregated(m)
  {
    hide Picked, Summary, Summarizes, Those, Durations, FirstProgress, Successful, Categories;
    var s := m.samples;
    DurationsPicked(s, (x: Sample) => true, (x: Sample) => x.duration);
    SummaryOfPicked(s, (x: Sample) => true, (x: Sample) => x.duration);
    SuccessfulPicked(s, (x: Sample) => x.error == "", (x: Sample) => x.duration);
    SummaryOfPicked(s, (x: Sample) => x.error == "", (x: Sample) => x.duration);
    ProgressPicked(s, (x: Sample) => x.error == "" && x.updates > 0, (x: Sample) => x.first.GetOr(0.0));
    SummaryOfPicked(s, (x: Sample) => x.error == "" && x.updates > 0, (x: Sample) => x.first.GetOr(0.0));
    CategoriesCountErrors(s);
    forall category: string
      ensures m.categories[category] == if category == "" then 0 else |Those(s, (x: Sample) => x.error == category)|
    {
      CategoriesExact(s, category, (x: Sample) => x.error == category);
    }
  }

  lemma {:induction false} CategoriesCountErrors(samples: seq<Sample>)
    ensures |Categories(samples)| == |samples| - |Successful(samples)| && "" !in Categories(samples)
  {
    if samples != [] { CategoriesCountErrors(samples[..|samples| - 1]); }
  }

  lemma {:induction false} Append(s: seq<Sample>, x: Sample)
    ensures Durations(s + [x]) == Durations(s) + [x.duration]
    ensures FirstProgress(s + [x]) == if x.updates > 0 then FirstProgress(s) + [x.first.GetOr(0.0)] else FirstProgress(s)
    ensures Successful(s + [x]) == if x.error == "" then Successful(s) + [x] else Successful(s)
    ensures Categories(s + [x]) == if x.error == "" then Categories(s) else Categories(s) + multiset{x.error}
  {
    assert (s + [x])[..|s|] == s;
  }

  /** The running totals over a prefix of the samples. */
  ghost predicate Totals(
    s: seq<Sample>, successes: nat, errors: nat, categories: Tally, all: seq<real>, successful: seq<real>, progress: seq<real>)
  {
    && successes == |Successful(s)| && errors == |s| - successes && categories == Categories(s)
    && all == Durations(s) && successful == Durations(Successful(s)) && progress == FirstProgress(Successful(s))
  }

  lemma {:induction false} TotalsStep(
    s: seq<Sample>, x: Sample, successes: nat, errors: nat, categories: Tally, all: seq<real>, successful: seq<real>, progress: seq<real>)
    requires Totals(s, successes, errors, categories, all, successful, progress)
    ensures if x.error != "" then
        Totals(s + [x], successes, errors + 1, categories + multiset{x.error}, all + [x.duration], successful, progress)
      else
        Totals(s + [x], successes + 1, errors, categories, all + [x.duration], successful + [x.duration],
               if x.updates > 0 then progress + [x.first.GetOr(0.0)] else progress)
  {
    Append(s, x);
    Append(Successful(s), x);
  }

  lemma {:induction false} TotalsStart()
    ensures Totals([], 0, 0, multiset{}, [], [], [])
  {
  }

  lemma {:induction false} TotalsAreTallied(m: Measurement, all: seq<real>, successful: seq<real>, progress: seq<real>)
    requires Totals(m.samples, m.successes, m.errors, m.categories, all, successful, progress) && m.attempts == |m.samples|
    requires m.completion == Summary(all) && m.success == Summary(successful) && m.firstProgress == Summary(progress)
    ensures Tallied(m)
  {
  }

  method Aggregate(m: Measurement) returns (r: Measurement)
    ensures Aggregated(r)
    ensures r == m.(attempts := r.attempts, successes := r.successes, errors := r.errors, categories := r.categories,
                    completion := r.completion, success := r.success, firstProgress := r.firstProgress)
  {
    hide Totals, Aggregated, Summary, Durations, FirstProgress;
    TotalsStart();
    var samples := m.samples;
    var attempts, successes, errors, categories := 0, 0, 0, multiset{};
    var all, successful, progress := [], [], [];
    for i := 0 to |samples|
      invariant attempts == i
      invariant Totals(samples[..i], successes, errors, categories, all, successful, progress)
    {
      var sample := samples[i];
      TotalsStep(samples[..i], sample, successes, errors, categories, all, successful, progress);
      assert samples[..i] + [sample] == samples[..i + 1];
      attempts := attempts + 1;
      all := all + [sample.duration];
      if sample.error != "" {
        errors := errors + 1;
        categories := categories + multiset{sample.error};
      } else {
        successes := successes + 1;
        successful := successful + [sample.duration];
        if sample.updates > 0 {
          progress := progress + [sample.first.GetOr(0.0)];
        }
      }
    }
    assert samples[..|samples|] == samples;
    r := m.(attempts := attempts, successes := successes, errors := errors, categories := categories,
            completion := Summary(all), success := Summary(successful), firstProgress := Summary(progress));
    TotalsAreTallied(r, all, successful, progress);
    TalliedIsAggregated(r);
  }

  // ---------- one phase ----------

  /** Whatever the schedule and wherever it was cancelled: the samples are the workers' gap-free prefixes, worker by
      worker; there are never more than planned, and as many exactly if no worker stopped early. */
  ghost predicate Accounted(m: Measurement, calls: nat, slots: seq<seq<Sample>>) {
    && |slots| == m.key.concurrency && m.planned == m.key.concurrency * calls
    && Slots(slots, calls, m.key.tool) && m.samples == Concat(slots) && InOrder(m.samples)
    && m.attempts <= m.planned
    && (m.attempts == m.planned <==> forall i :: 0 <= i < |slots| ==> |slots[i]| == calls)
  }

  ghost predicate SoundMeasurement(m: Measurement, calls: nat) {
    Aggregated(m) && exists slots :: Accounted(m, calls, slots)
  }

  lemma {:induction false} SamplesCount(m: Measurement)
    requires Aggregated(m)
    ensures m.attempts == |m.samples|
  {
  }

  lemma {:induction false} SlotsAccounted(m: Measurement, calls: nat, slots: seq<seq<Sample>>)
    requires |slots| == m.key.concurrency && m.planned == m.key.concurrency * calls && Slots(slots, calls, m.key.tool)
    requires m.samples == Concat(slots) && m.attempts == |m.samples|
    ensures Accounted(m, calls, slots)
    ensures (forall i :: 0 <= i < |slots| ==> |slots[i]| == calls) ==> m.attempts == m.planned
  {
    hide Concat, SoundSample;
    ConcatSize(slots, calls);
    ConcatInOrder(slots, calls);
  }

  lemma {:induction false} NothingYet(slots: seq<seq<Sample>>, calls: nat, tool: Tool)
    requires forall i :: 0 <= i < |slots| ==> slots[i] == []
    ensures Slots(slots, calls, tool) && Concat(slots) == []
  {
    if slots != [] { NothingYet(slots[..|slots| - 1], calls, tool); }
  }

  /** How many workers report each category; "" is no error. */
  ghost predicate Counts(t: Tally, outcomes: seq<string>) {
    forall category: string :: t[category] == if category == "" then 0 else |Reporting(outcomes, category)|
  }

  ghost function Reporting(outcomes: seq<string>, category: string): set<int> {
    set i | 0 <= i < |outcomes| && outcomes[i] == category
  }

  lemma {:induction false} ReportingStep(outcomes: seq<string>, next: string, category: string)
    ensures |Reporting(outcomes + [next], category)| == |Reporting(outcomes, category)| + if next == category then 1 else 0
  {
    assert Reporting(outcomes + [next], category)
        == Reporting(outcomes, category) + if next == category then {|outcomes|} else {};
  }

  lemma {:induction false} CountsStep(t: Tally, outcomes: seq<string>, next: string)
    requires Counts(t, outcomes)
    ensures Counts(if next == "" then t else t + multiset{next}, outcomes + [next])
  {
    hide Reporting;
    forall category: string { ReportingStep(outcomes, next, category); }
  }

  lemma {:induction false} CountsNothing()
    ensures Counts(multiset{}, [])
  {
    assert forall category: string :: Reporting([], category) == {};
  }

  /** The loop over what the workers of one parallel round reported. */
  method TallyRound(outcomes: seq<string>) returns (t: Tally)
    ensures Counts(t, outcomes)
  {
    hide Counts;
    t := multiset{};
    CountsNothing();
    for i := 0 to |outcomes|
      invariant Counts(t, outcomes[..i])
    {
      var category := outcomes[i];
      CountsStep(t, outcomes[..i], category);
      assert outcomes[..i] + [category] == outcomes[..i + 1];
      if category != "" {
        t := t + multiset{category};
      }
    }
    assert outcomes[..|outcomes|] == outcomes;
  }

  /** What the workers of one round report. */
  method Outcomes(count: nat) returns (outcomes: seq<string>)
    ensures |outcomes| == count
  {
    outcomes := [];
    for i := 0 to count
      invariant |outcomes| == i
    {
      var category: string := *;
      outcomes := outcomes + [category];
    }
  }

  method NewWorkers(count: nat) returns (workers: seq<BenchmarkWorker>)
    ensures |workers| == count && forall i :: 0 <= i < count ==> fresh(workers[i]) && workers[i].sent == []
    ensures forall i, j :: 0 <= i < j < count ==> workers[i] != workers[j]
  {
    workers := [];
    for i := 0 to count
      invariant |workers| == i && forall j :: 0 <= j < i ==> fresh(workers[j]) && workers[j].sent == []
      invariant forall j, k :: 0 <= j < k < i ==> workers[j] != workers[k]
    {
      var worker := new BenchmarkWorker();
      workers := workers + [worker];
    }
  }

  /** sent are the tokens that each worker sent, warming up and measured. */
  method BenchmarkPhase(ctx: Context, key: PhaseKey, calls: nat, warmup: nat) returns (m: Measurement, ghost sent: seq<seq<string>>)
    modifies ctx
    ensures old(ctx.cancelled) ==> ctx.cancelled
    ensures |sent| == key.concurrency && forall i :: 0 <= i < |sent| ==> NoRepeats(sent[i])
    ensures m.key == key && SoundMeasurement(m, calls)
    ensures !ctx.cancelled && m.initErrors == multiset{} ==> m.attempts == m.planned
    ensures m.initErrors != multiset{} ==> m.samples == [] && m.warmupAttempts == 0
  {
    hide Aggregated, Accounted, Slots, Concat, Summary, Categories, Counts, Sent;
    var workers := NewWorkers(key.concurrency);
    var setup := Outcomes(key.concurrency);
    var initErrors := TallyRound(setup);
    var slots: seq<seq<Sample>> := seq(key.concurrency, _ => []);
    NothingYet(slots, calls, key.tool);
    var warmups: seq<Sample> := [];
    if initErrors == multiset{} {
      var warm := ParallelCalls(ctx, workers, warmup, key.tool, Warmup);
      warmups := Collect(warm);
      assert forall i :: 0 <= i < |workers| ==> workers[i].sent == Sent(Warmup, i, key.tool, |warm[i]|);
      slots := ParallelCalls(ctx, workers, calls, key.tool, Measured);
      forall i | 0 <= i < |workers| ensures NoRepeats(workers[i].sent) {
        NeverSentTwice(i, key.tool, |warm[i]|, |slots[i]|);
        assert workers[i].sent == Sent(Warmup, i, key.tool, |warm[i]|) + Sent(Measured, i, key.tool, |slots[i]|);
      }
    }
    sent := seq(|workers|, i requires 0 <= i < |workers| reads workers => workers[i].sent);
    var samples := Collect(slots);
    var closing := Outcomes(key.concurrency);
    var closeErrors := TallyRound(closing);
    var empty := Summary([]);
    m := Measurement(key, key.concurrency * calls, 0, 0, 0, multiset{}, initErrors, closeErrors,
                     |warmups|, Categories(warmups), empty, empty, empty, samples);
    m := Aggregate(m);
    SamplesCount(m);
    SlotsAccounted(m, calls, slots);
  }

  // ---------- the report ----------

  function Keys(ms: seq<Measurement>): seq<PhaseKey> {
    seq(|ms|, i requires 0 <= i < |ms| => ms[i].key)
  }

  predicate Clean(m: Measurement) {
    m.attempts == m.planned && m.errors == 0
    && m.initErrors == multiset{} && m.closeErrors == multiset{} && m.warmupErrors == multiset{}
  }

  datatype OverheadRecord = OverheadRecord(
    group: Group, completionDelta: LatencySummary, completionPercent: real, progressDelta: LatencySummary)

  function Delta(a: LatencySummary, b: LatencySummary): LatencySummary {
    LatencySummary(a.samples, b.p50 - a.p50, b.p95 - a.p95, b.p99 - a.p99)
  }

  function PairOf(d: Measurement, g: Measurement): OverheadRecord {
    var delta := Delta(d.completion, g.completion);
    OverheadRecord(GroupOf(d.key), delta,
      if d.completion.p50 > 0.0 then 100.0 * delta.p50 / d.completion.p50 else 0.0,
      Delta(d.firstProgress, g.firstProgress))
  }

  /** The gateway phase that a direct phase is compared with. */
  function Partner(key: PhaseKey): PhaseKey {
    key.(target := Gateway)
  }

  function Row(d: Measurement, gs: seq<Measurement>): seq<OverheadRecord> {
    if gs == [] then []
    else
      var g := gs[|gs| - 1];
      Row(d, gs[..|gs| - 1]) + if g.key == Partner(d.key) then [PairOf(d, g)] else []
  }

  function Rows(ds: seq<Measurement>, gs: seq<Measurement>): seq<OverheadRecord> {
    if ds == [] then []
    else
      var d := ds[|ds| - 1];
      Rows(ds[..|ds| - 1], gs) + if d.key.target == Direct then Row(d, gs) else []
  }

  method Overhead(ms: seq<Measurement>) returns (overhead: seq<OverheadRecord>)
    ensures overhead == Rows(ms, ms)
  {
    overhead := [];
    for i := 0 to |ms|
      invariant overhead == Rows(ms[..i], ms)
    {
      var direct := ms[i];
      assert ms[..i + 1][..i] == ms[..i];
      if direct.key.target == Direct {
        ghost var before := overhead;
        for j := 0 to |ms|
          invariant overhead == before + Row(direct, ms[..j])
        {
          var gateway := ms[j];
          assert ms[..j + 1][..j] == ms[..j];
          if gateway.key.target == Gateway && gateway.key.tool == direct.key.tool
             && gateway.key.concurrency == direct.key.concurrency && gateway.key.repetition == direct.key.repetition {
            overhead := overhead + [PairOf(direct, gateway)];
          }
        }
        assert ms[..|ms|] == ms;
      }
    }
    assert ms[..|ms|] == ms;
  }

  /** The differences, second minus first, with the number of samples of the first. */
  ghost predicate Differs(delta: LatencySummary, first: LatencySummary, second: LatencySummary) {
    && delta.samples == first.samples
    && delta.p50 == second.p50 - first.p50 && delta.p95 == second.p95 - first.p95 && delta.p99 == second.p99 - first.p99
  }

  /** The record says how much longer the gateway measurement took than the direct one of the same group. */
  ghost predicate Compares(o: OverheadRecord, d: Measurement, g: Measurement) {
    && d.key.target == Direct && g.key.target == Gateway
    && d.key.concurrency == g.key.concurrency == o.group.concurrency
    && d.key.tool == g.key.tool == o.group.tool
    && d.key.repetition == g.key.repetition == o.group.repetition
    && Differs(o.completionDelta, d.completion, g.completion)
    && Differs(o.progressDelta, d.firstProgress, g.firstProgress)
    && (d.completion.p50 > 0.0 ==>
          o.completionPercent * d.completion.p50 == 100.0 * (g.completion.p50 - d.completion.p50))
    && (d.completion.p50 <= 0.0 ==> o.completionPercent == 0.0)
  }

  ghost predicate Compared(o: OverheadRecord, ds: seq<Measurement>, gs: seq<Measurement>) {
    exists d, g :: d in ds && g in gs && Compares(o, d, g)
  }

  lemma {:induction false} PairCompares(d: Measurement, g: Measurement)
    requires d.key.target == Direct && g.key == Partner(d.key)
    ensures Compares(PairOf(d, g), d, g)
  {
    if d.completion.p50 > 0.0 { Percent(g.completion.p50 - d.completion.p50, d.completion.p50); }
  }

  lemma {:induction false} Percent(x: real, y: real)
    requires y > 0.0
    ensures 100.0 * x / y * y == 100.0 * x
  {
  }

  /** Every record compares two of the measurements. */
  lemma {:induction false} RowsCompare(ds: seq<Measurement>, gs: seq<Measurement>, o: OverheadRecord)
    requires o in Rows(ds, gs)
    ensures Compared(o, ds, gs)
  {
    hide Compares, PairOf;
    var rest, d := ds[..|ds| - 1], ds[|ds| - 1];
    if o in Rows(rest, gs) {
      RowsCompare(rest, gs, o);
      var e, g :| e in rest && g in gs && Compares(o, e, g);
      assert e in ds;
    } else {
      RowExact(d, gs);
      var g :| g in gs && g.key == Partner(d.key) && o == PairOf(d, g);
      PairCompares(d, g);
    }
  }

  lemma {:induction false} RowExact(d: Measurement, gs: seq<Measurement>)
    ensures |Row(d, gs)| == Occurrences(Keys(gs), Partner(d.key))
    ensures forall o :: o in Row(d, gs) ==> exists g :: g in gs && g.key == Partner(d.key) && o == PairOf(d, g)
  {
    if gs != [] {
      var rest, g := gs[..|gs| - 1], gs[|gs| - 1];
      RowExact(d, rest);
      assert Keys(gs)[..|gs| - 1] == Keys(rest);
      forall o | o in Row(d, gs) ensures exists g :: g in gs && g.key == Partner(d.key) && o == PairOf(d, g) {
        if o in Row(d, rest) {
          var g' :| g' in rest && g'.key == Partner(d.key) && o == PairOf(d, g');
          assert g' in gs;
        }
      }
    }
  }

  function GroupsOf(os: seq<OverheadRecord>): seq<Group> {
    seq(|os|, i requires 0 <= i < |os| => os[i].group)
  }

  lemma {:induction false} RowsFollowDirect(ds: seq<Measurement>, gs: seq<Measurement>)
    requires forall d :: d in ds && d.key.target == Direct ==> Occurrences(Keys(gs), Partner(d.key)) == 1
    ensures GroupsOf(Rows(ds, gs)) == DirectGroups(Keys(ds))
  {
    if ds != [] {
      var rest, d := ds[..|ds| - 1], ds[|ds| - 1];
      assert forall x :: x in rest ==> x in ds;
      RowsFollowDirect(rest, gs);
      assert Keys(ds)[..|ds| - 1] == Keys(rest);
      RowExact(d, gs);
      if d.key.target == Direct {
        var row := Row(d, gs);
        assert row[0] in row;
        assert row == [row[0]] && row[0].group == GroupOf(d.key);
      }
    }
  }

  /** A full set of measurements yields exactly one comparison per (concurrency, tool, repetition), in order. */
  lemma {:induction false} OneComparisonPerGroup(ms: seq<Measurement>, ns: seq<nat>, reps: nat)
    requires Distinct(ns) && Keys(ms) == Phases(ns, reps)
    ensures GroupsOf(Rows(ms, ms)) == Groups(ns, reps)
  {
    forall d | d in ms && d.key.target == Direct ensures Occurrences(Keys(ms), Partner(d.key)) == 1 {
      var i: nat :| i < |ms| && ms[i] == d;
      PhasesOnce(ns, reps, d.key);
      PhasesOnce(ns, reps, Partner(d.key));
      Occurs(Keys(ms), i);
    }
    RowsFollowDirect(ms, ms);
    DirectGroupsOfPhases(ns, reps);
  }

  lemma {:induction false} Occurs(keys: seq<PhaseKey>, i: nat)
    requires i < |keys|
    ensures Occurrences(keys, keys[i]) > 0
  {
    if i < |keys| - 1 { Occurs(keys[..|keys| - 1], i); }
  }

  datatype Report = Report(successful: bool, measurements: seq<Measurement>, overhead: seq<OverheadRecord>)

  ghost predicate AllSound(ms: seq<Measurement>, calls: nat) {
    ms == [] || (AllSound(ms[..|ms| - 1], calls) && SoundMeasurement(ms[|ms| - 1], calls))
  }

  predicate AllClean(ms: seq<Measurement>) {
    ms == [] || (AllClean(ms[..|ms| - 1]) && Clean(ms[|ms| - 1]))
  }

  /** Every measurement so far is sound; success means that each is clean and, without a cancellation, nothing else. */
  ghost predicate SoFar(r: Report, calls: nat, cancelled: bool) {
    && AllSound(r.measurements, calls)
    && (r.successful ==> AllClean(r.measurements))
    && (!cancelled && AllClean(r.measurements) ==> r.successful)
  }

  lemma {:induction false} SoFarAppend(r: Report, m: Measurement, calls: nat, before: bool, now: bool)
    requires SoFar(r, calls, before) && SoundMeasurement(m, calls) && (before ==> now)
    ensures SoFar(r.(measurements := r.measurements + [m], successful := r.successful && Clean(m)), calls, now)
  {
    assert (r.measurements + [m])[..|r.measurements|] == r.measurements;
  }

  /** The context may be cancelled since; and a report may be given up when it is. */
  lemma {:induction false} SoFarLater(r: Report, calls: nat, before: bool, now: bool)
    requires SoFar(r, calls, before) && (before ==> now)
    ensures SoFar(r, calls, now)
    ensures now ==> SoFar(r.(successful := false), calls, now)
  {
  }

  lemma {:induction false} SoFarStarts(calls: nat, cancelled: bool)
    ensures SoFar(Report(true, [], []), calls, cancelled)
  {
  }

  /** All calls were made and none of them failed, nor any before or after them. */
  ghost predicate Faultless(m: Measurement) {
    m.attempts == m.planned && m.errors == |m.initErrors| == |m.closeErrors| == |m.warmupErrors| == 0
  }

  lemma {:induction false} CleanIsFaultless(m: Measurement)
    ensures Clean(m) <==> Faultless(m)
  {
  }

  /** What the running invariant says of a finished report. */
  ghost predicate Outcome(r: Report, calls: nat, cancelled: bool) {
    && (forall m :: m in r.measurements ==> SoundMeasurement(m, calls))
    && (r.successful ==> forall m :: m in r.measurements ==> Faultless(m))
    && (!cancelled && (forall m :: m in r.measurements ==> Faultless(m)) ==> r.successful)
  }

  lemma {:induction false} SoFarEnds(r: Report, calls: nat, cancelled: bool)
    requires SoFar(r, calls, cancelled)
    ensures Outcome(r, calls, cancelled)
  {
    hide SoundMeasurement, Clean, Faultless;
    SoFarExact(r.measurements, calls);
    forall m: Measurement { CleanIsFaultless(m); }
  }

  lemma {:induction false} SoFarExact(ms: seq<Measurement>, calls: nat)
    ensures AllSound(ms, calls) <==> forall m :: m in ms ==> SoundMeasurement(m, calls)
    ensures AllClean(ms) <==> forall m :: m in ms ==> Clean(m)
  {
    hide SoundMeasurement, Clean;
    if ms != [] {
      var most, last := ms[..|ms| - 1], ms[|ms| - 1];
      SoFarExact(most, calls);
      assert ms == most + [last];
      assert forall m :: m in ms <==> m in most || m == last;
    }
  }

  lemma {:induction false} KeysAppend(ms: seq<Measurement>, m: Measurement)
    ensures Keys(ms + [m]) == Keys(ms) + [m.key]
  {
  }

  /** One phase, and a look at the context after it. */
  method RunPhase(ctx: Context, calls: nat, warmup: nat, key: PhaseKey, before: Report) returns (r: Report, stopped: bool)
    requires SoFar(before, calls, ctx.cancelled)
    modifies ctx
    ensures (old(ctx.cancelled) ==> ctx.cancelled) && SoFar(r, calls, ctx.cancelled) && r.overhead == before.overhead
    ensures stopped ==> !r.successful && ctx.cancelled
    ensures Keys(r.measurements) == Keys(before.measurements) + [key]
  {
    hide SoFar, SoundMeasurement, Clean, Keys;
    ghost var cancelled := ctx.cancelled;
    var m, _ := BenchmarkPhase(ctx, key, calls, warmup);
    SoFarAppend(before, m, calls, cancelled, ctx.cancelled);
    KeysAppend(before.measurements, m);
    r := before.(measurements := before.measurements + [m], successful := before.successful && Clean(m));
    cancelled := ctx.cancelled;
    stopped := ctx.Err();
    SoFarLater(r, calls, cancelled, ctx.cancelled);
    if stopped {
      r := r.(successful := false);
    }
  }

  /** Both targets of one repetition; stopped when the context was found cancelled after a phase. */
  method RunTargets(ctx: Context, calls: nat, warmup: nat, n: nat, tool: Tool, rep: nat, before: Report)
    returns (r: Report, stopped: bool)
    requires SoFar(before, calls, ctx.cancelled)
    modifies ctx
    ensures (old(ctx.cancelled) ==> ctx.cancelled) && SoFar(r, calls, ctx.cancelled) && r.overhead == before.overhead
    ensures stopped ==> !r.successful && ctx.cancelled
    ensures !stopped ==> Keys(r.measurements) == Keys(before.measurements) + Repetition(n, tool, rep)
  {
    hide SoFar, Keys;
    r, stopped := before, false;
    var targets := [Direct, Gateway];
    if rep % 2 == 0 {
      targets := [targets[1], targets[0]];
    }
    for p := 0 to 2
      invariant (old(ctx.cancelled) ==> ctx.cancelled) && SoFar(r, calls, ctx.cancelled) && r.overhead == before.overhead
      invariant Keys(r.measurements) == Keys(before.measurements) + Repetition(n, tool, rep)[..p]
    {
      var key := PhaseKey(n, tool, rep, targets[p]);
      r, stopped := RunPhase(ctx, calls, warmup, key, r);
      if stopped {
        return;
      }
      assert Repetition(n, tool, rep)[..p + 1] == Repetition(n, tool, rep)[..p] + [key];
    }
    assert Repetition(n, tool, rep)[..2] == Repetition(n, tool, rep);
  }

  method RunRepetitions(ctx: Context, calls: nat, warmup: nat, n: nat, tool: Tool, reps: nat, before: Report)
    returns (r: Report, stopped: bool)
    requires SoFar(before, calls, ctx.cancelled)
    modifies ctx
    ensures (old(ctx.cancelled) ==> ctx.cancelled) && SoFar(r, calls, ctx.cancelled) && r.overhead == before.overhead
    ensures stopped ==> !r.successful && ctx.cancelled
    ensures !stopped ==> Keys(r.measurements) == Keys(before.measurements) + Repetitions(n, tool, reps)
  {
    hide SoFar;
    r, stopped := before, false;
    var rep := 0;
    while rep < reps
      invariant 0 <= rep <= reps
      invariant (old(ctx.cancelled) ==> ctx.cancelled) && SoFar(r, calls, ctx.cancelled) && r.overhead == before.overhead
      invariant Keys(r.measurements) == Keys(before.measurements) + Repetitions(n, tool, rep)
    {
      rep := rep + 1;
      r, stopped := RunTargets(ctx, calls, warmup, n, tool, rep, r);
      if stopped {
        return;
      }
    }
  }

  /** Both tools at one concurrency. */
  method RunTools(ctx: Context, calls: nat, warmup: nat, n: nat, reps: nat, before: Report) returns (r: Report, stopped: bool)
    requires SoFar(before, calls, ctx.cancelled)
    modifies ctx
    ensures (old(ctx.cancelled) ==> ctx.cancelled) && SoFar(r, calls, ctx.cancelled) && r.overhead == before.overhead
    ensures stopped ==> !r.successful && ctx.cancelled
    ensures !stopped ==> Keys(r.measurements) == Keys(before.measurements) + Tools(n, reps)
  {
    hide SoFar, Keys, Repetitions;
    r, stopped := RunRepetitions(ctx, calls, warmup, n, ReadTool, reps, before);
    if !stopped {
      r, stopped := RunRepetitions(ctx, calls, warmup, n, StreamTool, reps, r);
    }
  }

  /** What a report holds when it is written. A successful one has exactly one clean measurement per planned phase,
      in plan order, and the comparison of every direct one with its gateway one. */
  ghost predicate Reported(r: Report, c: Config, cancelled: bool)
    requires Acceptable(c)
  {
    && Outcome(r, c.callsPerWorker, cancelled)
    && (r.successful || !cancelled ==> Keys(r.measurements) == Phases(c.concurrency, c.repetitions))
    && (r.successful ==>
          && (forall o :: o in r.overhead ==> Compared(o, r.measurements, r.measurements))
          && GroupsOf(r.overhead) == Groups(c.concurrency, c.repetitions))
    && (!r.successful ==> r.overhead == [])
  }

  /** The phase loop over a normalized configuration. */
  method RunWorkload(ctx: Context, c: Config) returns (r: Report)
    requires Acceptable(c)
    modifies ctx
    ensures Reported(r, c, ctx.cancelled)
  {
    hide SoFar, SoundMeasurement, Clean, Faultless, Compared, Rows, Groups, GroupsOf;
    var ns: seq<nat>, reps: nat, calls: nat, warmup: nat := c.concurrency, c.repetitions, c.callsPerWorker, c.warmupPerWorker;
    r := Report(true, [], []);
    SoFarStarts(calls, ctx.cancelled);
    var stopped := false;
    for a := 0 to |ns|
      invariant SoFar(r, calls, ctx.cancelled) && r.overhead == []
      invariant Keys(r.measurements) == Phases(ns[..a], reps)
    {
      r, stopped := RunTools(ctx, calls, warmup, ns[a], reps, r);
      if stopped {
        SoFarEnds(r, calls, ctx.cancelled);
        return;
      }
      assert ns[..a + 1][..a] == ns[..a];
    }
    assert ns[..|ns|] == ns;
    SoFarEnds(r, calls, ctx.cancelled);
    if r.successful {
      r := Compare(r, c);
    }
  }

  /** The comparisons of a successful report. */
  method Compare(before: Report, c: Config) returns (r: Report)
    requires Acceptable(c) && before.successful && Keys(before.measurements) == Phases(c.concurrency, c.repetitions)
    ensures r == before.(overhead := r.overhead)
    ensures (forall o :: o in r.overhead ==> Compared(o, r.measurements, r.measurements))
    ensures GroupsOf(r.overhead) == Groups(c.concurrency, c.repetitions)
  {
    hide Keys, Groups, GroupsOf, Compared, Rows, Phases;
    var overhead := Overhead(before.measurements);
    OneComparisonPerGroup(before.measurements, c.concurrency, c.repetitions);
    forall o | o in overhead ensures Compared(o, before.measurements, before.measurements) {
      RowsCompare(before.measurements, before.measurements, o);
    }
    r := before.(overhead := overhead);
  }

  /** The benchmark: whatever the configuration, it is refused without a report if it is not valid, and otherwise run
      with its defaults filled in. */
  method Benchmark(ctx: Context, config: Config, directValid: bool, gatewayValid: bool) returns (r: Option<Report>)
    modifies ctx
    ensures r.Some? <==> Accepts(config, directValid, gatewayValid)
    ensures r.Some? ==> Reported(r.value, WithDefaults(config), ctx.cancelled)
  {
    hide Reported, Acceptable;
    var normalized := Normalize(config, directValid, gatewayValid);
    if normalized.Invalid? {
      return None;
    }
    var report := RunWorkload(ctx, normalized.config);
    r := Some(report);
  }
}

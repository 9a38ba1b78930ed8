/** The workload of internal/democlient/benchmark.go: which phases a configuration plans, and their pairing. */
module Plan {

  import opened Progress

  datatype Target = Direct | Gateway

  datatype PhaseKey = PhaseKey(concurrency: nat, tool: Tool, repetition: nat, target: Target)

  datatype Config = Config(
    directEndpoint: string, gatewayEndpoint: string, tokenFile: string,
    concurrency: seq<int>, callsPerWorker: int, warmupPerWorker: int, repetitions: int, topic: string)

  datatype Normalized = Accepted(config: Config) | Invalid

  // ---------- normalization ----------

  function WithDefaults(c: Config): Config {
    c.(concurrency := if c.concurrency == [] then [1, 4, 8] else c.concurrency,
       callsPerWorker := if c.callsPerWorker == 0 then 20 else c.callsPerWorker,
       warmupPerWorker := if c.warmupPerWorker == 0 then 3 else c.warmupPerWorker,
       repetitions := if c.repetitions == 0 then 2 else c.repetitions,
       topic := if c.topic == "" then "gateway-routing" else c.topic)
  }

  /** What is left out gets its documented value, and nothing else changes. */
  lemma {:induction false} DefaultsFilledIn(c: Config)
    ensures var d := WithDefaults(c);
      && (c.concurrency == [] ==> d.concurrency == [1, 4, 8]) && (c.concurrency != [] ==> d.concurrency == c.concurrency)
      && (c.callsPerWorker == 0 ==> d.callsPerWorker == 20) && (c.callsPerWorker != 0 ==> d.callsPerWorker == c.callsPerWorker)
      && (c.warmupPerWorker == 0 ==> d.warmupPerWorker == 3) && (c.warmupPerWorker != 0 ==> d.warmupPerWorker == c.warmupPerWorker)
      && (c.repetitions == 0 ==> d.repetitions == 2) && (c.repetitions != 0 ==> d.repetitions == c.repetitions)
      && (c.topic == "" ==> d.topic == "gateway-routing") && (c.topic != "" ==> d.topic == c.topic)
      && (d.directEndpoint, d.gatewayEndpoint, d.tokenFile) == (c.directEndpoint, c.gatewayEndpoint, c.tokenFile)
  {
  }

  ghost predicate Distinct(ns: seq<int>) {
    forall i, j :: 0 <= i < j < |ns| ==> ns[i] != ns[j]
  }

  ghost predicate WorkersInRange(ns: seq<int>) {
    forall i :: 0 <= i < |ns| ==> 1 <= ns[i] <= 64
  }

  ghost predicate BoundsOk(c: Config) {
    && (c.topic == "gateway-routing" || c.topic == "rate-limiting")
    && |c.concurrency| <= 8 && 1 <= c.callsPerWorker <= 1000 && 1 <= c.warmupPerWorker <= 100 && 1 <= c.repetitions <= 10
  }

  /** The measured calls of a workload: every worker calls both tools at both targets in every repetition. */
  function Total(ns: seq<int>, calls: int, repetitions: int): int {
    if ns == [] then 0 else Total(ns[..|ns| - 1], calls, repetitions) + ns[|ns| - 1] * calls * repetitions * 4
  }

  ghost predicate Acceptable(c: Config) {
    BoundsOk(c) && WorkersInRange(c.concurrency) && Distinct(c.concurrency)
    && Total(c.concurrency, c.callsPerWorker, c.repetitions) <= 100000
  }

  ghost predicate Accepts(config: Config, directValid: bool, gatewayValid: bool) {
    directValid && gatewayValid && config.directEndpoint != config.gatewayEndpoint && config.tokenFile != ""
    && Acceptable(WithDefaults(config))
  }

  /** directValid and gatewayValid are what validateTarget says about the endpoints. */
  method Normalize(config: Config, directValid: bool, gatewayValid: bool) returns (r: Normalized)
    ensures r.Accepted? <==> Accepts(config, directValid, gatewayValid)
    ensures r.Accepted? ==> r.config == WithDefaults(config)
  {
    if !directValid || !gatewayValid || config.directEndpoint == config.gatewayEndpoint || config.tokenFile == "" {
      return Invalid;
    }
    var c := WithDefaults(config);
    if c.topic != "gateway-routing" && c.topic != "rate-limiting" {
      return Invalid;
    }
    if |c.concurrency| > 8 || c.callsPerWorker < 1 || c.callsPerWorker > 1000
       || c.warmupPerWorker < 1 || c.warmupPerWorker > 100 || c.repetitions < 1 || c.repetitions > 10 {
      return Invalid;
    }
    var ok, total := SumWorkers(c.concurrency, c.callsPerWorker, c.repetitions);
    if !ok || total > 100000 {
      return Invalid;
    }
    r := Accepted(c);
  }

  lemma {:induction false} SumStep(ns: seq<int>, i: nat, calls: int, repetitions: int)
    requires i < |ns| && WorkersInRange(ns[..i]) && Distinct(ns[..i])
    ensures ns[..i + 1] == ns[..i] + [ns[i]]
    ensures 1 <= ns[i] <= 64 && ns[i] !in ns[..i] ==> WorkersInRange(ns[..i + 1]) && Distinct(ns[..i + 1])
    ensures Total(ns[..i + 1], calls, repetitions) == Total(ns[..i], calls, repetitions) + ns[i] * calls * repetitions * 4
  {
    assert ns[..i + 1][..i] == ns[..i];
  }

  lemma {:induction false} SumRefuses(ns: seq<int>, i: nat)
    requires i < |ns| && (ns[i] < 1 || ns[i] > 64 || ns[i] in ns[..i])
    ensures !WorkersInRange(ns) || !Distinct(ns)
  {
  }

  /** The loop over the concurrencies: each in range and new, and the calls they add up to. */
  method SumWorkers(ns: seq<int>, calls: int, repetitions: int) returns (ok: bool, total: int)
    ensures ok <==> WorkersInRange(ns) && Distinct(ns)
    ensures ok ==> total == Total(ns, calls, repetitions)
  {
    total := 0;
    var seen := {};
    for i := 0 to |ns|
      invariant WorkersInRange(ns[..i]) && Distinct(ns[..i])
      invariant forall n :: n in seen <==> n in ns[..i]
      invariant total == Total(ns[..i], calls, repetitions)
    {
      hide WorkersInRange, Distinct, Total;
      var n := ns[i];
      if n < 1 || n > 64 || n in seen {
        SumRefuses(ns, i);
        return false, total;
      }
      SumStep(ns, i, calls, repetitions);
      seen := seen + {n};
      total := total + n * calls * repetitions * 4;
    }
    assert ns[..|ns|] == ns;
    ok := true;
  }

  // ---------- the phases, in order ----------

  /** Both targets; the second repetition swaps them. */
  function Repetition(n: nat, tool: Tool, rep: nat): seq<PhaseKey> {
    if rep % 2 == 0 then [PhaseKey(n, tool, rep, Gateway), PhaseKey(n, tool, rep, Direct)]
    else [PhaseKey(n, tool, rep, Direct), PhaseKey(n, tool, rep, Gateway)]
  }

  function Repetitions(n: nat, tool: Tool, reps: nat): seq<PhaseKey> {
    if reps == 0 then [] else Repetitions(n, tool, reps - 1) + Repetition(n, tool, reps)
  }

  function Tools(n: nat, reps: nat): seq<PhaseKey> {
    Repetitions(n, ReadTool, reps) + Repetitions(n, StreamTool, reps)
  }

  function Phases(ns: seq<nat>, reps: nat): seq<PhaseKey> {
    if ns == [] then [] else Phases(ns[..|ns| - 1], reps) + Tools(ns[|ns| - 1], reps)
  }

  function PlannedCalls(keys: seq<PhaseKey>, calls: nat): nat {
    if keys == [] then 0 else PlannedCalls(keys[..|keys| - 1], calls) + keys[|keys| - 1].concurrency * calls
  }

  lemma {:induction false} PlannedCallsConcat(a: seq<PhaseKey>, b: seq<PhaseKey>, calls: nat)
    ensures PlannedCalls(a + b, calls) == PlannedCalls(a, calls) + PlannedCalls(b, calls)
  {
    if b == [] {
      assert a + b == a;
    } else {
      PlannedCallsConcat(a, b[..|b| - 1], calls);
      assert (a + b)[..|a + b| - 1] == a + b[..|b| - 1];
    }
  }

  lemma {:induction false} PlannedOfRepetition(n: nat, tool: Tool, rep: nat, calls: nat)
    ensures PlannedCalls(Repetition(n, tool, rep), calls) == 2 * (n * calls)
  {
    var two := Repetition(n, tool, rep);
    assert two[..1][..0] == [];
    assert PlannedCalls(two[..1], calls) == n * calls;
  }

  lemma {:induction false} NothingPlanned(calls: nat)
    ensures PlannedCalls([], calls) == 0
  {
  }

  lemma {:induction false} OneMoreTime(times: nat, x: nat)
    ensures (times - 1) * x + x == times * x
  {
  }

  lemma {:induction false} PlannedOfRepetitions(n: nat, tool: Tool, reps: nat, calls: nat)
    ensures PlannedCalls(Repetitions(n, tool, reps), calls) == reps * (2 * (n * calls))
  {
    hide Repetition, PlannedCalls;
    if reps > 0 {
      PlannedOfRepetitions(n, tool, reps - 1, calls);
      PlannedCallsConcat(Repetitions(n, tool, reps - 1), Repetition(n, tool, reps), calls);
      PlannedOfRepetition(n, tool, reps, calls);
      OneMoreTime(reps, 2 * (n * calls));
    } else {
      NothingPlanned(calls);
    }
  }

  /** The total that normalizeBenchmark bounds is the number of calls the planned phases make. */
  lemma {:induction false} TotalIsPlanned(ns: seq<nat>, calls: nat, reps: nat)
    ensures PlannedCalls(Phases(ns, reps), calls) == Total(ns, calls, reps)
  {
    if ns != [] {
      var n, rest := ns[|ns| - 1], ns[..|ns| - 1];
      TotalIsPlanned(rest, calls, reps);
      PlannedOfRepetitions(n, ReadTool, reps, calls);
      PlannedOfRepetitions(n, StreamTool, reps, calls);
      PlannedCallsConcat(Repetitions(n, ReadTool, reps), Repetitions(n, StreamTool, reps), calls);
      PlannedCallsConcat(Phases(rest, reps), Tools(n, reps), calls);
      assert reps * (2 * (n * calls)) * 2 == n * calls * reps * 4 by { Commute(n * calls, reps); }
    }
  }

  lemma {:induction false} Commute(a: int, b: int)
    ensures b * (2 * a) * 2 == a * b * 4
  {
  }

  // ---------- where each phase is ----------

  /** Direct goes first in the odd repetitions and gateway in the even ones. */
  function TargetAt(rep: nat, second: bool): Target {
    if (rep % 2 == 1) == second then Gateway else Direct
  }

  lemma {:induction false} RepetitionAt(n: nat, tool: Tool, rep: nat)
    ensures |Repetition(n, tool, rep)| == 2
    ensures Repetition(n, tool, rep)[0] == PhaseKey(n, tool, rep, TargetAt(rep, false))
    ensures Repetition(n, tool, rep)[1] == PhaseKey(n, tool, rep, TargetAt(rep, true))
  {
  }

  lemma {:induction false} RepetitionsAt(n: nat, tool: Tool, reps: nat, rep: nat, second: bool)
    requires 1 <= rep <= reps
    ensures |Repetitions(n, tool, reps)| == 2 * reps
    ensures Repetitions(n, tool, reps)[2 * (rep - 1) + if second then 1 else 0] == PhaseKey(n, tool, rep, TargetAt(rep, second))
  {
    hide Repetition, TargetAt;
    RepetitionAt(n, tool, reps);
    if reps == 1 {
      assert Repetitions(n, tool, 0) == [];
    } else {
      RepetitionsAt(n, tool, reps - 1, if rep < reps then rep else 1, second);
    }
  }

  /** The read phases of a concurrency come before the streaming ones. */
  lemma {:induction false} ToolsAt(n: nat, reps: nat, tool: Tool, rep: nat, second: bool)
    requires 1 <= rep <= reps
    ensures |Tools(n, reps)| == 4 * reps
    ensures Tools(n, reps)[(if tool == ReadTool then 0 else 2 * reps) + 2 * (rep - 1) + if second then 1 else 0]
         == PhaseKey(n, tool, rep, TargetAt(rep, second))
  {
    hide Repetitions, TargetAt;
    RepetitionsAt(n, ReadTool, reps, rep, second);
    RepetitionsAt(n, StreamTool, reps, rep, second);
  }

  lemma {:induction false} PhasesSize(ns: seq<nat>, reps: nat)
    requires reps >= 1
    ensures |Phases(ns, reps)| == |ns| * (4 * reps)
  {
    if ns != [] {
      PhasesSize(ns[..|ns| - 1], reps);
      ToolsAt(ns[|ns| - 1], reps, ReadTool, 1, false);
      OneMoreTime(|ns|, 4 * reps);
    }
  }

  /** The whole plan, phase by phase: by concurrency in the configured order, then tool, then repetition, then target. */
  lemma {:induction false} PhasesAt(ns: seq<nat>, reps: nat, a: nat, tool: Tool, rep: nat, second: bool, at: nat)
    requires a < |ns| && 1 <= rep <= reps
    requires at == a * (4 * reps) + (if tool == ReadTool then 0 else 2 * reps) + 2 * (rep - 1) + if second then 1 else 0
    ensures |Phases(ns, reps)| == |ns| * (4 * reps) && at < |Phases(ns, reps)|
    ensures Phases(ns, reps)[at] == PhaseKey(ns[a], tool, rep, TargetAt(rep, second))
  {
    hide Tools, TargetAt;
    var last: nat, most := |ns| - 1, ns[..|ns| - 1];
    PhasesSize(most, reps);
    PhasesSize(ns, reps);
    ToolsAt(ns[last], reps, tool, rep, second);
    if a < last {
      PhasesAt(most, reps, a, tool, rep, second, at);
      assert Phases(ns, reps)[at] == Phases(most, reps)[at];
    } else {
      assert Phases(ns, reps)[at] == Tools(ns[last], reps)[at - |Phases(most, reps)|];
      OneMoreTime(|ns|, 4 * reps);
    }
  }

  // ---------- each phase once ----------

  function Occurrences(keys: seq<PhaseKey>, key: PhaseKey): nat {
    if keys == [] then 0 else Occurrences(keys[..|keys| - 1], key) + if keys[|keys| - 1] == key then 1 else 0
  }

  lemma {:induction false} OccurrencesConcat(a: seq<PhaseKey>, b: seq<PhaseKey>, key: PhaseKey)
    ensures Occurrences(a + b, key) == Occurrences(a, key) + Occurrences(b, key)
  {
    if b == [] {
      assert a + b == a;
    } else {
      OccurrencesConcat(a, b[..|b| - 1], key);
      assert (a + b)[..|a + b| - 1] == a + b[..|b| - 1];
    }
  }

  lemma {:induction false} RepetitionOnce(n: nat, tool: Tool, rep: nat, key: PhaseKey)
    ensures Occurrences(Repetition(n, tool, rep), key) ==
      if key.concurrency == n && key.tool == tool && key.repetition == rep then 1 else 0
  {
    var two := Repetition(n, tool, rep);
    assert two[..1] == [two[0]] && two[..1][..0] == [];
    assert Occurrences(two[..1], key) == if two[0] == key then 1 else 0;
    assert key == PhaseKey(key.concurrency, key.tool, key.repetition, key.target);
    assert key.target == Direct || key.target == Gateway;
  }

  lemma {:induction false} RepetitionsOnce(n: nat, tool: Tool, reps: nat, key: PhaseKey)
    ensures Occurrences(Repetitions(n, tool, reps), key) ==
      if key.concurrency == n && key.tool == tool && 1 <= key.repetition <= reps then 1 else 0
  {
    if reps > 0 {
      RepetitionsOnce(n, tool, reps - 1, key);
      RepetitionOnce(n, tool, reps, key);
      OccurrencesConcat(Repetitions(n, tool, reps - 1), Repetition(n, tool, reps), key);
    }
  }

  /** With distinct concurrencies every (concurrency, tool, repetition, target) is planned exactly once. */
  lemma {:induction false} PhasesOnce(ns: seq<nat>, reps: nat, key: PhaseKey)
    requires Distinct(ns)
    ensures Occurrences(Phases(ns, reps), key) == if key.concurrency in ns && 1 <= key.repetition <= reps then 1 else 0
  {
    if ns != [] {
      var n, rest := ns[|ns| - 1], ns[..|ns| - 1];
      LastIsNew(ns, key.concurrency);
      PhasesOnce(rest, reps, key);
      ToolsOnce(n, reps, key);
      OccurrencesConcat(Phases(rest, reps), Tools(n, reps), key);
    }
  }

  lemma {:induction false} ToolsOnce(n: nat, reps: nat, key: PhaseKey)
    ensures Occurrences(Tools(n, reps), key) == if key.concurrency == n && 1 <= key.repetition <= reps then 1 else 0
  {
    RepetitionsOnce(n, ReadTool, reps, key);
    RepetitionsOnce(n, StreamTool, reps, key);
    OccurrencesConcat(Repetitions(n, ReadTool, reps), Repetitions(n, StreamTool, reps), key);
    assert key.tool == ReadTool || key.tool == StreamTool;
  }

  lemma {:induction false} LastIsNew(ns: seq<nat>, x: nat)
    requires ns != [] && Distinct(ns)
    ensures var n, rest := ns[|ns| - 1], ns[..|ns| - 1];
      Distinct(rest) && n !in rest && (x in ns <==> x in rest || x == n)
  {
    assert ns == ns[..|ns| - 1] + [ns[|ns| - 1]];
  }

  // ---------- pairing ----------

  /** One comparison of the report. */
  datatype Group = Group(concurrency: nat, tool: Tool, repetition: nat)

  function RepetitionGroups(n: nat, tool: Tool, reps: nat): seq<Group> {
    if reps == 0 then [] else RepetitionGroups(n, tool, reps - 1) + [Group(n, tool, reps)]
  }

  function Groups(ns: seq<nat>, reps: nat): seq<Group> {
    if ns == [] then []
    else
      var n := ns[|ns| - 1];
      Groups(ns[..|ns| - 1], reps) + (RepetitionGroups(n, ReadTool, reps) + RepetitionGroups(n, StreamTool, reps))
  }

  function GroupOf(key: PhaseKey): Group {
    Group(key.concurrency, key.tool, key.repetition)
  }

  /** The groups of the direct phases, in order. */
  function DirectGroups(keys: seq<PhaseKey>): seq<Group> {
    if keys == [] then []
    else
      var last := keys[|keys| - 1];
      DirectGroups(keys[..|keys| - 1]) + if last.target == Direct then [GroupOf(last)] else []
  }

  lemma {:induction false} DirectGroupsConcat(a: seq<PhaseKey>, b: seq<PhaseKey>)
    ensures DirectGroups(a + b) == DirectGroups(a) + DirectGroups(b)
  {
    if b == [] {
      assert a + b == a;
    } else {
      DirectGroupsConcat(a, b[..|b| - 1]);
      assert (a + b)[..|a + b| - 1] == a + b[..|b| - 1];
    }
  }

  lemma {:induction false} NoDirectGroups()
    ensures DirectGroups([]) == []
  {
  }

  lemma {:induction false} DirectGroupsOfOne(key: PhaseKey)
    ensures DirectGroups([key]) == if key.target == Direct then [GroupOf(key)] else []
  {
    assert [key][..0] == [];
  }

  lemma {:induction false} DirectGroupsOfRepetition(n: nat, tool: Tool, rep: nat)
    ensures DirectGroups(Repetition(n, tool, rep)) == [Group(n, tool, rep)]
  {
    hide DirectGroups;
    var two := Repetition(n, tool, rep);
    DirectGroupsOfOne(two[0]);
    DirectGroupsOfOne(two[1]);
    DirectGroupsConcat([two[0]], [two[1]]);
    assert two == [two[0]] + [two[1]];
  }

  lemma {:induction false} DirectGroupsOfRepetitions(n: nat, tool: Tool, reps: nat)
    ensures DirectGroups(Repetitions(n, tool, reps)) == RepetitionGroups(n, tool, reps)
  {
    hide DirectGroups, Repetition;
    assert DirectGroups([]) == [] by { NoDirectGroups(); }
    if reps > 0 {
      DirectGroupsOfRepetitions(n, tool, reps - 1);
      DirectGroupsConcat(Repetitions(n, tool, reps - 1), Repetition(n, tool, reps));
      DirectGroupsOfRepetition(n, tool, reps);
    }
  }

  lemma {:induction false} DirectGroupsOfPhases(ns: seq<nat>, reps: nat)
    ensures DirectGroups(Phases(ns, reps)) == Groups(ns, reps)
  {
    if ns != [] {
      var n, rest := ns[|ns| - 1], ns[..|ns| - 1];
      DirectGroupsOfPhases(rest, reps);
      DirectGroupsOfRepetitions(n, ReadTool, reps);
      DirectGroupsOfRepetitions(n, StreamTool, reps);
      DirectGroupsConcat(Repetitions(n, ReadTool, reps), Repetitions(n, StreamTool, reps));
      DirectGroupsConcat(Phases(rest, reps), Tools(n, reps));
    }
  }
}

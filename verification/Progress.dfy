/** One benchmark worker of internal/democlient/benchmark.go: its calls, one at a time, and the progress
    notifications that arrive in between. The worker's mutex makes each event atomic. */
module Progress {

  import opened Text

  datatype Tool = ReadTool | StreamTool

  datatype Phase = Warmup | Measured

  function PhaseName(p: Phase): string {
    if p.Warmup? then "warmup" else "measured"
  }

  /** fmt.Sprintf("%s-%d-%d", phase, worker, call) */
  function Token(phase: Phase, worker: nat, call: nat): string {
    PhaseName(phase) + ['-'] + (Decimal(worker) + ['-'] + Decimal(call))
  }

  lemma {:induction false} TokenParts(phase: Phase, worker: nat, call: nat)
    ensures Split(Token(phase, worker, call), '-') == [PhaseName(phase), Decimal(worker), Decimal(call)]
  {
    var name, w, c := PhaseName(phase), Decimal(worker), Decimal(call);
    assert FreeOf(name, '-');
    SplitFreeString(c, '-');
    SplitHead(w, c, '-');
    SplitHead(name, w + ['-'] + c, '-');
  }

  /** No two calls of a phase pair, of any workers, share a token; and no token is empty. */
  lemma {:induction false} TokensDistinct(p: Phase, w: nat, c: nat, p': Phase, w': nat, c': nat)
    requires Token(p, w, c) == Token(p', w', c')
    ensures p == p' && w == w' && c == c'
  {
    TokenParts(p, w, c);
    TokenParts(p', w', c');
    var a, b := Split(Token(p, w, c), '-'), Split(Token(p', w', c'), '-');
    assert a[0] == b[0] && a[1] == b[1] && a[2] == b[2];
    assert |"warmup"| != |"measured"|;
    DecimalInjective(w, w');
    DecimalInjective(c, c');
  }

  // ---------- the worker as a sequence of events ----------

  /** token is "" while no streaming call is active. */
  datatype Tracker = Tracker(token: string, first: Option<real>, updates: nat)

  datatype Event =
    | Begin(phase: Phase, worker: nat, call: nat, tool: Tool)
    | Notify(token: string, at: real)
    | End

  function Deliver(t: Tracker, token: string, at: real): Tracker {
    if token != t.token || t.token == "" then t
    else Tracker(t.token, if t.first.None? then Some(at) else t.first, t.updates + 1)
  }

  function Handle(t: Tracker, e: Event): Tracker {
    match e
    case Begin(phase, worker, call, tool) => Tracker(if tool == StreamTool then Token(phase, worker, call) else "", None, 0)
    case Notify(token, at) => Deliver(t, token, at)
    case End => t.(token := "")
  }

  /** The worker after the first k events. */
  function TrackerAt(h: seq<Event>, k: nat): Tracker
    requires k <= |h|
  {
    if k == 0 then Tracker("", None, 0) else Handle(TrackerAt(h, k - 1), h[k - 1])
  }

  /** How many of the events i..j-1 are notifications bearing this token. */
  function Bearing(h: seq<Event>, token: string, i: nat, j: nat): nat
    requires j <= |h|
    decreases j
  {
    if j <= i then 0
    else Bearing(h, token, i, j - 1) + if h[j - 1].Notify? && h[j - 1].token == token then 1 else 0
  }

  /** The time of the first of the events i..j-1 that is a notification bearing this token. */
  function FirstBearing(h: seq<Event>, token: string, i: nat, j: nat): Option<real>
    requires j <= |h|
    decreases j
  {
    if j <= i then None
    else
      var before := FirstBearing(h, token, i, j - 1);
      if before.Some? then before
      else if h[j - 1].Notify? && h[j - 1].token == token then Some(h[j - 1].at)
      else None
  }

  lemma {:induction false} FirstBearingExact(h: seq<Event>, token: string, i: nat, j: nat)
    requires j <= |h|
    ensures FirstBearing(h, token, i, j).Some? <==> Bearing(h, token, i, j) > 0
    decreases j
  {
    if i < j { FirstBearingExact(h, token, i, j - 1); }
  }

  /** Progress isolation: whatever notifications come before, late, or for other calls, the sample of the call
      between events i and j counts exactly the notifications that bear that call's own token while it is active,
      and takes the time of the first; a call that does not stream counts none. */
  lemma {:induction false} ProgressIsolated(h: seq<Event>, i: nat, j: nat)
    requires i < j <= |h| && h[i].Begin? && forall k :: i < k < j ==> h[k].Notify?
    ensures var t, own := TrackerAt(h, j), Token(h[i].phase, h[i].worker, h[i].call);
      && (t.first.Some? <==> t.updates > 0)
      && (h[i].tool == StreamTool ==>
            t == Tracker(own, FirstBearing(h, own, i, j), Bearing(h, own, i, j)))
      && (h[i].tool == ReadTool ==> t == Tracker("", None, 0))
    decreases j
  {
    if i + 1 < j {
      ProgressIsolated(h, i, j - 1);
    }
    FirstBearingExact(h, Token(h[i].phase, h[i].worker, h[i].call), i, j);
  }

  /** A notification sent for any other call is not counted. */
  lemma {:induction false} ForeignNotCounted(t: Tracker, p: Phase, w: nat, c: nat, p': Phase, w': nat, c': nat, at: real)
    requires t.token == Token(p, w, c) && (p, w, c) != (p', w', c')
    ensures Deliver(t, Token(p', w', c'), at) == t
  {
    if Token(p, w, c) == Token(p', w', c') { TokensDistinct(p, w, c, p', w', c'); }
  }

  // ---------- the worker as an object ----------

  datatype Sample = Sample(worker: nat, call: nat, duration: real, first: Option<real>, updates: nat, error: string)

  /** What the SDK call did: when it started and ended, the notifications delivered meanwhile, and the error
      category of its result, "" for a valid one. */
  datatype Exchange = Exchange(start: real, end: real, notifications: seq<(string, real)>, error: string)

  function Notifications(x: Exchange): seq<Event> {
    seq(|x.notifications|, i requires 0 <= i < |x.notifications| => Notify(x.notifications[i].0, x.notifications[i].1))
  }

  /** A valid streaming result still fails without exactly three updates, the first of them well before the end. */
  function Category(tool: Tool, x: Exchange, first: Option<real>, updates: nat): string {
    if x.error != "" || tool == ReadTool then x.error
    else if first.None? || updates != 3 then "stream_missing_progress"
    else if first.value < x.start || x.end - first.value < 0.025 then "stream_late_progress"
    else ""
  }

  /** The SDK's own error is kept; a good reading has none; and a good streaming result has none exactly if it had three
      updates, the first neither before the start nor less than 25ms before the end. */
  ghost predicate Categorized(tool: Tool, x: Exchange, first: Option<real>, updates: nat, error: string) {
    && (x.error != "" ==> error == x.error)
    && (x.error == "" && tool == ReadTool ==> error == "")
    && (x.error == "" && tool == StreamTool ==>
          && (error == "stream_missing_progress" <==> first == None || updates != 3)
          && (error == "" <==> updates == 3 && first.Some? && first.value >= x.start && x.end - first.value >= 0.025)
          && (error in {"", "stream_missing_progress", "stream_late_progress"}))
  }

  lemma {:induction false} CategoryExact(tool: Tool, x: Exchange, first: Option<real>, updates: nat)
    ensures Categorized(tool, x, first, updates, Category(tool, x, first, updates))
  {
    assert |"stream_missing_progress"| != |"stream_late_progress"|;
  }

  class BenchmarkWorker {
    var token: string
    var first: Option<real>
    var updates: nat
    /** The tokens it has sent with its calls. */
    ghost var sent: seq<string>

    constructor ()
      ensures View() == Tracker("", None, 0) && sent == []
    {
      token, first, updates, sent := "", None, 0, [];
    }

    function View(): Tracker
      reads this
    {
      Tracker(token, first, updates)
    }

    method Progress(token: string, at: real)
      modifies this`first, this`updates
      ensures View() == Handle(old(View()), Notify(token, at))
    {
      if token != this.token || this.token == "" {
        return;
      }
      if first.None? {
        first := Some(at);
      }
      updates := updates + 1;
    }

    /** One call, with the notifications that the SDK delivers while it is in flight. */
    method Call(tool: Tool, worker: nat, call: nat, phase: Phase, x: Exchange) returns (sample: Sample)
      modifies this
      ensures var h := [Begin(phase, worker, call, tool)] + Notifications(x); var t := TrackerAt(h, |h|);
        && View() == t.(token := "")
        && sample == Sample(worker, call, x.end - x.start, if t.first.None? then None else Some(t.first.value - x.start),
                            t.updates, Category(tool, x, t.first, t.updates))
        && Categorized(tool, x, t.first, t.updates, sample.error)
      ensures sent == old(sent) + if tool == StreamTool then [Token(phase, worker, call)] else []
    {
      ghost var h := [Begin(phase, worker, call, tool)] + Notifications(x);
      token, first, updates := "", None, 0;
      if tool == StreamTool {
        token := Token(phase, worker, call);
        sent := sent + [token];
      }
      assert View() == Handle(TrackerAt(h, 0), h[0]) == TrackerAt(h, 1);
      for i := 0 to |x.notifications|
        invariant View() == TrackerAt(h, i + 1) && sent == old(sent) + if tool == StreamTool then [Token(phase, worker, call)] else []
      {
        assert h[i + 1] == Notify(x.notifications[i].0, x.notifications[i].1);
        Progress(x.notifications[i].0, x.notifications[i].1);
      }
      var started := first;
      sample := Sample(worker, call, x.end - x.start, if started.None? then None else Some(started.value - x.start), updates, "");
      token := "";
      CategoryExact(tool, x, started, sample.updates);
      sample := sample.(error := Category(tool, x, started, sample.updates));
    }
  }

  // ---------- the tokens of a worker's calls ----------

  /** The tokens that a worker sends with its first n calls of a phase. */
  ghost function Sent(phase: Phase, worker: nat, tool: Tool, n: nat): seq<string> {
    if n == 0 || tool == ReadTool then [] else Sent(phase, worker, tool, n - 1) + [Token(phase, worker, n - 1)]
  }

  lemma {:induction false} SentAt(phase: Phase, worker: nat, n: nat, k: nat)
    requires k < n
    ensures |Sent(phase, worker, StreamTool, n)| == n && Sent(phase, worker, StreamTool, n)[k] == Token(phase, worker, k)
  {
    if n > 1 { SentAt(phase, worker, n - 1, if k < n - 1 then k else 0); }
  }

  ghost predicate NoRepeats(tokens: seq<string>) {
    forall i, j :: 0 <= i < j < |tokens| ==> tokens[i] != tokens[j]
  }

  /** A worker that warms up and is then measured never sends a token twice, so what is late for one call is not counted
      for another. */
  lemma {:induction false} NeverSentTwice(worker: nat, tool: Tool, warmup: nat, calls: nat)
    ensures NoRepeats(Sent(Warmup, worker, tool, warmup) + Sent(Measured, worker, tool, calls))
  {
    hide Token;
    if tool == StreamTool {
      var all := Sent(Warmup, worker, tool, warmup) + Sent(Measured, worker, tool, calls);
      assert |Sent(Warmup, worker, tool, warmup)| == warmup by { if warmup > 0 { SentAt(Warmup, worker, warmup, 0); } }
      assert |Sent(Measured, worker, tool, calls)| == calls by { if calls > 0 { SentAt(Measured, worker, calls, 0); } }
      forall i, j | 0 <= i < j < |all| ensures all[i] != all[j] {
        var p, a := SentFrom(worker, warmup, calls, i);
        var q, b := SentFrom(worker, warmup, calls, j);
        if all[i] == all[j] { TokensDistinct(p, worker, a, q, worker, b); }
      }
    }
  }

  lemma {:induction false} SentFrom(worker: nat, warmup: nat, calls: nat, i: nat) returns (phase: Phase, call: nat)
    requires var all := Sent(Warmup, worker, StreamTool, warmup) + Sent(Measured, worker, StreamTool, calls);
      i < |all| && |Sent(Warmup, worker, StreamTool, warmup)| == warmup && |Sent(Measured, worker, StreamTool, calls)| == calls
    ensures (Sent(Warmup, worker, StreamTool, warmup) + Sent(Measured, worker, StreamTool, calls))[i] == Token(phase, worker, call)
    ensures phase == (if i < warmup then Warmup else Measured) && call == if i < warmup then i else i - warmup
  {
    hide Token;
    phase, call := if i < warmup then Warmup else Measured, if i < warmup then i else i - warmup;
    if i < warmup { SentAt(Warmup, worker, warmup, i); } else { SentAt(Measured, worker, calls, i - warmup); }
  }

  /** What every sample of a tool satisfies: reading counts no progress, and streaming without an error has had
      exactly three updates of its own, the first no later than 25ms before the end. */
  ghost predicate SoundSample(tool: Tool, s: Sample) {
    && (s.first.Some? <==> s.updates > 0)
    && (tool == ReadTool ==> s.updates == 0)
    && (tool == StreamTool && s.error == "" ==>
          s.updates == 3 && 0.0 <= s.first.value && s.duration - s.first.value >= 0.025)
  }

  lemma {:induction false} CallIsSound(tool: Tool, worker: nat, call: nat, phase: Phase, x: Exchange, s: Sample)
    requires var h := [Begin(phase, worker, call, tool)] + Notifications(x); var t := TrackerAt(h, |h|);
      s == Sample(worker, call, x.end - x.start, if t.first.None? then None else Some(t.first.value - x.start),
                  t.updates, Category(tool, x, t.first, t.updates))
    ensures SoundSample(tool, s)
  {
    var h := [Begin(phase, worker, call, tool)] + Notifications(x);
    ProgressIsolated(h, 0, |h|);
  }
}

/** Which calls leave an entry of a truncated run in the trace index
    (internal/sink/runblock.go:107-113, 452-463). */
module IndexLeaks {
  import opened Basics
  import opened Otlp
  import opened Bucketing
  import opened RunBlockState
  import opened History
  import opened Interleaving
  import opened Sequential
  import opened TraceIndexBound
  import opened Guarantees
  import Hex

  ghost predicate WithinRuns(st: State) {
    forall trace <- st.traceToRun :: st.traceToRun[trace] in st.runs
  }

  ghost predicate NoLeak(st: State) {
    forall trace <- st.traceToRun :: st.traceToRun[trace] !in st.truncated
  }

  function OwnRun(e: Entry<Span>): string {
    LookupAttr(e.record.attributes, "run.id")
  }

  /** The span names a run for its trace, and none behind it does. */
  predicate LastWord(es: seq<Entry<Span>>, i: nat) {
    && i < |es| && OwnRun(es[i]) != "" && es[i].record.traceId != []
    && forall j :: i < j < |es| && OwnRun(es[j]) != "" ==> es[j].record.traceId != es[i].record.traceId
  }

  /** What the last such span of each trace names is not truncated. */
  ghost predicate Harmless(es: seq<Entry<Span>>, truncated: set<string>) {
    forall i: nat :: LastWord(es, i) ==> OwnRun(es[i]) !in truncated
  }

  /** It is an open run. */
  ghost predicate NamesOpen(es: seq<Entry<Span>>, open: set<string>) {
    forall i: nat :: LastWord(es, i) ==> OwnRun(es[i]) in open
  }

  // ---- The first pass ----

  lemma LastWordNext(es: seq<Entry<Span>>, e: Entry<Span>, i: nat)
    ensures LastWord(es + [e], i) <==>
              if i == |es| then OwnRun(e) != "" && e.record.traceId != []
              else LastWord(es, i) && (OwnRun(e) != "" ==> e.record.traceId != es[i].record.traceId)
  {
    var all := es + [e];
    if i < |es| && LastWord(all, i) {
      forall j | i < j < |es| && OwnRun(es[j]) != "" ensures es[j].record.traceId != es[i].record.traceId { assert all[j] == es[j]; }
      assert all[|es|] == e;
    }
  }

  /** The i-th span has the last word for the trace, with this run. */
  predicate Said(es: seq<Entry<Span>>, trace: string, run: string, i: nat) {
    LastWord(es, i) && Hex.EncodeToString(es[i].record.traceId) == trace && run == OwnRun(es[i])
  }

  lemma SaidBefore(es: seq<Entry<Span>>, e: Entry<Span>, trace: string, run: string, i: nat)
    requires Said(es, trace, run, i)
    requires !(OwnRun(e) != "" && e.record.traceId != [] && Hex.EncodeToString(e.record.traceId) == trace)
    ensures Said(es + [e], trace, run, i)
  {
    LastWordNext(es, e, i);
  }

  /** An entry afterwards: what the last span to name a run for the trace has named, or
      what was there before. */
  lemma {:induction false} LearnedLast(index: TraceIndex, es: seq<Entry<Span>>, trace: string)
    requires trace in Learned(index, es)
    ensures var run := Learned(index, es)[trace]; (exists i: nat :: Said(es, trace, run, i)) || (trace in index && run == index[trace])
  {
    if es != [] {
      var init, e := es[..|es| - 1], es[|es| - 1];
      var run := Learned(index, es)[trace];
      assert es == init + [e];
      if OwnRun(e) != "" && e.record.traceId != [] && Hex.EncodeToString(e.record.traceId) == trace {
        LastWordNext(init, e, |init|);
        assert Said(es, trace, run, |init|);
      } else {
        LearnedLast(index, init, trace);
        if i: nat :| Said(init, trace, run, i) { SaidBefore(init, e, trace, run, i); }
      }
    }
  }

  lemma {:induction false} LastWordLearned(index: TraceIndex, es: seq<Entry<Span>>, i: nat)
    requires LastWord(es, i)
    ensures var trace := Hex.EncodeToString(es[i].record.traceId);
            trace in Learned(index, es) && Learned(index, es)[trace] == OwnRun(es[i])
  {
    var init, e := es[..|es| - 1], es[|es| - 1];
    assert es == init + [e];
    LastWordNext(init, e, i);
    if i < |init| {
      LastWordLearned(index, init, i);
      if Hex.EncodeToString(e.record.traceId) == Hex.EncodeToString(es[i].record.traceId) {
        Hex.Injective(e.record.traceId, es[i].record.traceId);
      }
    }
  }

  ghost predicate AllOf(index: TraceIndex, good: string -> bool) {
    forall trace <- index :: good(index[trace])
  }

  ghost predicate AllSay(es: seq<Entry<Span>>, good: string -> bool) {
    forall i: nat :: LastWord(es, i) ==> good(OwnRun(es[i]))
  }

  /** All entries are of a kind afterwards, as they were before, exactly when the last
      words are. */
  lemma LearnedIff(index: TraceIndex, es: seq<Entry<Span>>, good: string -> bool)
    requires AllOf(index, good)
    ensures AllOf(Learned(index, es), good) <==> AllSay(es, good)
  {
    var learned := Learned(index, es);
    if AllSay(es, good) {
      forall trace <- learned ensures good(learned[trace]) {
        LearnedLast(index, es, trace);
        if i: nat :| Said(es, trace, learned[trace], i) { assert LastWord(es, i); }
      }
    }
    if AllOf(learned, good) {
      forall i: nat | LastWord(es, i) ensures good(OwnRun(es[i])) {
        LastWordLearned(index, es, i);
        assert good(learned[Hex.EncodeToString(es[i].record.traceId)]);
      }
      assert AllSay(es, good);
    }
  }

  lemma LearnLeaksIff(st: State, es: seq<Entry<Span>>)
    requires NoLeak(st)
    ensures NoLeak(st.(traceToRun := Learned(st.traceToRun, es))) <==> Harmless(es, st.truncated)
  {
    var good := run => run !in st.truncated;
    LearnedIff(st.traceToRun, es, good);
    assert AllSay(es, good) <==> Harmless(es, st.truncated);
  }

  lemma LearnWithinIff(st: State, es: seq<Entry<Span>>)
    requires WithinRuns(st)
    ensures WithinRuns(st.(traceToRun := Learned(st.traceToRun, es))) <==> NamesOpen(es, st.runs.Keys)
  {
    var good := run => run in st.runs;
    LearnedIff(st.traceToRun, es, good);
    assert AllSay(es, good) <==> NamesOpen(es, st.runs.Keys);
  }

  // ---- A step ----

  /** A locked turn neither makes nor removes an entry of a truncated run. */
  lemma EnqueueLeaks(c: Config, st: State, p: Pending, now: int)
    ensures NoLeak(Enqueue(c, st, p, now).state) <==> NoLeak(st)
  {
    var st' := Enqueue(c, st, p, now).state;
    if !NoLeak(st) {
      var trace :| trace in st.traceToRun && st.traceToRun[trace] in st.truncated;
      assert trace in st'.traceToRun && st'.traceToRun[trace] in st'.truncated;
    }
  }

  lemma FlushedLeaks(st: State, r: string, reason: FlushReason)
    requires NoLeak(st) && !reason.Overflow?
    ensures NoLeak(Flushed(st, r, reason))
  {}

  /** Of all steps of any thread, only the first pass of a request of spans can make an
      entry of a truncated run, and it does exactly when the last span of some trace
      that names a run names a truncated one. */
  lemma StepLeaksIff(c: Config, s: Sys, a: Action)
    requires Enabled(c, s, a) && NoLeak(s.st)
    ensures NoLeak(Next(c, s, a).st) <==> (a.BeginTraces? ==> Harmless(Entries(a.traces), s.st.truncated))
  {
    match a
    case BeginTraces(_, req) => LearnLeaksIff(s.st, Entries(req));
    case TakeItem(t) => EnqueueLeaks(c, s.st, s.threads[t].pendings[0], s.threads[t].now);
    case SweepRun(r, _) => FlushedLeaks(s.st, r, Idle);
    case ShutdownRun(r) => FlushedLeaks(s.st, r, Shutdown);
    case _ =>
  }

  // ---- A call ----

  function Spans(call: Call): seq<Entry<Span>> {
    match call
    case Traces(req, _) => Entries(req)
    case Failed(Traces(req, _), _) => Entries(req)
    case _ => []
  }

  lemma {:induction false} HandleAllLeaks(c: Config, st: State, out: seq<Emission>, pendings: seq<Pending>, now: int)
    ensures NoLeak(HandleAll(c, st, out, pendings, now).0) <==> NoLeak(st)
    decreases |pendings|
  {
    if pendings != [] {
      var r := Enqueue(c, st, pendings[0], now);
      EnqueueLeaks(c, st, pendings[0], now);
      HandleAllLeaks(c, r.state, Handled(out, r, pendings[0]), pendings[1..], now);
    }
  }

  lemma FlushAllLeaks(st: State, out: seq<Emission>, order: seq<string>, reason: FlushReason)
    requires Distinct(order) && !reason.Overflow? && forall r <- order :: r in st.runs
    requires NoLeak(st)
    ensures NoLeak(FlushAll(st, out, order, reason).0)
  {
    FlushAllEffect(st, out, order, reason);
  }

  /** A call made alone, failed or not, a sweep or Shutdown: what a caller has to look at
      are the spans of the request and the runs truncated before the call. */
  lemma CallLeaksIff(c: Config, st: State, out: seq<Emission>, call: Call)
    requires Legal(c, st, call) && NoLeak(st)
    ensures NoLeak(Perform(c, st, out, call).0) <==> Harmless(Spans(call), st.truncated)
  {
    match call
    case Sweep(order, _) => FlushAllLeaks(st, out, order, Idle);
    case Close(order) => FlushAllLeaks(st, out, order, FlushReason.Shutdown);
    case Failed(inner, _) => if inner.Traces? { LearnLeaksIff(st, Entries(inner.traces)); }
    case Traces(req, _) =>
      SettledLeaks(c, st, out, call);
      LearnLeaksIff(st, Entries(req));
    case _ => SettledLeaks(c, st, out, call);
  }

  lemma SettledLeaks(c: Config, st: State, out: seq<Emission>, call: Call)
    requires Consumes(call)
    ensures NoLeak(Perform(c, st, out, call).0) <==> NoLeak(Planned(c, st, call).state)
  {
    var plan := Planned(c, st, call);
    HandleAllLeaks(c, plan.state, Write(out, Passed(plan.lines)), plan.pendings, call.now);
  }

  // ---- Every entry names an open run ----

  /** A failed request of spans must name open runs only; one that goes through none that
      is truncated; no other call matters. */
  ghost predicate KeepsWithin(st: State, call: Call) {
    match call
    case Traces(req, _) => Harmless(Entries(req), st.truncated)
    case Failed(Traces(req, _), _) => NamesOpen(Entries(req), st.runs.Keys)
    case _ => true
  }

  /** Every entry names a run that is open, truncated or about to get an item. */
  ghost predicate Expected(st: State, pendings: seq<Pending>) {
    forall trace <- st.traceToRun ::
      var run := st.traceToRun[trace]; run in st.runs || run in st.truncated || run in RunsOf(pendings)
  }

  lemma EnqueueExpected(c: Config, st: State, pendings: seq<Pending>, now: int)
    requires Configured(c) && pendings != [] && Expected(st, pendings)
    ensures Expected(Enqueue(c, st, pendings[0], now).state, pendings[1..])
  {
    var p, st' := pendings[0], Enqueue(c, st, pendings[0], now).state;
    forall trace <- st'.traceToRun
      ensures var run := st'.traceToRun[trace]; run in st'.runs || run in st'.truncated || run in RunsOf(pendings[1..])
    {
      EnqueueIndex(c, st, p, now, trace);
      var run := st.traceToRun[trace];
      if run in RunsOf(pendings) && run != p.runID {
        var q :| q in pendings && q.runID == run;
        assert q in pendings[1..];
      }
    }
  }

  lemma {:induction false} HandleAllExpected(c: Config, st: State, out: seq<Emission>, pendings: seq<Pending>, now: int)
    requires Configured(c) && Expected(st, pendings) && StateOk(c, st)
    ensures var st' := HandleAll(c, st, out, pendings, now).0; Expected(st', []) && StateOk(c, st')
    decreases |pendings|
  {
    if pendings != [] {
      var r := Enqueue(c, st, pendings[0], now);
      EnqueueExpected(c, st, pendings, now);
      EnqueueOk(c, st, pendings[0], now);
      HandleAllExpected(c, r.state, Handled(out, r, pendings[0]), pendings[1..], now);
    }
  }

  lemma {:induction false} NamedIsPending(index: TraceIndex, es: seq<Entry<Span>>, e: Entry<Span>)
    requires e in es && OwnRun(e) != ""
    ensures OwnRun(e) in RunsOf(PendingSpans(index, es))
  {
    var init, last := es[..|es| - 1], es[|es| - 1];
    if e in init {
      NamedIsPending(index, init, e);
      assert forall p <- PendingSpans(index, init) :: p in PendingSpans(index, es);
    } else {
      assert SpanPending(index, last.record) in PendingSpans(index, es);
    }
  }

  lemma TracesExpected(st: State, es: seq<Entry<Span>>)
    requires WithinRuns(st)
    ensures var learned := Learned(st.traceToRun, es); Expected(st.(traceToRun := learned), PendingSpans(learned, es))
  {
    var learned := Learned(st.traceToRun, es);
    forall trace <- learned ensures learned[trace] in st.runs || learned[trace] in RunsOf(PendingSpans(learned, es)) {
      LearnedLast(st.traceToRun, es, trace);
      if i: nat :| Said(es, trace, learned[trace], i) { NamedIsPending(learned, es, es[i]); }
    }
  }

  lemma PlannedExpected(c: Config, st: State, call: Call)
    requires Consumes(call) && WithinRuns(st)
    ensures Expected(Planned(c, st, call).state, Planned(c, st, call).pendings)
  {
    if call.Traces? { TracesExpected(st, Entries(call.traces)); }
  }

  lemma OpenIsNoLeak(c: Config, st: State)
    requires StateOk(c, st) && Expected(st, [])
    ensures WithinRuns(st) <==> NoLeak(st)
  {}

  lemma GoneThrough(c: Config, st: State, out: seq<Emission>, call: Call)
    requires Configured(c) && StateOk(c, st) && WithinRuns(st) && Consumes(call)
    ensures WithinRuns(Perform(c, st, out, call).0) <==> Harmless(Spans(call), st.truncated)
  {
    var plan := Planned(c, st, call);
    PlannedExpected(c, st, call);
    HandleAllExpected(c, plan.state, Write(out, Passed(plan.lines)), plan.pendings, call.now);
    OpenIsNoLeak(c, Perform(c, st, out, call).0);
    assert NoLeak(st);
    CallLeaksIff(c, st, out, call);
  }

  lemma FlushAllWithin(st: State, out: seq<Emission>, order: seq<string>, reason: FlushReason)
    requires WithinRuns(st) && Distinct(order) && !reason.Overflow? && forall r <- order :: r in st.runs
    ensures WithinRuns(FlushAll(st, out, order, reason).0)
  {
    FlushAllEffect(st, out, order, reason);
  }

  lemma FailedWithin(c: Config, st: State, out: seq<Emission>, call: Call)
    requires WithinRuns(st) && call.Failed? && Legal(c, st, call)
    ensures WithinRuns(Perform(c, st, out, call).0) <==> KeepsWithin(st, call)
  {
    if call.call.Traces? { LearnWithinIff(st, Entries(call.call.traces)); }
  }

  /** While every entry names an open run, a call made alone leaves it so if and only if
      the last spans of its traces that name a run name none that is truncated or, when
      the bypass write fails, open ones only. */
  lemma CallWithinIff(c: Config, st: State, out: seq<Emission>, call: Call)
    requires Configured(c) && StateOk(c, st) && WithinRuns(st) && Legal(c, st, call)
    ensures WithinRuns(Perform(c, st, out, call).0) <==> KeepsWithin(st, call)
  {
    match call
    case Sweep(order, _) => FlushAllWithin(st, out, order, Idle);
    case Close(order) => FlushAllWithin(st, out, order, FlushReason.Shutdown);
    case Failed(inner, _) => FailedWithin(c, st, out, call);
    case _ => GoneThrough(c, st, out, call);
  }

  // ---- A history ----

  /** After every call on the way. */
  ghost predicate AlwaysWithin(c: Config, from: (State, seq<Emission>), calls: seq<Call>)
    decreases |calls|
  {
    WithinRuns(from.0)
      && (calls == [] || (Legal(c, from.0, calls[0]) && AlwaysWithin(c, Perform(c, from.0, from.1, calls[0]), calls[1..])))
  }

  /** Each call when it is made. */
  ghost predicate AllKeepWithin(c: Config, from: (State, seq<Emission>), calls: seq<Call>)
    decreases |calls|
  {
    calls == []
      || (Legal(c, from.0, calls[0]) && KeepsWithin(from.0, calls[0])
          && AllKeepWithin(c, Perform(c, from.0, from.1, calls[0]), calls[1..]))
  }

  /** The same from any settled state on. */
  lemma {:induction false} WithinFromHere(c: Config, s: Sys, calls: seq<Call>, to: (State, seq<Emission>))
    requires Configured(c) && Reachable(c, s) && s.threads == map[] && WithinRuns(s.st) && Played(c, (s.st, s.out), calls, to)
    ensures AlwaysWithin(c, (s.st, s.out), calls) <==> AllKeepWithin(c, (s.st, s.out), calls)
    decreases |calls|
  {
    if calls != [] {
      ReachableSafe(c, s);
      CallWithinIff(c, s.st, s.out, calls[0]);
      var s1 := AfterCall(c, s, calls[0]);
      if WithinRuns(s1.st) { WithinFromHere(c, s1, calls[1..], to); }
    }
  }

  lemma AfterCall(c: Config, s: Sys, call: Call) returns (s': Sys)
    requires Reachable(c, s) && s.threads == map[] && Legal(c, s.st, call)
    ensures Reachable(c, s') && s'.threads == map[] && (s'.st, s'.out) == Perform(c, s.st, s.out, call)
  {
    var actions := CallRuns(c, s, call);
    s' := Run(c, s, actions).value;
    var before :| Run(c, INITIAL, before) == Some(s);
    RunAppend(c, INITIAL, before, actions);
  }

  /** For all calls, failing ones included, and sweeps made one after the other: every
      entry names an open run after each of them, as runblock.go:107-113 has it, if
      and only if each is such a call when it is made. */
  lemma IndexStaysWithinRunsIff(c: Config, calls: seq<Call>, to: (State, seq<Emission>))
    requires Configured(c) && Played(c, (EMPTY, []), calls, to)
    ensures AlwaysWithin(c, (EMPTY, []), calls) <==> AllKeepWithin(c, (EMPTY, []), calls)
  {
    assert Run(c, INITIAL, []) == Some(INITIAL);
    WithinFromHere(c, INITIAL, calls, to);
  }
}

/** Where the code does something else than its comments say, with the exact
    condition under which the comment holds. */
module Divergences {
  import opened Basics
  import opened Otlp
  import opened LineFormat
  import opened RunBlockFormat
  import opened Regroup
  import opened Bucketing
  import opened RunBlockState
  import opened History
  import opened Interleaving
  import opened Sequential
  import opened TraceIndexBound
  import opened Guarantees
  import opened LockedSteps
  import Hex

  // ---- Items behind the end of a run ----

  /** The block of a run is complete when its root ends: an item behind it in the
      same request does not land in that block (as runblock.go:433-435 has it) but
      alone in a buffer of its own, or in a block of its own if it ends the run again. */
  lemma LateItemOpensNewBlock(c: Config, s: State, end: Pending, late: Pending, now: int)
    requires Configured(c) && StateOk(c, s) && end.runID == late.runID && EndsRun(end.item)
    requires end.runID !in s.truncated && |OpenItems(s, end.runID)| < c.maxItems
    ensures var first := Enqueue(c, s, end, now);
            && first.block.Some? && first.block.value.reason.RootEnded?
            && BlockPart(first.block.value, end.runID) == OpenItems(s, end.runID) + [end.item]
            && var second := Enqueue(c, first.state, late, now);
               (if second.block.Some? then BlockPart(second.block.value, late.runID) else OpenItems(second.state, late.runID))
                 == [late.item]
  {}

  /** In every block on the output of any reachable state the item that ends the run is
      the last, and no open buffer holds one. */
  lemma NothingBehindTheEnd(c: Config, s: Sys, i: nat, j: nat, r: string)
    requires Configured(c) && Reachable(c, s)
    ensures i < |s.out| && s.out[i].Block? && j + 1 < |s.out[i].buffer.items| ==> !EndsRun(s.out[i].buffer.items[j])
    ensures j < |OpenItems(s.st, r)| ==> !EndsRun(OpenItems(s.st, r)[j])
  {
    ReachableSafe(c, s);
    if i < |s.out| { WritesAt(c, s.out, i); }
  }

  // ---- The trace index ----

  /** With no request in flight and no bypass write failed, every entry of the index
      names an open run, as runblock.go:107-113 has it, exactly when none names a
      truncated one. */
  lemma IndexWithinRunsIff(c: Config, s: Sys)
    requires Configured(c) && Reachable(c, s) && s.threads == map[] && s.failed == {}
    ensures (forall t <- s.st.traceToRun :: s.st.traceToRun[t] in s.st.runs)
       <==> (forall t <- s.st.traceToRun :: s.st.traceToRun[t] !in s.st.truncated)
  {
    ReachableSafe(c, s);
    forall t <- s.st.traceToRun ensures s.st.traceToRun[t] in s.st.runs <==> s.st.traceToRun[t] !in s.st.truncated {
      IndexBound(c, s, t);
    }
  }

  /** An entry of a truncated run outlives every flush: only a span of the same
      trace that carries a run id can change it. */
  lemma LeakedEntryStays(c: Config, s: Sys, a: Action, trace: string)
    requires Configured(c) && Safe(c, s) && Enabled(c, s, a)
    requires trace in s.st.traceToRun && s.st.traceToRun[trace] in s.st.truncated
    requires a.BeginTraces? ==> forall e <- Entries(a.traces) ::
               LookupAttr(e.record.attributes, "run.id") == "" || Hex.EncodeToString(e.record.traceId) != trace
    ensures var s' := Next(c, s, a);
            && trace in s'.st.traceToRun && s'.st.traceToRun[trace] == s.st.traceToRun[trace]
            && s.st.traceToRun[trace] in s'.st.truncated
  {
    match a
    case BeginTraces(_, req) => LearnedElsewhere(s.st.traceToRun, Entries(req), trace);
    case _ =>
  }

  lemma {:induction false} LearnedElsewhere(index: TraceIndex, es: seq<Entry<Span>>, trace: string)
    requires forall e <- es :: LookupAttr(e.record.attributes, "run.id") == "" || Hex.EncodeToString(e.record.traceId) != trace
    ensures (trace in Learned(index, es) <==> trace in index) && (trace in index ==> Learned(index, es)[trace] == index[trace])
  {
    if es != [] {
      assert es[|es| - 1] in es;
      LearnedElsewhere(index, es[..|es| - 1], trace);
    }
  }

  const RUN_TAG := [KeyValue("run.id", Some(StringValue("r")))]
  const LOG := LogRecord(0, 0, None, RUN_TAG)

  lemma RunTag()
    ensures LookupAttr(RUN_TAG, "run.id") == "r"
  {}

  lemma {:induction false} PlayedSnoc(c: Config, from: (State, seq<Emission>), calls: seq<Call>, mid: (State, seq<Emission>), call: Call)
    requires Played(c, from, calls, mid) && Legal(c, mid.0, call)
    ensures Played(c, from, calls + [call], Perform(c, mid.0, mid.1, call))
    decreases |calls|
  {
    if calls == [] {
      assert [call][1..] == [] && [] + [call] == [call];
    } else {
      Others(calls, [call]);
      PlayedSnoc(c, Perform(c, from.0, from.1, calls[0]), calls[1..], mid, call);
    }
  }

  lemma LosslessSnoc(calls: seq<Call>, call: Call)
    requires Lossless(calls) && !call.Failed?
    ensures Lossless(calls + [call])
  {}

  /** One item in one call. */
  lemma HandleOneItem(c: Config, st: State, out: seq<Emission>, p: Pending, now: int)
    ensures HandleAll(c, st, out, [p], now).0 == Enqueue(c, st, p, now).state
  {}

  lemma LogCall(c: Config, st: State, out: seq<Emission>)
    ensures Perform(c, st, out, Logs(Single(None, LOG), 0)).0
         == Enqueue(c, st, Pending("r", RunBlockItem(0, LogItem(LOG))), 0).state
  {
    RunTag();
    SingleEntries(None, LOG);
    var e := Entry(Key(None, "", None, ""), LOG);
    assert [e][..0] == [];
    assert LogRun(e) == "r";
    assert KeptLogs([e]) == KeptLogs([]) == [] && PendingLogs([e]) == PendingLogs([]) + [LogPending(e)] == [LogPending(e)];
    HandleOneItem(c, st, out, LogPending(e), 0);
  }

  /** Log records of one run, one call each, until its buffer holds `k`. */
  lemma {:induction false} FillRun(c: Config, k: nat) returns (calls: seq<Call>, to: (State, seq<Emission>))
    requires Configured(c) && k <= c.maxItems
    ensures Played(c, (EMPTY, []), calls, to) && Lossless(calls)
    ensures to.0.truncated == {} && to.0.traceToRun == map[] && to.0.runs.Keys <= {"r"} && |OpenItems(to.0, "r")| == k
  {
    if k == 0 {
      calls, to := [], (EMPTY, []);
    } else {
      var before, mid := FillRun(c, k - 1);
      var call := Logs(Single(None, LOG), 0);
      LogCall(c, mid.0, mid.1);
      PlayedSnoc(c, (EMPTY, []), before, mid, call);
      LosslessSnoc(before, call);
      calls, to := before + [call], Perform(c, mid.0, mid.1, call);
      ArriveItems(c, mid.0, Pending("r", RunBlockItem(0, LogItem(LOG))), 0);
    }
  }

  /** One record more truncates the run. */
  lemma TruncateRun(c: Config) returns (calls: seq<Call>, to: (State, seq<Emission>))
    requires Configured(c)
    ensures Played(c, (EMPTY, []), calls, to) && Lossless(calls) && to.0 == State(map[], map[], {"r"})
  {
    var before, mid := FillRun(c, c.maxItems);
    var call := Logs(Single(None, LOG), 0);
    LogCall(c, mid.0, mid.1);
    PlayedSnoc(c, (EMPTY, []), before, mid, call);
    LosslessSnoc(before, call);
    calls, to := before + [call], Perform(c, mid.0, mid.1, call);
    ArriveItems(c, mid.0, Pending("r", RunBlockItem(0, LogItem(LOG))), 0);
    assert mid.0.runs - {"r"} == map[] && WithoutRun(map[], "r") == map[];
  }

  /** A span of the run, with a trace id of its own length. */
  function Child(n: nat): Span {
    Span("child", Repeat(0 as byte, n + 1), [], [], 0, 0, RUN_TAG)
  }

  lemma TraceCall(c: Config, st: State, out: seq<Emission>, n: nat)
    requires "r" in st.truncated
    ensures Perform(c, st, out, Traces(Single(None, Child(n)), 0)).0
         == st.(traceToRun := st.traceToRun[Hex.EncodeToString(Child(n).traceId) := "r"])
  {
    RunTag();
    SingleEntries(None, Child(n));
    var e := Entry(Key(None, "", None, ""), Child(n));
    var index := Learned(st.traceToRun, [e]);
    assert [e][..0] == [];
    assert Learned(st.traceToRun, []) == st.traceToRun;
    assert index == st.traceToRun[Hex.EncodeToString(Child(n).traceId) := "r"];
    assert SpanRun(index, Child(n)) == "r";
    assert KeptSpans(index, [e]) == KeptSpans(index, []) == [];
    assert PendingSpans(index, [e]) == PendingSpans(index, []) + [SpanPending(index, Child(n))] == [SpanPending(index, Child(n))];
    HandleOneItem(c, st.(traceToRun := index), out, SpanPending(index, Child(n)), 0);
  }

  /** Entries for this many trace ids of growing length. */
  ghost predicate Grown(index: TraceIndex, n: nat) {
    |index| == n && forall t <- index :: |t| <= 2 * n && index[t] == "r"
  }

  lemma OneMoreEntry(index: TraceIndex, n: nat)
    requires Grown(index, n)
    ensures Grown(index[Hex.EncodeToString(Child(n).traceId) := "r"], n + 1)
  {
    assert |Hex.EncodeToString(Child(n).traceId)| == 2 * (n + 1);
  }

  lemma {:induction false} GrowIndex(c: Config, n: nat) returns (calls: seq<Call>, to: (State, seq<Emission>))
    requires Configured(c)
    ensures Played(c, (EMPTY, []), calls, to) && Lossless(calls) && to.0.runs == map[] && to.0.truncated == {"r"}
    ensures Grown(to.0.traceToRun, n)
  {
    if n == 0 {
      calls, to := TruncateRun(c);
    } else {
      var before, mid := GrowIndex(c, n - 1);
      var call := Traces(Single(None, Child(n - 1)), 0);
      TraceCall(c, mid.0, mid.1, n - 1);
      PlayedSnoc(c, (EMPTY, []), before, mid, call);
      LosslessSnoc(before, call);
      OneMoreEntry(mid.0.traceToRun, n - 1);
      calls, to := before + [call], Perform(c, mid.0, mid.1, call);
      assert to.0 == mid.0.(traceToRun := mid.0.traceToRun[Hex.EncodeToString(Child(n - 1).traceId) := "r"]);
    }
  }

  /** The index is not bounded by the open runs: for every configuration and every
      `n` there is a reachable state with no request in flight, no open run and `n`
      entries. */
  lemma IndexOutgrowsRuns(c: Config, n: nat) returns (s: Sys)
    requires Configured(c)
    ensures Reachable(c, s) && s.threads == map[] && s.failed == {} && s.st.runs == map[] && |s.st.traceToRun| == n
  {
    var calls, to := GrowIndex(c, n);
    s := PlayedIsReachable(c, calls, to);
  }

  /** A step under the lock. */
  lemma StepUnderLock(c: Config, l: Locked, la: LockedAction) returns (l': Locked)
    requires LockedReachable(c, l) && May(c, l, la)
    ensures l' == Go(c, l, la) && LockedReachable(c, l')
  {
    l' := Go(c, l, la);
    assert [la][1..] == [];
    assert LockedRun(c, l, [la]) == Some(l');
    LockedThen(c, l, [la]);
  }

  /** Between the passes of a request the index names a run that is not open yet. */
  lemma IndexAheadOfRuns(c: Config) returns (l: Locked, trace: string)
    ensures LockedReachable(c, l) && l.sys.failed == {} && l.sys.st.runs == map[] && l.sys.st.truncated == {}
    ensures trace in l.sys.st.traceToRun
  {
    RunTag();
    SingleEntries(None, Child(0));
    var e := Entry(Key(None, "", None, ""), Child(0));
    assert [e][..0] == [];
    assert Learned(map[], [e]) == Learn(Learned(map[], []), Child(0));
    assert LockedRun(c, Begun(0), []) == Some(Begun(0));
    l := StepUnderLock(c, Begun(0), Do(BeginTraces(0, Single(None, Child(0)))));
    trace := Hex.EncodeToString(Child(0).traceId);
  }

  const PLAIN := Span("plain", [], [], [], 0, 0, [])

  /** A span without a run and one with a run. */
  const MIXED: Request<Span> := OneScope(None, [PLAIN, Child(0)])

  function MixedEntries(): seq<Entry<Span>> {
    var key := Key(None, "", None, "");
    [Entry(key, PLAIN), Entry(key, Child(0))]
  }

  lemma MixedAre()
    ensures Entries(MIXED) == MixedEntries()
  {
    OneScopeEntries(None, [PLAIN, Child(0)]);
  }

  lemma MixedLearned() returns (trace: string)
    ensures var index := Learned(map[], MixedEntries()); trace in index && index[trace] == "r"
  {
    var es := MixedEntries();
    RunTag();
    trace := Hex.EncodeToString(Child(0).traceId);
    assert es[..1] == [es[0]] && [es[0]][..0] == [];
    assert Learned(map[], es) == Learn(Learned(map[], es[..1]), Child(0));
  }

  lemma PlainHasNoRun(index: TraceIndex)
    ensures SpanRun(index, PLAIN) == ""
  {}

  lemma MixedBegins(c: Config) returns (l: Locked, trace: string)
    ensures LockedReachable(c, l) && l.sys.failed == {} && l.sys.st.runs == map[] && l.sys.st.truncated == {}
    ensures trace in l.sys.st.traceToRun && l.sys.st.traceToRun[trace] == "r"
    ensures l.sys.threads == map[0 := Sorting(MixedEntries(), [], [])]
  {
    MixedAre();
    trace := MixedLearned();
    assert LockedRun(c, Begun(0), []) == Some(Begun(0));
    l := StepUnderLock(c, Begun(0), Do(BeginTraces(0, MIXED)));
  }

  /** The first pass and the second up to the span with a run. */
  lemma MixedHalfSorted(c: Config) returns (l: Locked, trace: string)
    ensures LockedReachable(c, l) && l.sys.failed == {} && l.sys.st.runs == map[] && l.sys.st.truncated == {}
    ensures trace in l.sys.st.traceToRun && l.sys.st.traceToRun[trace] == "r"
    ensures l.sys.threads == map[0 := Sorting([MixedEntries()[1]], [MixedEntries()[0]], [])]
  {
    var es := MixedEntries();
    var m;
    m, trace := MixedBegins(c);
    PlainHasNoRun(m.sys.st.traceToRun);
    l := StepUnderLock(c, m, Do(SortSpan(0)));
    assert es[1..] == [es[1]] && [] + [es[0]] == [es[0]];
    assert l.sys.threads[0] == Sorting(es[1..], [] + [es[0]], []);
  }

  /** The passes over the two spans. */
  lemma MixedSorted(c: Config) returns (l: Locked, trace: string)
    ensures LockedReachable(c, l) && l.sys.failed == {} && l.sys.st.runs == map[] && l.sys.st.truncated == {}
    ensures trace in l.sys.st.traceToRun && l.sys.st.traceToRun[trace] == "r"
    ensures 0 in l.sys.threads && l.sys.threads == map[0 := l.sys.threads[0]]
    ensures var th := l.sys.threads[0];
            th.Sorting? && th.rest == [] && th.kept == [MixedEntries()[0]] && RunsOf(th.pendings) == {"r"}
  {
    var m;
    m, trace := MixedHalfSorted(c);
    RunTag();
    l := StepUnderLock(c, m, Do(SortSpan(0)));
    assert [MixedEntries()[0]] + [] == [MixedEntries()[0]];
    assert l.sys.threads[0].pendings == [] + [SpanPending(m.sys.st.traceToRun, Child(0))];
  }

  /** The bypass request has one line. */
  lemma KeptHasALine(p: Printer)
    ensures |SpansText(p, Entries(Regrouped([MixedEntries()[0]])))| > 0
  {
    var kept := [MixedEntries()[0]];
    RegroupedWellGrouped(kept);
    RegroupedIsPermutation(kept);
    assert MixedEntries()[0] in multiset(kept);
    assert MixedEntries()[0] in Entries(Regrouped(kept));
  }

  lemma FailureDrops(c: Config, l: Locked)
    requires 0 in l.sys.threads && l.sys.threads == map[0 := l.sys.threads[0]] && l.sys.threads[0].Forwarding?
    requires l.sys.threads[0].lines != []
    ensures May(c, l, Do(ForwardFails(0, 0)))
    ensures var s := Go(c, l, Do(ForwardFails(0, 0))).sys;
            s.threads == map[] && s.st == l.sys.st && s.failed == l.sys.failed + RunsOf(l.sys.threads[0].pendings)
  {
    assert l.sys.threads - {0} == map[];
  }

  /** A request whose bypass write fails leaves an entry behind that names a run neither
      open nor truncated, with no request in flight. */
  lemma IndexAfterFailure(c: Config) returns (l: Locked, trace: string)
    ensures LockedReachable(c, l) && l.sys.threads == map[] && l.sys.failed == {"r"}
    ensures l.sys.st.runs == map[] && l.sys.st.truncated == {} && trace in l.sys.st.traceToRun
  {
    var l1;
    l1, trace := MixedSorted(c);
    KeptHasALine(c.printer);
    var l2 := StepUnderLock(c, l1, Do(EndSorting(0)));
    FailureDrops(c, l2);
    l := StepUnderLock(c, l2, Do(ForwardFails(0, 0)));
  }
}

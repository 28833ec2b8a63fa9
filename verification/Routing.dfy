/** Which run a record goes to (internal/sink/runblock.go:289-424, 436-533, 838-944), said
    on the attributes and the trace index alone, and that it gets there. */
module Routing {
  import opened Basics
  import opened Otlp
  import opened LineFormat
  import opened RunBlockFormat
  import opened Regroup
  import opened Bucketing
  import opened RunBlockState
  import opened History
  import opened Interleaving
  import opened Sequential
  import opened IndexLeaks
  import QuietRuns
  import Hex

  function RunAttr(attrs: seq<KeyValue>): string {
    LookupAttr(attrs, "run.id")
  }

  // ---- Spans ----

  /** The span's own run or, without one, the run its trace is mapped to; "" for none. */
  predicate SpanBelongs(index: TraceIndex, span: Span, run: string) {
    var own, trace := RunAttr(span.attributes), Hex.EncodeToString(span.traceId);
    if own != "" then run == own
    else if span.traceId != [] && trace in index then run == index[trace]
    else run == ""
  }

  function SpanItemOf(span: Span): RunBlockItem {
    RunBlockItem(span.start, SpanItem(span))
  }

  /** The i-th span is the next pending item of the run or the next span kept. */
  ghost predicate SpanPlaced(index: TraceIndex, es: seq<Entry<Span>>, i: nat, run: string)
    requires i < |es|
  {
    var pending, kept := PendingSpans(index, es), KeptSpans(index, es);
    var n, m := |PendingSpans(index, es[..i])|, |KeptSpans(index, es[..i])|;
    && n + m == i && |pending| + |kept| == |es|
    && (run != "" ==> n < |pending| && pending[n] == Pending(run, SpanItemOf(es[i].record)))
    && (run == "" ==> m < |kept| && kept[m] == es[i])
  }

  lemma SpanStaysPlaced(index: TraceIndex, es: seq<Entry<Span>>, e: Entry<Span>, i: nat, run: string)
    requires i < |es| && SpanPlaced(index, es, i, run)
    ensures SpanPlaced(index, es + [e], i, run)
  {
    PrefixOfSnoc(es, e, i);
    SpansNext(index, es, e);
  }

  lemma LastSpanPlaced(index: TraceIndex, es: seq<Entry<Span>>, e: Entry<Span>, run: string)
    requires SpanBelongs(index, e.record, run)
    ensures SpanPlaced(index, es + [e], |es|, run)
  {
    PrefixOfSnoc(es, e, |es|);
    SpansCounted(index, es);
    SpansNext(index, es, e);
  }

  /** The i-th span is pending for its run, behind the pending ones before it, or kept for
      the bypass, behind the kept ones before it; so each is one of the two, once. */
  lemma {:induction false} SpanRouted(index: TraceIndex, es: seq<Entry<Span>>, i: nat, run: string)
    requires i < |es| && SpanBelongs(index, es[i].record, run)
    ensures SpanPlaced(index, es, i, run)
  {
    var init, last := es[..|es| - 1], es[|es| - 1];
    assert es == init + [last];
    if i < |init| {
      SpanRouted(index, init, i, run);
      SpanStaysPlaced(index, init, last, i, run);
    } else {
      LastSpanPlaced(index, init, last, run);
    }
  }

  lemma {:induction false} SpansCounted(index: TraceIndex, es: seq<Entry<Span>>)
    ensures |PendingSpans(index, es)| + |KeptSpans(index, es)| == |es|
  {
    if es != [] { SpansCounted(index, es[..|es| - 1]); }
  }

  /** With any calls in flight: one look-up of the second pass. */
  lemma SortSpanRoutes(c: Config, s: Sys, t: nat, run: string)
    requires Enabled(c, s, SortSpan(t)) && SpanBelongs(s.st.traceToRun, s.threads[t].rest[0].record, run)
    ensures var th, e := s.threads[t], s.threads[t].rest[0];
            Next(c, s, SortSpan(t)).threads[t]
              == Sorting(th.rest[1..], if run == "" then th.kept + [e] else th.kept,
                         if run == "" then th.pendings else th.pendings + [Pending(run, SpanItemOf(e.record))])
  {}

  /** The run of a span in a request: its own; else what the last span of the request to
      name a run for the trace names; else what the index has had before. */
  ghost predicate TracedTo(index: TraceIndex, es: seq<Entry<Span>>, span: Span, run: string) {
    var own, trace := RunAttr(span.attributes), Hex.EncodeToString(span.traceId);
    if own != "" then run == own
    else if span.traceId == [] then run == ""
    else if exists j: nat, r :: Said(es, trace, r, j) then exists j: nat :: Said(es, trace, run, j)
    else run == if trace in index then index[trace] else ""
  }

  lemma LearnedRun(index: TraceIndex, es: seq<Entry<Span>>, span: Span, run: string)
    requires TracedTo(index, es, span, run)
    ensures SpanBelongs(Learned(index, es), span, run)
  {
    var trace := Hex.EncodeToString(span.traceId);
    if RunAttr(span.attributes) == "" && span.traceId != [] {
      if j: nat :| Said(es, trace, run, j) {
        LastWordLearned(index, es, j);
      } else {
        NothingSaid(index, es, trace);
      }
    }
  }

  /** Without a word for a trace its entry is as it was. */
  lemma {:induction false} NothingSaid(index: TraceIndex, es: seq<Entry<Span>>, trace: string)
    requires forall j: nat, r :: !Said(es, trace, r, j)
    ensures trace in Learned(index, es) <==> trace in index
    ensures trace in index ==> Learned(index, es)[trace] == index[trace]
  {
    if es != [] {
      var init, e := es[..|es| - 1], es[|es| - 1];
      assert es == init + [e];
      LastWordNext(init, e, |init|);
      if OwnRun(e) != "" && e.record.traceId != [] && Hex.EncodeToString(e.record.traceId) == trace {
        assert Said(es, trace, OwnRun(e), |init|);
      }
      forall j: nat, r ensures !Said(init, trace, r, j) {
        if Said(init, trace, r, j) { SaidBefore(init, e, trace, r, j); }
      }
      NothingSaid(index, init, trace);
    }
  }

  // ---- Logs ----

  predicate LogBelongs(e: Entry<LogRecord>, run: string) {
    var own, scope := RunAttr(e.record.attributes), RunAttr(ScopeAttributes(e.key.scope));
    && (own != "" ==> run == own)
    && (own == "" && scope != "" ==> run == scope)
    && (own == "" && scope == "" ==> run == RunAttr(ResourceAttributes(e.key.resource)))
  }

  function LogItemOf(lr: LogRecord): RunBlockItem {
    RunBlockItem(lr.time, LogItem(lr))
  }

  /** The i-th record is the next pending item of the run or the next record kept. */
  ghost predicate LogPlaced(es: seq<Entry<LogRecord>>, i: nat, run: string)
    requires i < |es|
  {
    var pending, kept := PendingLogs(es), KeptLogs(es);
    var n, m := |PendingLogs(es[..i])|, |KeptLogs(es[..i])|;
    && n + m == i && |pending| + |kept| == |es|
    && (run != "" ==> n < |pending| && pending[n] == Pending(run, LogItemOf(es[i].record)))
    && (run == "" ==> m < |kept| && kept[m] == es[i])
  }

  lemma LogStaysPlaced(es: seq<Entry<LogRecord>>, e: Entry<LogRecord>, i: nat, run: string)
    requires i < |es| && LogPlaced(es, i, run)
    ensures LogPlaced(es + [e], i, run)
  {
    PrefixOfSnoc(es, e, i);
    LogsNext(es, e);
  }

  lemma LastLogPlaced(es: seq<Entry<LogRecord>>, e: Entry<LogRecord>, run: string)
    requires LogBelongs(e, run)
    ensures LogPlaced(es + [e], |es|, run)
  {
    PrefixOfSnoc(es, e, |es|);
    LogsCounted(es);
    LogsNext(es, e);
  }

  lemma {:induction false} LogRouted(es: seq<Entry<LogRecord>>, i: nat, run: string)
    requires i < |es| && LogBelongs(es[i], run)
    ensures LogPlaced(es, i, run)
  {
    var init, last := es[..|es| - 1], es[|es| - 1];
    assert es == init + [last];
    if i < |init| {
      LogRouted(init, i, run);
      LogStaysPlaced(init, last, i, run);
    } else {
      LastLogPlaced(init, last, run);
    }
  }

  lemma {:induction false} LogsCounted(es: seq<Entry<LogRecord>>)
    ensures |PendingLogs(es)| + |KeptLogs(es)| == |es|
  {
    if es != [] { LogsCounted(es[..|es| - 1]); }
  }

  // ---- Data points ----

  predicate PointBelongs(dp: DataPoint, resourceRun: string, run: string) {
    run == if RunAttr(dp.attributes) != "" then RunAttr(dp.attributes) else resourceRun
  }

  /** The item of a data point carries all that its line takes. */
  predicate ItemOfPoint(it: RunBlockItem, name: string, kind: MetricKind, resourceAttrs: seq<KeyValue>, dp: DataPoint) {
    && it.timestamp == dp.time && it.payload.MetricItem? && it.payload.metricName == name
    && it.payload.resourceAttrs == resourceAttrs && it.payload.point.dp == dp
    && (match it.payload.point
        case Number(_, isSum) => kind == if isSum then Sum else Gauge
        case HistogramPoint(_) => kind == Histogram
        case SummaryPoint(_) => kind == Summary
        case ExpHistogramPoint(_) => kind == ExponentialHistogram)
  }

  /** The i-th point is the next pending item of the run or the next kept point. */
  ghost predicate PointPlaced(name: string, kind: MetricKind, resourceAttrs: seq<KeyValue>, dps: seq<DataPoint>,
                              resourceRun: string, i: nat, run: string)
    requires i < |dps|
  {
    var pending, kept := PendingPoints(name, kind, resourceAttrs, dps, resourceRun), KeptPoints(dps, resourceRun);
    var n, m := |PendingPoints(name, kind, resourceAttrs, dps[..i], resourceRun)|, |KeptPoints(dps[..i], resourceRun)|;
    && n + m == i && |pending| + |kept| == |dps|
    && (run != "" ==> n < |pending| && pending[n].runID == run && ItemOfPoint(pending[n].item, name, kind, resourceAttrs, dps[i]))
    && (run == "" ==> m < |kept| && kept[m] == dps[i])
  }

  lemma PointStaysPlaced(name: string, kind: MetricKind, resourceAttrs: seq<KeyValue>, dps: seq<DataPoint>, dp: DataPoint,
                         resourceRun: string, i: nat, run: string)
    requires i < |dps| && PointPlaced(name, kind, resourceAttrs, dps, resourceRun, i, run)
    ensures PointPlaced(name, kind, resourceAttrs, dps + [dp], resourceRun, i, run)
  {
    PrefixOfSnoc(dps, dp, i);
    PendingPointsNext(name, kind, resourceAttrs, dps, dp, resourceRun);
    KeptPointsNext(dps, dp, resourceRun);
  }

  lemma LastPointPlaced(name: string, kind: MetricKind, resourceAttrs: seq<KeyValue>, dps: seq<DataPoint>, dp: DataPoint,
                        resourceRun: string, run: string)
    requires PointBelongs(dp, resourceRun, run)
    ensures PointPlaced(name, kind, resourceAttrs, dps + [dp], resourceRun, |dps|, run)
  {
    PrefixOfSnoc(dps, dp, |dps|);
    PointsCounted(name, kind, resourceAttrs, dps, resourceRun);
    PendingPointsNext(name, kind, resourceAttrs, dps, dp, resourceRun);
    KeptPointsNext(dps, dp, resourceRun);
  }

  lemma {:induction false} PointRouted(name: string, kind: MetricKind, resourceAttrs: seq<KeyValue>, dps: seq<DataPoint>,
                                       resourceRun: string, i: nat, run: string)
    requires i < |dps| && PointBelongs(dps[i], resourceRun, run)
    ensures PointPlaced(name, kind, resourceAttrs, dps, resourceRun, i, run)
  {
    var init, last := dps[..|dps| - 1], dps[|dps| - 1];
    assert dps == init + [last];
    if i < |init| {
      PointRouted(name, kind, resourceAttrs, init, resourceRun, i, run);
      PointStaysPlaced(name, kind, resourceAttrs, init, last, resourceRun, i, run);
    } else {
      LastPointPlaced(name, kind, resourceAttrs, init, last, resourceRun, run);
    }
  }

  lemma {:induction false} PointsCounted(name: string, kind: MetricKind, resourceAttrs: seq<KeyValue>, dps: seq<DataPoint>, resourceRun: string)
    ensures |PendingPoints(name, kind, resourceAttrs, dps, resourceRun)| + |KeptPoints(dps, resourceRun)| == |dps|
  {
    if dps != [] { PointsCounted(name, kind, resourceAttrs, dps[..|dps| - 1], resourceRun); }
  }

  /** A metric goes on with everything but the points taken out of it. */
  predicate SameButPoints(m: Metric, kept: Metric) {
    && kept.name == m.name && kept.description == m.description && kept.unit == m.unit && m.data.Points? && kept.data.Points?
    && kept.data.kind == m.data.kind && kept.data.temporality == m.data.temporality && kept.data.monotonic == m.data.monotonic
  }

  /** The j-th point of the i-th metric of a request. */
  lemma {:induction false} PointOfRequest(es: seq<Entry<Metric>>, i: nat, j: nat, run: string)
    requires i < |es| && es[i].record.data.Points? && j < |es[i].record.data.points|
    requires PointBelongs(es[i].record.data.points[j], RunAttr(ResourceAttributes(es[i].key.resource)), run)
    ensures var m := es[i].record; var dp, attrs := m.data.points[j], ResourceAttributes(es[i].key.resource);
            && (run != "" ==> exists p <- PendingMetrics(es) :: p.runID == run && ItemOfPoint(p.item, m.name, m.data.kind, attrs, dp))
            && (run == "" ==> exists e <- KeptMetrics(es) ::
                                e.key == es[i].key && SameButPoints(m, e.record) && dp in e.record.data.points)
  {
    var init, last := es[..|es| - 1], es[|es| - 1];
    if i < |init| {
      PointOfRequest(init, i, j, run);
      InRequestBefore(es);
    } else {
      PointOfLast(es, j, run);
    }
  }

  lemma InRequestBefore(es: seq<Entry<Metric>>)
    requires es != []
    ensures forall p <- PendingMetrics(es[..|es| - 1]) :: p in PendingMetrics(es)
    ensures forall e <- KeptMetrics(es[..|es| - 1]) :: e in KeptMetrics(es)
  {}

  lemma PointOfLast(es: seq<Entry<Metric>>, j: nat, run: string)
    requires es != [] && es[|es| - 1].record.data.Points? && j < |es[|es| - 1].record.data.points|
    requires var last := es[|es| - 1];
             PointBelongs(last.record.data.points[j], RunAttr(ResourceAttributes(last.key.resource)), run)
    ensures var last := es[|es| - 1]; var m := last.record; var dp, attrs := m.data.points[j], ResourceAttributes(last.key.resource);
            && (run != "" ==> exists p <- PendingMetrics(es) :: p.runID == run && ItemOfPoint(p.item, m.name, m.data.kind, attrs, dp))
            && (run == "" ==> exists e <- KeptMetrics(es) ::
                                e.key == last.key && SameButPoints(m, e.record) && dp in e.record.data.points)
  {
    var last := es[|es| - 1];
    var m, attrs := last.record, ResourceAttributes(last.key.resource);
    PointRouted(m.name, m.data.kind, attrs, m.data.points, RunAttr(attrs), j, run);
    if run != "" {
      var n := |PendingPoints(m.name, m.data.kind, attrs, m.data.points[..j], RunAttr(attrs))|;
      var p := PendingPoints(m.name, m.data.kind, attrs, m.data.points, RunAttr(attrs))[n];
      assert p in PendingEntry(last) && p in PendingMetrics(es);
    } else {
      var kept := KeptPoints(m.data.points, RunAttr(attrs));
      var e := Entry(last.key, m.(data := m.data.(points := kept)));
      assert KeptEntry(last) == [e];
      assert e in KeptMetrics(es) && m.data.points[j] in kept;
    }
  }

  // ---- It gets there ----

  predicate Holds(e: Emission, run: string, it: RunBlockItem) {
    match e
    case Block(r, b, _, _) => r == run && it in b.items
    case Streamed(r, item) => r == run && item == it
    case Passthrough(_) => false
  }

  /** The item is in the run's open buffer, in a block of the run or streamed for it. */
  ghost predicate Delivered(st: State, out: seq<Emission>, run: string, it: RunBlockItem) {
    it in OpenItems(st, run) || exists e <- out :: Holds(e, run, it)
  }

  lemma TurnDelivers(c: Config, st: State, out: seq<Emission>, p: Pending, now: int)
    ensures var r := Enqueue(c, st, p, now); Delivered(r.state, Handled(out, r, p), p.runID, p.item)
  {
    var r := Enqueue(c, st, p, now);
    EnqueueAppends(c, st, p, now, p.runID);
    if r.stream {
      assert Holds(Streamed(p.runID, p.item), p.runID, p.item);
      assert Streamed(p.runID, p.item) in Handled(out, r, p);
    } else if p.item !in OpenItems(r.state, p.runID) {
      assert p.item in OpenItems(st, p.runID) + [p.item];
      assert Holds(r.block.value, p.runID, p.item) && r.block.value in Handled(out, r, p);
    }
  }

  lemma TurnKeepsDelivered(c: Config, st: State, out: seq<Emission>, p: Pending, now: int, run: string, it: RunBlockItem)
    requires Delivered(st, out, run, it)
    ensures var r := Enqueue(c, st, p, now); Delivered(r.state, Handled(out, r, p), run, it)
  {
    var r := Enqueue(c, st, p, now);
    EnqueueAppends(c, st, p, now, run);
    if it in OpenItems(st, run) {
      assert it in OpenItems(st, run) + (if run == p.runID && !r.stream then [p.item] else []);
      if it !in OpenItems(r.state, run) {
        assert Holds(r.block.value, run, it) && r.block.value in Handled(out, r, p);
      }
    } else {
      var e :| e in out && Holds(e, run, it);
      assert e in Handled(out, r, p);
    }
  }

  lemma {:induction false} LoopKeepsDelivered(c: Config, st: State, out: seq<Emission>, pendings: seq<Pending>, now: int, run: string, it: RunBlockItem)
    requires Delivered(st, out, run, it)
    ensures var (st', out') := HandleAll(c, st, out, pendings, now); Delivered(st', out', run, it)
    decreases |pendings|
  {
    if pendings != [] {
      var r := Enqueue(c, st, pendings[0], now);
      TurnKeepsDelivered(c, st, out, pendings[0], now, run, it);
      LoopKeepsDelivered(c, r.state, Handled(out, r, pendings[0]), pendings[1..], now, run, it);
    }
  }

  lemma {:induction false} LoopDelivers(c: Config, st: State, out: seq<Emission>, pendings: seq<Pending>, now: int, p: Pending)
    requires p in pendings
    ensures var (st', out') := HandleAll(c, st, out, pendings, now); Delivered(st', out', p.runID, p.item)
    decreases |pendings|
  {
    var r := Enqueue(c, st, pendings[0], now);
    if p == pendings[0] {
      TurnDelivers(c, st, out, p, now);
      LoopKeepsDelivered(c, r.state, Handled(out, r, p), pendings[1..], now, p.runID, p.item);
    } else {
      LoopDelivers(c, r.state, Handled(out, r, pendings[0]), pendings[1..], now, p);
    }
  }

  lemma PlannedIsDelivered(c: Config, st: State, out: seq<Emission>, call: Call, p: Pending)
    requires Consumes(call) && p in Planned(c, st, call).pendings
    ensures var (st', out') := Perform(c, st, out, call); Delivered(st', out', p.runID, p.item)
  {
    var plan := Planned(c, st, call);
    LoopDelivers(c, plan.state, Write(out, Passed(plan.lines)), plan.pendings, call.now, p);
  }

  /** A span, log record or data point without a run is written at once, by the bypass. */
  ghost predicate WrittenAtOnce(out: seq<Emission>, line: string) {
    exists lines :: Passthrough(lines) in out && line in lines
  }

  lemma BypassIsWritten(c: Config, st: State, out: seq<Emission>, call: Call, line: string)
    requires Consumes(call) && line in Planned(c, st, call).lines
    ensures WrittenAtOnce(Perform(c, st, out, call).1, line)
  {
    var plan := Planned(c, st, call);
    var out' := Write(out, Passed(plan.lines));
    assert out'[|out|] == Passthrough(plan.lines);
    QuietRuns.HandleAllGrows(c, plan.state, out', plan.pendings, call.now);
    assert Perform(c, st, out, call).1[|out|] == Passthrough(plan.lines);
  }

  lemma {:induction false} SpanLineInText(p: Printer, es: seq<Entry<Span>>, e: Entry<Span>)
    requires e in es
    ensures SpanLine(p, e.record) in SpansText(p, es)
  {
    if e != es[0] { SpanLineInText(p, es[1..], e); }
  }

  lemma {:induction false} LogLineInText(p: Printer, es: seq<Entry<LogRecord>>, e: Entry<LogRecord>)
    requires e in es
    ensures LogLine(p, e.record) in LogsText(p, es)
  {
    if e != es[0] { LogLineInText(p, es[1..], e); }
  }

  lemma {:induction false} PointLineInLines(p: Printer, name: string, kind: MetricKind, dps: seq<DataPoint>, attrs: seq<KeyValue>, dp: DataPoint)
    requires dp in dps
    ensures PointLine(p, name, kind, dp, attrs) in PointLines(p, name, kind, dps, attrs)
  {
    if dp != dps[0] { PointLineInLines(p, name, kind, dps[1..], attrs, dp); }
  }

  lemma {:induction false} PointLineInText(p: Printer, es: seq<Entry<Metric>>, e: Entry<Metric>, dp: DataPoint)
    requires e in es && e.record.data.Points? && dp in e.record.data.points
    ensures PointLine(p, e.record.name, e.record.data.kind, dp, ResourceAttributes(e.key.resource)) in MetricsText(p, es)
  {
    if e == es[0] {
      PointLineInLines(p, e.record.name, e.record.data.kind, e.record.data.points, ResourceAttributes(e.key.resource), dp);
    } else {
      PointLineInText(p, es[1..], e, dp);
    }
  }

  lemma InBypass<T>(kept: seq<Entry<T>>, e: Entry<T>)
    requires e in kept
    ensures e in Entries(Regrouped(kept))
  {
    RegroupedIsPermutation(kept);
    assert e in multiset(kept);
  }

  /** A span is in the block or buffer of the run it is traced to, or streamed for it;
      traced to no run, it is written at once as in line mode. */
  lemma SpanReachesRun(c: Config, st: State, out: seq<Emission>, req: Request<Span>, now: int, i: nat, run: string)
    requires i < |Entries(req)| && TracedTo(st.traceToRun, Entries(req), Entries(req)[i].record, run)
    ensures var span := Entries(req)[i].record; var (st', out') := Perform(c, st, out, Traces(req, now));
            && (run != "" ==> Delivered(st', out', run, SpanItemOf(span)))
            && (run == "" ==> WrittenAtOnce(out', SpanLine(c.printer, span)))
  {
    var es := Entries(req);
    var index := Learned(st.traceToRun, es);
    LearnedRun(st.traceToRun, es, es[i].record, run);
    SpanRouted(index, es, i, run);
    if run != "" {
      PlannedIsDelivered(c, st, out, Traces(req, now), Pending(run, SpanItemOf(es[i].record)));
    } else {
      InBypass(KeptSpans(index, es), es[i]);
      SpanLineInText(c.printer, Entries(Regrouped(KeptSpans(index, es))), es[i]);
      BypassIsWritten(c, st, out, Traces(req, now), SpanLine(c.printer, es[i].record));
    }
  }

  lemma LogReachesRun(c: Config, st: State, out: seq<Emission>, req: Request<LogRecord>, now: int, i: nat, run: string)
    requires i < |Entries(req)| && LogBelongs(Entries(req)[i], run)
    ensures var lr := Entries(req)[i].record; var (st', out') := Perform(c, st, out, Logs(req, now));
            && (run != "" ==> Delivered(st', out', run, LogItemOf(lr)))
            && (run == "" ==> WrittenAtOnce(out', LogLine(c.printer, lr)))
  {
    var es := Entries(req);
    LogRouted(es, i, run);
    if run != "" {
      PlannedIsDelivered(c, st, out, Logs(req, now), Pending(run, LogItemOf(es[i].record)));
    } else {
      InBypass(KeptLogs(es), es[i]);
      LogLineInText(c.printer, Entries(Regrouped(KeptLogs(es))), es[i]);
      BypassIsWritten(c, st, out, Logs(req, now), LogLine(c.printer, es[i].record));
    }
  }

  /** The j-th point of the i-th metric. */
  lemma PointReachesRun(c: Config, st: State, out: seq<Emission>, req: Request<Metric>, now: int, i: nat, j: nat, run: string)
    requires i < |Entries(req)| && Entries(req)[i].record.data.Points? && j < |Entries(req)[i].record.data.points|
    requires var e := Entries(req)[i]; PointBelongs(e.record.data.points[j], RunAttr(ResourceAttributes(e.key.resource)), run)
    ensures var e := Entries(req)[i]; var m, dp, attrs := e.record, e.record.data.points[j], ResourceAttributes(e.key.resource);
            var (st', out') := Perform(c, st, out, Metrics(req, now));
            && (run != "" ==> exists it :: ItemOfPoint(it, m.name, m.data.kind, attrs, dp) && Delivered(st', out', run, it))
            && (run == "" ==> WrittenAtOnce(out', PointLine(c.printer, m.name, m.data.kind, dp, attrs)))
  {
    var es := Entries(req);
    var m, dp, attrs := es[i].record, es[i].record.data.points[j], ResourceAttributes(es[i].key.resource);
    PointOfRequest(es, i, j, run);
    if run != "" {
      var p :| p in PendingMetrics(es) && p.runID == run && ItemOfPoint(p.item, m.name, m.data.kind, attrs, dp);
      PlannedIsDelivered(c, st, out, Metrics(req, now), p);
    } else {
      var e :| e in KeptMetrics(es) && e.key == es[i].key && SameButPoints(m, e.record) && dp in e.record.data.points;
      InBypass(KeptMetrics(es), e);
      PointLineInText(c.printer, Entries(Regrouped(KeptMetrics(es))), e, dp);
      BypassIsWritten(c, st, out, Metrics(req, now), PointLine(c.printer, m.name, m.data.kind, dp, attrs));
    }
  }
}

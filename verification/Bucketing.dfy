/** Splitting a request into records that belong to a run and records that do
    not (bucketMetricDataPoints, split*Points and the first loops of the
    Consume methods, internal/sink/runblock.go).

    The source's loops over resources, scopes and records are one loop over
    Entries here. */
module Bucketing {
  import opened Basics
  import opened Otlp
  import opened LineFormat
  import opened RunBlockFormat
  import opened Regroup
  import Hex

  datatype Pending = Pending(runID: string, item: RunBlockItem)

  function PendingBag(p: Printer, pendings: seq<Pending>): multiset<string> {
    if pendings == [] then multiset{} else multiset{ItemLine(p, pendings[0].item)} + PendingBag(p, pendings[1..])
  }

  lemma {:induction false} PendingBagAppend(p: Printer, a: seq<Pending>, b: seq<Pending>)
    ensures PendingBag(p, a + b) == PendingBag(p, a) + PendingBag(p, b)
  {
    if a == [] {
      assert a + b == b;
    } else {
      Others(a, b);
      PendingBagAppend(p, a[1..], b);
    }
  }

  lemma RegroupedNext<T>(es: seq<Entry<T>>, e: Entry<T>)
    ensures Regrouped(es + [e]) == AddTo(Regrouped(es), e)
  {}

  // ---- Metrics ----

  function PointRun(dp: DataPoint, resourceRun: string): string {
    var own := LookupAttr(dp.attributes, "run.id");
    if own == "" then resourceRun else own
  }

  function PointItem(name: string, kind: MetricKind, resourceAttrs: seq<KeyValue>, dp: DataPoint): RunBlockItem {
    var point := match kind
      case Sum => Number(dp, true)
      case Gauge => Number(dp, false)
      case Histogram => HistogramPoint(dp)
      case Summary => SummaryPoint(dp)
      case ExponentialHistogram => ExpHistogramPoint(dp);
    RunBlockItem(dp.time, MetricItem(name, resourceAttrs, point))
  }

  function KeptPoints(dps: seq<DataPoint>, resourceRun: string): seq<DataPoint> {
    if dps == [] then []
    else
      var last := dps[|dps| - 1];
      KeptPoints(dps[..|dps| - 1], resourceRun) + (if PointRun(last, resourceRun) == "" then [last] else [])
  }

  function PendingPoints(name: string, kind: MetricKind, resourceAttrs: seq<KeyValue>, dps: seq<DataPoint>, resourceRun: string): seq<Pending> {
    if dps == [] then []
    else
      var last := dps[|dps| - 1];
      var run := PointRun(last, resourceRun);
      PendingPoints(name, kind, resourceAttrs, dps[..|dps| - 1], resourceRun)
        + (if run == "" then [] else [Pending(run, PointItem(name, kind, resourceAttrs, last))])
  }

  function KeptMetric(m: Metric, resourceRun: string): Option<Metric> {
    match m.data
    case UnknownData => Some(m)
    case Points(_, points, _, _) =>
      var kept := KeptPoints(points, resourceRun);
      if kept == [] then None else Some(m.(data := m.data.(points := kept)))
  }

  function PendingMetric(m: Metric, resourceAttrs: seq<KeyValue>, resourceRun: string): seq<Pending> {
    match m.data
    case UnknownData => []
    case Points(kind, points, _, _) => PendingPoints(m.name, kind, resourceAttrs, points, resourceRun)
  }

  function MetricAttrs(e: Entry<Metric>): seq<KeyValue> { ResourceAttributes(e.key.resource) }

  function MetricRun(e: Entry<Metric>): string { LookupAttr(MetricAttrs(e), "run.id") }

  function KeptEntry(e: Entry<Metric>): seq<Entry<Metric>> {
    match KeptMetric(e.record, MetricRun(e))
    case Some(kept) => [Entry(e.key, kept)]
    case None => []
  }

  function KeptMetrics(es: seq<Entry<Metric>>): seq<Entry<Metric>> {
    if es == [] then [] else KeptMetrics(es[..|es| - 1]) + KeptEntry(es[|es| - 1])
  }

  function PendingEntry(e: Entry<Metric>): seq<Pending> {
    PendingMetric(e.record, MetricAttrs(e), MetricRun(e))
  }

  function PendingMetrics(es: seq<Entry<Metric>>): seq<Pending> {
    if es == [] then [] else PendingMetrics(es[..|es| - 1]) + PendingEntry(es[|es| - 1])
  }

  lemma KeptPointsNext(dps: seq<DataPoint>, dp: DataPoint, resourceRun: string)
    ensures KeptPoints(dps + [dp], resourceRun)
         == (if PointRun(dp, resourceRun) == "" then KeptPoints(dps, resourceRun) + [dp] else KeptPoints(dps, resourceRun))
  {
    assert (dps + [dp])[..|dps|] == dps;
    assert KeptPoints(dps, resourceRun) + [] == KeptPoints(dps, resourceRun);
  }

  lemma PendingPointsNext(name: string, kind: MetricKind, resourceAttrs: seq<KeyValue>, dps: seq<DataPoint>, dp: DataPoint, resourceRun: string)
    ensures var run := PointRun(dp, resourceRun); var before := PendingPoints(name, kind, resourceAttrs, dps, resourceRun);
            PendingPoints(name, kind, resourceAttrs, dps + [dp], resourceRun)
              == (if run == "" then before else before + [Pending(run, PointItem(name, kind, resourceAttrs, dp))])
  {
    assert (dps + [dp])[..|dps|] == dps;
    var before := PendingPoints(name, kind, resourceAttrs, dps, resourceRun);
    assert before + [] == before;
  }

  lemma MetricsNext(es: seq<Entry<Metric>>, i: nat)
    requires i < |es|
    ensures KeptMetrics(es[..i + 1]) == KeptMetrics(es[..i]) + KeptEntry(es[i])
    ensures PendingMetrics(es[..i + 1]) == PendingMetrics(es[..i]) + PendingEntry(es[i])
  {
    assert es[..i + 1][..i] == es[..i];
  }

  /** The four split*Points functions, which differ in the union member they build. */
  method SplitPoints(name: string, kind: MetricKind, resourceAttrs: seq<KeyValue>, dps: seq<DataPoint>, resourceRun: string,
                     pendings: seq<Pending>)
    returns (kept: seq<DataPoint>, all: seq<Pending>)
    ensures kept == KeptPoints(dps, resourceRun)
    ensures all == pendings + PendingPoints(name, kind, resourceAttrs, dps, resourceRun)
  {
    kept, all := [], pendings;
    for i := 0 to |dps|
      invariant kept == KeptPoints(dps[..i], resourceRun)
      invariant all == pendings + PendingPoints(name, kind, resourceAttrs, dps[..i], resourceRun)
    {
      assert dps[..i + 1] == dps[..i] + [dps[i]];
      KeptPointsNext(dps[..i], dps[i], resourceRun);
      PendingPointsNext(name, kind, resourceAttrs, dps[..i], dps[i], resourceRun);
      var runID := LookupAttr(dps[i].attributes, "run.id");
      if runID == "" { runID := resourceRun; }
      if runID == "" {
        kept := kept + [dps[i]];
      } else {
        ghost var before := PendingPoints(name, kind, resourceAttrs, dps[..i], resourceRun);
        Associative(pendings, before, [Pending(runID, PointItem(name, kind, resourceAttrs, dps[i]))]);
        all := all + [Pending(runID, PointItem(name, kind, resourceAttrs, dps[i]))];
      }
    }
    assert dps[..|dps|] == dps;
  }

  method BucketMetricDataPoints(m: Metric, resourceAttrs: seq<KeyValue>, resourceRun: string, pendings: seq<Pending>)
    returns (kept: Option<Metric>, all: seq<Pending>)
    ensures kept == KeptMetric(m, resourceRun)
    ensures all == pendings + PendingMetric(m, resourceAttrs, resourceRun)
  {
    match m.data
    case UnknownData =>
      kept, all := Some(m), pendings;
    case Points(kind, points, _, _) =>
      var left;
      left, all := SplitPoints(m.name, kind, resourceAttrs, points, resourceRun, pendings);
      kept := if |left| == 0 then None else Some(m.(data := m.data.(points := left)));
  }

  method BucketMetrics(req: Request<Metric>) returns (bypass: Request<Metric>, pendings: seq<Pending>)
    ensures bypass == Regrouped(KeptMetrics(Entries(req))) && pendings == PendingMetrics(Entries(req))
  {
    var es := Entries(req);
    var b := new Bypass<Metric>();
    pendings := [];
    for i := 0 to |es|
      invariant b.groups == Regrouped(KeptMetrics(es[..i])) && pendings == PendingMetrics(es[..i])
    {
      MetricsNext(es, i);
      ghost var before := KeptMetrics(es[..i]);
      var kept;
      kept, pendings := BucketMetricDataPoints(es[i].record, MetricAttrs(es[i]), MetricRun(es[i]), pendings);
      assert KeptEntry(es[i]) == if kept.Some? then [Entry(es[i].key, kept.value)] else [];
      if kept.Some? {
        b.EnsureScope(Entry(es[i].key, kept.value));
        RegroupedNext(before, Entry(es[i].key, kept.value));
      } else {
        assert before + [] == before;
      }
    }
    assert es[..|es|] == es;
    bypass := b.groups;
  }

  // ---- Logs ----

  /** The run of a record: its own attribute, else its scope's, else its resource's. */
  function LogRun(e: Entry<LogRecord>): string {
    var own := LookupAttr(e.record.attributes, "run.id");
    var scope := LookupAttr(ScopeAttributes(e.key.scope), "run.id");
    if own != "" then own else if scope != "" then scope
    else LookupAttr(ResourceAttributes(e.key.resource), "run.id")
  }

  function LogPending(e: Entry<LogRecord>): Pending {
    Pending(LogRun(e), RunBlockItem(e.record.time, LogItem(e.record)))
  }

  function KeptLogs(es: seq<Entry<LogRecord>>): seq<Entry<LogRecord>> {
    if es == [] then []
    else KeptLogs(es[..|es| - 1]) + (if LogRun(es[|es| - 1]) == "" then [es[|es| - 1]] else [])
  }

  function PendingLogs(es: seq<Entry<LogRecord>>): seq<Pending> {
    if es == [] then []
    else PendingLogs(es[..|es| - 1]) + (if LogRun(es[|es| - 1]) == "" then [] else [LogPending(es[|es| - 1])])
  }

  lemma LogsNext(es: seq<Entry<LogRecord>>, e: Entry<LogRecord>)
    ensures KeptLogs(es + [e]) == (if LogRun(e) == "" then KeptLogs(es) + [e] else KeptLogs(es))
    ensures PendingLogs(es + [e]) == (if LogRun(e) == "" then PendingLogs(es) else PendingLogs(es) + [LogPending(e)])
  {
    assert (es + [e])[..|es|] == es;
    assert KeptLogs(es) + [] == KeptLogs(es) && PendingLogs(es) + [] == PendingLogs(es);
  }

  method BucketLogs(req: Request<LogRecord>) returns (bypass: Request<LogRecord>, pendings: seq<Pending>)
    ensures bypass == Regrouped(KeptLogs(Entries(req))) && pendings == PendingLogs(Entries(req))
  {
    var es := Entries(req);
    var b := new Bypass<LogRecord>();
    pendings := [];
    for i := 0 to |es|
      invariant b.groups == Regrouped(KeptLogs(es[..i])) && pendings == PendingLogs(es[..i])
    {
      var e := es[i];
      ghost var kept := KeptLogs(es[..i]);
      assert es[..i + 1] == es[..i] + [e];
      LogsNext(es[..i], e);
      var runID := LookupAttr(e.record.attributes, "run.id");
      if runID == "" { runID := LookupAttr(ScopeAttributes(e.key.scope), "run.id"); }
      if runID == "" { runID := LookupAttr(ResourceAttributes(e.key.resource), "run.id"); }
      assert runID == LogRun(e);
      if runID == "" {
        b.EnsureScope(e);
        RegroupedNext(kept, e);
      } else {
        pendings := pendings + [Pending(runID, RunBlockItem(e.record.time, LogItem(e.record)))];
      }
    }
    assert es[..|es|] == es;
    bypass := b.groups;
  }

  // ---- Spans ----

  type TraceIndex = map<string, string>

  function Learn(index: TraceIndex, span: Span): TraceIndex {
    var run := LookupAttr(span.attributes, "run.id");
    if run != "" && span.traceId != [] then index[Hex.EncodeToString(span.traceId) := run] else index
  }

  /** The first pass of ConsumeTraces. */
  function Learned(index: TraceIndex, es: seq<Entry<Span>>): TraceIndex {
    if es == [] then index else Learn(Learned(index, es[..|es| - 1]), es[|es| - 1].record)
  }

  /** The run of a span: its own attribute, else the one its trace is mapped to. */
  function SpanRun(index: TraceIndex, span: Span): string {
    var own := LookupAttr(span.attributes, "run.id");
    var trace := Hex.EncodeToString(span.traceId);
    if own == "" && span.traceId != [] && trace in index then index[trace] else own
  }

  function SpanPending(index: TraceIndex, span: Span): Pending {
    Pending(SpanRun(index, span), RunBlockItem(span.start, SpanItem(span)))
  }

  function KeptSpans(index: TraceIndex, es: seq<Entry<Span>>): seq<Entry<Span>> {
    if es == [] then []
    else KeptSpans(index, es[..|es| - 1]) + (if SpanRun(index, es[|es| - 1].record) == "" then [es[|es| - 1]] else [])
  }

  function PendingSpans(index: TraceIndex, es: seq<Entry<Span>>): seq<Pending> {
    if es == [] then []
    else
      var last := es[|es| - 1].record;
      PendingSpans(index, es[..|es| - 1]) + (if SpanRun(index, last) == "" then [] else [SpanPending(index, last)])
  }

  lemma SpansNext(index: TraceIndex, es: seq<Entry<Span>>, e: Entry<Span>)
    ensures KeptSpans(index, es + [e])
         == (if SpanRun(index, e.record) == "" then KeptSpans(index, es) + [e] else KeptSpans(index, es))
    ensures PendingSpans(index, es + [e])
         == (if SpanRun(index, e.record) == "" then PendingSpans(index, es) else PendingSpans(index, es) + [SpanPending(index, e.record)])
  {
    assert (es + [e])[..|es|] == es;
    assert KeptSpans(index, es) + [] == KeptSpans(index, es) && PendingSpans(index, es) + [] == PendingSpans(index, es);
  }

  // ---- Kept and pending together are the request ----

  lemma PendingBagSnoc(p: Printer, pendings: seq<Pending>, last: Pending)
    ensures PendingBag(p, pendings + [last]) == PendingBag(p, pendings) + multiset{ItemLine(p, last.item)}
  {
    PendingBagAppend(p, pendings, [last]);
    assert [last][1..] == [];
  }

  /** What one metric, record or span contributes in line mode. */
  function MetricBagger(p: Printer): Entry<Metric> -> multiset<string> {
    (e: Entry<Metric>) => Bag(MetricLines(p, e.record, MetricAttrs(e)))
  }

  function LogBagger(p: Printer): Entry<LogRecord> -> multiset<string> {
    (e: Entry<LogRecord>) => multiset{LogLine(p, e.record)}
  }

  function SpanBagger(p: Printer): Entry<Span> -> multiset<string> {
    (e: Entry<Span>) => multiset{SpanLine(p, e.record)}
  }

  lemma {:induction false} MetricsBag(p: Printer, es: seq<Entry<Metric>>)
    ensures Bag(MetricsText(p, es)) == BagOf(MetricBagger(p), es)
  {
    if es != [] {
      MetricsBag(p, es[1..]);
      BagAppend(MetricLines(p, es[0].record, MetricAttrs(es[0])), MetricsText(p, es[1..]));
    }
  }

  lemma {:induction false} LogsBag(p: Printer, es: seq<Entry<LogRecord>>)
    ensures Bag(LogsText(p, es)) == BagOf(LogBagger(p), es)
  {
    if es != [] {
      LogsBag(p, es[1..]);
      LogLineIsPlain(p, es[0].record);
    }
  }

  lemma {:induction false} SpansBag(p: Printer, es: seq<Entry<Span>>)
    requires Sane(p)
    ensures Bag(SpansText(p, es)) == BagOf(SpanBagger(p), es)
  {
    if es != [] {
      SpansBag(p, es[1..]);
      SpanLineIsPlain(p, es[0].record);
    }
  }

  lemma {:induction false} PointLinesAppend(p: Printer, name: string, kind: MetricKind, a: seq<DataPoint>, b: seq<DataPoint>,
                                            resourceAttrs: seq<KeyValue>)
    ensures PointLines(p, name, kind, a + b, resourceAttrs)
         == PointLines(p, name, kind, a, resourceAttrs) + PointLines(p, name, kind, b, resourceAttrs)
  {
    if a == [] {
      assert a + b == b;
    } else {
      Others(a, b);
      PointLinesAppend(p, name, kind, a[1..], b, resourceAttrs);
    }
  }

  lemma PointLinesSnoc(p: Printer, name: string, kind: MetricKind, dps: seq<DataPoint>, dp: DataPoint, resourceAttrs: seq<KeyValue>)
    ensures Bag(PointLines(p, name, kind, dps + [dp], resourceAttrs))
         == Bag(PointLines(p, name, kind, dps, resourceAttrs)) + multiset{PointLine(p, name, kind, dp, resourceAttrs)}
  {
    var line := PointLine(p, name, kind, dp, resourceAttrs);
    assert [dp][1..] == [];
    assert PointLines(p, name, kind, [dp], resourceAttrs) == [line] + [] == [line];
    PointLinesAppend(p, name, kind, dps, [dp], resourceAttrs);
    PointLineIsPlain(p, name, kind, dp, resourceAttrs);
    BagOfLine(line);
    BagAppend(PointLines(p, name, kind, dps, resourceAttrs), [line]);
  }

  lemma PointItemLine(p: Printer, name: string, kind: MetricKind, resourceAttrs: seq<KeyValue>, dp: DataPoint)
    ensures ItemLine(p, PointItem(name, kind, resourceAttrs, dp)) == PointLine(p, name, kind, dp, resourceAttrs)
  {
    var item := PointItem(name, kind, resourceAttrs, dp).payload;
    assert item.MetricItem? && item.point.dp == dp && KindOf(item.point) == kind;
  }

  lemma {:induction false} PointsPartition(p: Printer, name: string, kind: MetricKind, resourceAttrs: seq<KeyValue>,
                                           dps: seq<DataPoint>, resourceRun: string)
    ensures Bag(PointLines(p, name, kind, dps, resourceAttrs))
         == Bag(PointLines(p, name, kind, KeptPoints(dps, resourceRun), resourceAttrs))
          + PendingBag(p, PendingPoints(name, kind, resourceAttrs, dps, resourceRun))
  {
    if dps == [] {
      assert KeptPoints(dps, resourceRun) == [] && PendingPoints(name, kind, resourceAttrs, dps, resourceRun) == [];
    } else {
      var init, last := dps[..|dps| - 1], dps[|dps| - 1];
      assert dps == init + [last];
      PointsPartition(p, name, kind, resourceAttrs, init, resourceRun);
      PointJoins(p, name, kind, resourceAttrs, init, last, resourceRun);
    }
  }

  lemma PointJoins(p: Printer, name: string, kind: MetricKind, resourceAttrs: seq<KeyValue>,
                   dps: seq<DataPoint>, dp: DataPoint, resourceRun: string)
    requires Bag(PointLines(p, name, kind, dps, resourceAttrs))
          == Bag(PointLines(p, name, kind, KeptPoints(dps, resourceRun), resourceAttrs))
           + PendingBag(p, PendingPoints(name, kind, resourceAttrs, dps, resourceRun))
    ensures Bag(PointLines(p, name, kind, dps + [dp], resourceAttrs))
         == Bag(PointLines(p, name, kind, KeptPoints(dps + [dp], resourceRun), resourceAttrs))
          + PendingBag(p, PendingPoints(name, kind, resourceAttrs, dps + [dp], resourceRun))
  {
    var kept, pending := KeptPoints(dps, resourceRun), PendingPoints(name, kind, resourceAttrs, dps, resourceRun);
    Either(Bag(PointLines(p, name, kind, dps, resourceAttrs)), Bag(PointLines(p, name, kind, kept, resourceAttrs)),
            PendingBag(p, pending), multiset{PointLine(p, name, kind, dp, resourceAttrs)});
    PointLinesSnoc(p, name, kind, dps, dp, resourceAttrs);
    KeptPointsNext(dps, dp, resourceRun);
    PendingPointsNext(name, kind, resourceAttrs, dps, dp, resourceRun);
    if PointRun(dp, resourceRun) == "" {
      PointLinesSnoc(p, name, kind, kept, dp, resourceAttrs);
    } else {
      PointItemLine(p, name, kind, resourceAttrs, dp);
      PendingBagSnoc(p, pending, Pending(PointRun(dp, resourceRun), PointItem(name, kind, resourceAttrs, dp)));
    }
  }

  lemma MetricPartition(p: Printer, m: Metric, resourceAttrs: seq<KeyValue>, resourceRun: string)
    ensures Bag(MetricLines(p, m, resourceAttrs))
         == (match KeptMetric(m, resourceRun) case Some(kept) => Bag(MetricLines(p, kept, resourceAttrs)) case None => multiset{})
          + PendingBag(p, PendingMetric(m, resourceAttrs, resourceRun))
  {
    if m.data.Points? {
      PointsPartition(p, m.name, m.data.kind, resourceAttrs, m.data.points, resourceRun);
      assert PointLines(p, m.name, m.data.kind, [], resourceAttrs) == [];
    }
  }

  lemma EntryPartition(p: Printer, e: Entry<Metric>)
    ensures MetricBagger(p)(e) == BagOf(MetricBagger(p), KeptEntry(e)) + PendingBag(p, PendingEntry(e))
  {
    MetricPartition(p, e.record, MetricAttrs(e), MetricRun(e));
    if KeptEntry(e) != [] { assert KeptEntry(e)[1..] == []; }
  }

  lemma {:induction false} MetricsPartitionBag(p: Printer, es: seq<Entry<Metric>>)
    ensures BagOf(MetricBagger(p), es) == BagOf(MetricBagger(p), KeptMetrics(es)) + PendingBag(p, PendingMetrics(es))
  {
    if es != [] {
      var f, init, last := MetricBagger(p), es[..|es| - 1], es[|es| - 1];
      MetricsPartitionBag(p, init);
      BagOfSnoc(f, es);
      EntryPartition(p, last);
      PendingBagAppend(p, PendingMetrics(init), PendingEntry(last));
      BagOfAppend(f, KeptMetrics(init), KeptEntry(last));
      Both(BagOf(f, init), BagOf(f, KeptMetrics(init)), PendingBag(p, PendingMetrics(init)),
           BagOf(f, KeptEntry(last)), PendingBag(p, PendingEntry(last)));
    }
  }

  lemma BagOfSnocTo<T>(f: Entry<T> -> multiset<string>, es: seq<Entry<T>>, e: Entry<T>)
    ensures BagOf(f, es + [e]) == BagOf(f, es) + f(e)
  {
    BagOfSnoc(f, es + [e]);
    assert (es + [e])[..|es|] == es;
  }

  lemma {:induction false} LogsPartitionBag(p: Printer, es: seq<Entry<LogRecord>>)
    ensures BagOf(LogBagger(p), es) == BagOf(LogBagger(p), KeptLogs(es)) + PendingBag(p, PendingLogs(es))
  {
    if es == [] {
      assert KeptLogs(es) == [] && PendingLogs(es) == [];
    } else {
      var init, last := es[..|es| - 1], es[|es| - 1];
      assert es == init + [last];
      LogsPartitionBag(p, init);
      LogJoins(p, init, last);
    }
  }

  lemma LogJoins(p: Printer, es: seq<Entry<LogRecord>>, e: Entry<LogRecord>)
    requires BagOf(LogBagger(p), es) == BagOf(LogBagger(p), KeptLogs(es)) + PendingBag(p, PendingLogs(es))
    ensures BagOf(LogBagger(p), es + [e]) == BagOf(LogBagger(p), KeptLogs(es + [e])) + PendingBag(p, PendingLogs(es + [e]))
  {
    var f := LogBagger(p);
    assert f(e) == multiset{ItemLine(p, LogPending(e).item)};
    Either(BagOf(f, es), BagOf(f, KeptLogs(es)), PendingBag(p, PendingLogs(es)), f(e));
    BagOfSnocTo(f, es, e);
    LogsNext(es, e);
    if LogRun(e) == "" {
      BagOfSnocTo(f, KeptLogs(es), e);
    } else {
      PendingBagSnoc(p, PendingLogs(es), LogPending(e));
    }
  }

  lemma {:induction false} SpansPartitionBag(p: Printer, index: TraceIndex, es: seq<Entry<Span>>)
    ensures BagOf(SpanBagger(p), es) == BagOf(SpanBagger(p), KeptSpans(index, es)) + PendingBag(p, PendingSpans(index, es))
  {
    if es == [] {
      assert KeptSpans(index, es) == [] && PendingSpans(index, es) == [];
    } else {
      var init, last := es[..|es| - 1], es[|es| - 1];
      assert es == init + [last];
      SpansPartitionBag(p, index, init);
      SpanJoins(p, index, init, last);
    }
  }

  lemma SpanJoins(p: Printer, index: TraceIndex, es: seq<Entry<Span>>, e: Entry<Span>)
    requires BagOf(SpanBagger(p), es) == BagOf(SpanBagger(p), KeptSpans(index, es)) + PendingBag(p, PendingSpans(index, es))
    ensures BagOf(SpanBagger(p), es + [e])
         == BagOf(SpanBagger(p), KeptSpans(index, es + [e])) + PendingBag(p, PendingSpans(index, es + [e]))
  {
    var f := SpanBagger(p);
    assert f(e) == multiset{ItemLine(p, SpanPending(index, e.record).item)};
    Either(BagOf(f, es), BagOf(f, KeptSpans(index, es)), PendingBag(p, PendingSpans(index, es)), f(e));
    BagOfSnocTo(f, es, e);
    SpansNext(index, es, e);
    if SpanRun(index, e.record) == "" {
      BagOfSnocTo(f, KeptSpans(index, es), e);
    } else {
      PendingBagSnoc(p, PendingSpans(index, es), SpanPending(index, e.record));
    }
  }

  /** Every line of line mode, for data points of all five shapes and metrics of
      unknown shape, is written by the bypass or belongs to one pending item. */
  lemma MetricsSplit(p: Printer, es: seq<Entry<Metric>>)
    ensures Bag(MetricsText(p, es))
         == Bag(MetricsText(p, Entries(Regrouped(KeptMetrics(es))))) + PendingBag(p, PendingMetrics(es))
  {
    MetricsPartitionBag(p, es);
    RegroupedBag(MetricBagger(p), KeptMetrics(es));
    MetricsBag(p, es);
    MetricsBag(p, Entries(Regrouped(KeptMetrics(es))));
  }

  lemma LogsSplit(p: Printer, es: seq<Entry<LogRecord>>)
    ensures Bag(LogsText(p, es)) == Bag(LogsText(p, Entries(Regrouped(KeptLogs(es))))) + PendingBag(p, PendingLogs(es))
  {
    LogsPartitionBag(p, es);
    RegroupedBag(LogBagger(p), KeptLogs(es));
    LogsBag(p, es);
    LogsBag(p, Entries(Regrouped(KeptLogs(es))));
  }

  lemma SpansSplit(p: Printer, index: TraceIndex, es: seq<Entry<Span>>)
    requires Sane(p)
    ensures Bag(SpansText(p, es))
         == Bag(SpansText(p, Entries(Regrouped(KeptSpans(index, es))))) + PendingBag(p, PendingSpans(index, es))
  {
    SpansPartitionBag(p, index, es);
    RegroupedBag(SpanBagger(p), KeptSpans(index, es));
    SpansBag(p, es);
    SpansBag(p, Entries(Regrouped(KeptSpans(index, es))));
  }
}

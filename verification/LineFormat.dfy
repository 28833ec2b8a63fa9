/** Line mode: one line of text per data point, log record and span
    (internal/format/common.go, metrics.go, logs.go, traces.go). */
module LineFormat {
  import opened Basics
  import opened Otlp
  import Hex

  /** What the Go runtime prints and the model leaves open: the calendar form of
      a non-zero timestamp and the quoted form of a log body. */
  datatype Printer = Printer(calendar: nat -> string, quote: string -> string)

  /** A calendar time starts with a digit of the year, so never with a space. */
  ghost predicate Sane(p: Printer) {
    forall nanos: nat :: |p.calendar(nanos)| > 0 && p.calendar(nanos)[0] != ' '
  }

  const METRIC_TAG := "[METRIC] "
  const EVENT_TAG := "[EVENT]  "
  const LOG_TAG := "[LOG]    "
  const TRACE_TAG := "[TRACE]  "

  function FormatTimestamp(p: Printer, nanos: nat): (s: string)
    ensures Sane(p) ==> |s| > 0 && s[0] != ' '
  {
    if nanos == 0 then "<no-timestamp>" else p.calendar(nanos)
  }

  function JoinAttributes(attrs: seq<KeyValue>): string
    requires attrs != []
  {
    var first := attrs[0].key + "=" + FormatAnyValue(attrs[0].value);
    if |attrs| == 1 then first else first + ", " + JoinAttributes(attrs[1..])
  }

  function FormatAttributes(attrs: seq<KeyValue>): string {
    if attrs == [] then "" else "{" + JoinAttributes(attrs) + "}"
  }

  function AttributeSuffix(attrs: seq<KeyValue>): string {
    var s := FormatAttributes(attrs);
    if s == "" then "" else " " + s
  }

  // ---- Metrics ----

  function KeysOf(attrs: seq<KeyValue>): set<string> {
    set kv <- attrs :: kv.key
  }

  function WithoutKeys(attrs: seq<KeyValue>, keys: set<string>): seq<KeyValue> {
    if attrs == [] then []
    else (if attrs[0].key in keys then [] else [attrs[0]]) + WithoutKeys(attrs[1..], keys)
  }

  function WithKey(attrs: seq<KeyValue>, key: string): (r: seq<KeyValue>)
    ensures r != [] <==> key in KeysOf(attrs)
  {
    if attrs == [] then []
    else (if attrs[0].key == key then [attrs[0]] else []) + WithKey(attrs[1..], key)
  }

  /** What mergeAttributes returns. */
  function Merged(resourceAttrs: seq<KeyValue>, pointAttrs: seq<KeyValue>): seq<KeyValue> {
    if resourceAttrs == [] then pointAttrs
    else if pointAttrs == [] then resourceAttrs
    else WithoutKeys(resourceAttrs, KeysOf(pointAttrs)) + pointAttrs
  }

  lemma {:induction false} WithKeyAppend(a: seq<KeyValue>, b: seq<KeyValue>, key: string)
    ensures WithKey(a + b, key) == WithKey(a, key) + WithKey(b, key)
  {
    if a == [] {
      assert a + b == b;
    } else {
      Others(a, b);
      WithKeyAppend(a[1..], b, key);
      Associative(if a[0].key == key then [a[0]] else [], WithKey(a[1..], key), WithKey(b, key));
    }
  }

  lemma {:induction false} WithoutKeysKeeps(attrs: seq<KeyValue>, keys: set<string>, key: string)
    ensures WithKey(WithoutKeys(attrs, keys), key) == if key in keys then [] else WithKey(attrs, key)
  {
    if attrs != [] {
      WithoutKeysKeeps(attrs[1..], keys, key);
      WithKeyAppend(if attrs[0].key in keys then [] else [attrs[0]], WithoutKeys(attrs[1..], keys), key);
    }
  }

  /** For every key the data point's entries replace the resource's, all of
      them and in their order; a key the point does not carry keeps the resource's. */
  lemma MergePrecedence(resourceAttrs: seq<KeyValue>, pointAttrs: seq<KeyValue>, key: string)
    ensures WithKey(Merged(resourceAttrs, pointAttrs), key)
         == if WithKey(pointAttrs, key) != [] then WithKey(pointAttrs, key) else WithKey(resourceAttrs, key)
  {
    WithoutKeysKeeps(resourceAttrs, KeysOf(pointAttrs), key);
    WithKeyAppend(WithoutKeys(resourceAttrs, KeysOf(pointAttrs)), pointAttrs, key);
  }

  method MergeAttributes(resourceAttrs: seq<KeyValue>, pointAttrs: seq<KeyValue>) returns (merged: seq<KeyValue>)
    ensures merged == Merged(resourceAttrs, pointAttrs)
  {
    if |resourceAttrs| == 0 { return pointAttrs; }
    if |pointAttrs| == 0 { return resourceAttrs; }
    var keys: set<string> := {};
    for i := 0 to |pointAttrs|
      invariant keys == KeysOf(pointAttrs[..i])
    {
      assert pointAttrs[..i + 1] == pointAttrs[..i] + [pointAttrs[i]];
      keys := keys + {pointAttrs[i].key};
    }
    assert pointAttrs[..|pointAttrs|] == pointAttrs;
    merged := [];
    for i := 0 to |resourceAttrs|
      invariant merged + WithoutKeys(resourceAttrs[i..], keys) == WithoutKeys(resourceAttrs, keys)
    {
      assert resourceAttrs[i..][1..] == resourceAttrs[i + 1..];
      if resourceAttrs[i].key !in keys {
        merged := merged + [resourceAttrs[i]];
      }
    }
    merged := merged + pointAttrs;
  }

  function PointLine(p: Printer, name: string, kind: MetricKind, dp: DataPoint, resourceAttrs: seq<KeyValue>): string {
    var value := match kind
      case Sum | Gauge =>
        " = " + (match dp.value case AsInt(s) => s case AsDouble(s) => s case NoValue => "0")
      case Histogram | Summary | ExponentialHistogram =>
        " count=" + Decimal(dp.count) + " sum=" + dp.sum;
    METRIC_TAG + (FormatTimestamp(p, dp.time) + " " + name + value
      + AttributeSuffix(Merged(resourceAttrs, dp.attributes)))
  }

  function PointLines(p: Printer, name: string, kind: MetricKind, dps: seq<DataPoint>, resourceAttrs: seq<KeyValue>): seq<string> {
    if dps == [] then []
    else [PointLine(p, name, kind, dps[0], resourceAttrs)] + PointLines(p, name, kind, dps[1..], resourceAttrs)
  }

  function UnknownLine(name: string): string {
    METRIC_TAG + (name + " (unknown data type)")
  }

  function MetricLines(p: Printer, m: Metric, resourceAttrs: seq<KeyValue>): seq<string> {
    match m.data
    case Points(kind, points, _, _) => PointLines(p, m.name, kind, points, resourceAttrs)
    case UnknownData => [UnknownLine(m.name)]
  }

  /** FormatMetrics over the metrics of a request, each under its resource. */
  function MetricsText(p: Printer, es: seq<Entry<Metric>>): seq<string> {
    if es == [] then []
    else MetricLines(p, es[0].record, ResourceAttributes(es[0].key.resource)) + MetricsText(p, es[1..])
  }

  lemma {:induction false} MetricsTextAppend(p: Printer, a: seq<Entry<Metric>>, b: seq<Entry<Metric>>)
    ensures MetricsText(p, a + b) == MetricsText(p, a) + MetricsText(p, b)
  {
    if a == [] {
      assert a + b == b;
    } else {
      Others(a, b);
      MetricsTextAppend(p, a[1..], b);
    }
  }

  lemma MetricsTextNext(p: Printer, es: seq<Entry<Metric>>, k: nat)
    requires k < |es|
    ensures MetricsText(p, es[..k + 1])
         == MetricsText(p, es[..k]) + MetricLines(p, es[k].record, ResourceAttributes(es[k].key.resource))
  {
    var one := [es[k]];
    assert es[..k + 1] == es[..k] + one;
    MetricsTextAppend(p, es[..k], one);
    assert one[1..] == [];
    assert MetricsText(p, one) == MetricLines(p, es[k].record, ResourceAttributes(es[k].key.resource)) + [];
  }

  method FormatMetric(p: Printer, m: Metric, resourceAttrs: seq<KeyValue>) returns (lines: seq<string>)
    ensures lines == MetricLines(p, m, resourceAttrs)
  {
    match m.data
    case UnknownData =>
      lines := [UnknownLine(m.name)];
    case Points(kind, points, _, _) =>
      lines := [];
      for i := 0 to |points|
        invariant lines + PointLines(p, m.name, kind, points[i..], resourceAttrs)
               == PointLines(p, m.name, kind, points, resourceAttrs)
      {
        assert points[i..][1..] == points[i + 1..];
        lines := lines + [PointLine(p, m.name, kind, points[i], resourceAttrs)];
      }
  }

  /** FormatMetrics's three nested loops, one method each. */
  method FormatMetrics(p: Printer, req: Request<Metric>) returns (lines: seq<string>)
    ensures lines == MetricsText(p, Entries(req))
  {
    lines := [];
    for i := 0 to |req|
      invariant lines == MetricsText(p, Entries(req[..i]))
    {
      var more := FormatScopes(p, req[i].resource, req[i].schemaUrl, req[i].scopes);
      EntriesNext(req, i);
      MetricsTextAppend(p, Entries(req[..i]), ResourceEntries(req[i].resource, req[i].schemaUrl, req[i].scopes));
      lines := lines + more;
    }
    assert req[..|req|] == req;
  }

  method FormatScopes(p: Printer, resource: Option<Resource>, schema: string, scopes: seq<ScopeGroup<Metric>>)
    returns (lines: seq<string>)
    ensures lines == MetricsText(p, ResourceEntries(resource, schema, scopes))
  {
    lines := [];
    for j := 0 to |scopes|
      invariant lines == MetricsText(p, ResourceEntries(resource, schema, scopes[..j]))
    {
      var more := FormatRecords(p, resource, schema, scopes[j]);
      ResourceEntriesNext(resource, schema, scopes, j);
      MetricsTextAppend(p, ResourceEntries(resource, schema, scopes[..j]), ScopeEntries(resource, schema, scopes[j]));
      lines := lines + more;
    }
    assert scopes[..|scopes|] == scopes;
  }

  method FormatRecords(p: Printer, resource: Option<Resource>, schema: string, sm: ScopeGroup<Metric>)
    returns (lines: seq<string>)
    ensures lines == MetricsText(p, ScopeEntries(resource, schema, sm))
  {
    lines := [];
    ghost var es := ScopeEntries(resource, schema, sm);
    for k := 0 to |sm.records|
      invariant lines == MetricsText(p, es[..k])
    {
      var more := FormatMetric(p, sm.records[k], ResourceAttributes(resource));
      MetricsTextNext(p, es, k);
      lines := lines + more;
    }
    assert es[..|es|] == es;
  }

  // ---- Logs ----

  function SeverityName(sev: int): string {
    if sev >= 21 then "FATAL" else if sev >= 17 then "ERROR" else if sev >= 13 then "WARN"
    else if sev >= 9 then "INFO" else if sev >= 5 then "DEBUG" else if sev >= 1 then "TRACE"
    else "UNSPECIFIED"
  }

  /** The value of the first attribute keyed event.name; unlike LookupAttr, a
      first one without a value ends the search. */
  function EventName(attrs: seq<KeyValue>): string {
    if attrs == [] then ""
    else if attrs[0].key == "event.name" then
      (if attrs[0].value.Some? then FormatAnyValue(attrs[0].value) else "")
    else EventName(attrs[1..])
  }

  function LogLine(p: Printer, lr: LogRecord): string {
    var ts := FormatTimestamp(p, lr.time);
    var event := EventName(lr.attributes);
    var body := if lr.body.Some? then FormatAnyValue(lr.body) else "";
    if event != "" then
      EVENT_TAG + (ts + " " + event + AttributeSuffix(WithoutKeys(lr.attributes, {"event.name"}))
        + (if body != "" && body != "<nil>" then " body=" + body else ""))
    else
      LOG_TAG + (ts + " " + SeverityName(lr.severity) + " " + p.quote(body) + AttributeSuffix(lr.attributes))
  }

  /** FormatLogs over the records of a request. */
  function LogsText(p: Printer, es: seq<Entry<LogRecord>>): seq<string> {
    if es == [] then [] else [LogLine(p, es[0].record)] + LogsText(p, es[1..])
  }

  // ---- Spans ----

  function SpanLine(p: Printer, span: Span): string {
    TRACE_TAG + (FormatTimestamp(p, span.start) + " " + span.name
      + " trace=" + Hex.EncodeToString(span.traceId) + " span=" + Hex.EncodeToString(span.spanId)
      + AttributeSuffix(span.attributes))
  }

  /** FormatTraces over the spans of a request. */
  function SpansText(p: Printer, es: seq<Entry<Span>>): seq<string> {
    if es == [] then [] else [SpanLine(p, es[0].record)] + SpansText(p, es[1..])
  }

  // ---- Reading lines back ----

  /** Banners and warnings carry none of the four tags. */
  predicate IsItemLine(line: string) {
    METRIC_TAG <= line || EVENT_TAG <= line || LOG_TAG <= line || TRACE_TAG <= line
  }

  function TrimSpaces(s: string): string {
    if s != "" && s[0] == ' ' then TrimSpaces(s[1..]) else s
  }

  /** A line without the indentation tree mode puts after the trace tag. */
  function Plain(line: string): string {
    if TRACE_TAG <= line then TRACE_TAG + TrimSpaces(line[|TRACE_TAG|..]) else line
  }

  /** The item lines of a text, without indentation, order forgotten. */
  function Bag(text: seq<string>): multiset<string> {
    if text == [] then multiset{}
    else (if IsItemLine(text[0]) then multiset{Plain(text[0])} else multiset{}) + Bag(text[1..])
  }

  lemma {:induction false} BagAppend(a: seq<string>, b: seq<string>)
    ensures Bag(a + b) == Bag(a) + Bag(b)
  {
    if a == [] {
      assert a + b == b;
    } else {
      Others(a, b);
      BagAppend(a[1..], b);
    }
  }

  lemma BagOfLine(line: string)
    requires IsItemLine(line) && Plain(line) == line
    ensures Bag([line]) == multiset{line}
  {}

  lemma BagOfOther(line: string)
    requires !IsItemLine(line)
    ensures Bag([line]) == multiset{}
  {
    assert [line][1..] == [];
  }

  lemma SpanLineIsPlain(p: Printer, span: Span)
    requires Sane(p)
    ensures IsItemLine(SpanLine(p, span)) && Plain(SpanLine(p, span)) == SpanLine(p, span)
  {
    var rest := SpanLine(p, span)[|TRACE_TAG|..];
    assert rest[0] == FormatTimestamp(p, span.start)[0];
  }

  /** Only a trace line can be indented. */
  lemma MetricLineIsPlain(rest: string)
    ensures IsItemLine(METRIC_TAG + rest) && Plain(METRIC_TAG + rest) == METRIC_TAG + rest
  {
    assert (METRIC_TAG + rest)[1] == 'M' && TRACE_TAG[1] == 'T';
  }

  lemma PointLineIsPlain(p: Printer, name: string, kind: MetricKind, dp: DataPoint, resourceAttrs: seq<KeyValue>)
    ensures var l := PointLine(p, name, kind, dp, resourceAttrs); IsItemLine(l) && Plain(l) == l
  {
    var l := PointLine(p, name, kind, dp, resourceAttrs);
    assert l == METRIC_TAG + l[|METRIC_TAG|..];
    MetricLineIsPlain(l[|METRIC_TAG|..]);
  }

  lemma LogLineIsPlain(p: Printer, lr: LogRecord)
    ensures IsItemLine(LogLine(p, lr)) && Plain(LogLine(p, lr)) == LogLine(p, lr)
  {
    assert LogLine(p, lr)[1] in {'E', 'L'};
  }

  ghost predicate AllItems(lines: seq<string>) {
    forall l <- lines :: IsItemLine(l)
  }

  lemma {:induction false} PointLinesAreItems(p: Printer, name: string, kind: MetricKind, dps: seq<DataPoint>, resourceAttrs: seq<KeyValue>)
    ensures AllItems(PointLines(p, name, kind, dps, resourceAttrs))
  {
    if dps != [] {
      PointLineIsPlain(p, name, kind, dps[0], resourceAttrs);
      PointLinesAreItems(p, name, kind, dps[1..], resourceAttrs);
    }
  }

  lemma {:induction false} MetricsTextItems(p: Printer, es: seq<Entry<Metric>>)
    ensures AllItems(MetricsText(p, es))
  {
    if es != [] {
      var m, attrs := es[0].record, ResourceAttributes(es[0].key.resource);
      if m.data.Points? { PointLinesAreItems(p, m.name, m.data.kind, m.data.points, attrs); }
      assert AllItems(MetricLines(p, m, attrs));
      MetricsTextItems(p, es[1..]);
    }
  }

  lemma {:induction false} LogsTextItems(p: Printer, es: seq<Entry<LogRecord>>)
    ensures AllItems(LogsText(p, es))
  {
    if es != [] {
      LogLineIsPlain(p, es[0].record);
      LogsTextItems(p, es[1..]);
    }
  }

  lemma {:induction false} SpansTextItems(p: Printer, es: seq<Entry<Span>>)
    ensures AllItems(SpansText(p, es))
  {
    if es != [] { SpansTextItems(p, es[1..]); }
  }
}

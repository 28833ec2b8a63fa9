/** Rendering of one run's block: banners, body in time order, tree indentation
    (internal/format/runblock.go). */
module RunBlockFormat {
  import opened Basics
  import opened Otlp
  import opened LineFormat
  import Depths = SpanDepths
  import Hex

  datatype RunBlockDataPoint =
    | Number(dp: DataPoint, isSum: bool)
    | HistogramPoint(dp: DataPoint)
    | SummaryPoint(dp: DataPoint)
    | ExpHistogramPoint(dp: DataPoint)

  /** A buffered record; metrics carry the attributes of their resource along. */
  datatype Payload =
    | SpanItem(span: Span)
    | LogItem(log: LogRecord)
    | MetricItem(metricName: string, resourceAttrs: seq<KeyValue>, point: RunBlockDataPoint)

  datatype RunBlockItem = RunBlockItem(timestamp: nat, payload: Payload)

  datatype Header = Header(runID: string, startedAt: string, mode: string, provider: string, model: string)
  datatype Footer = Footer(runID: string, finishedAt: string, outcome: string, turns: string)
  datatype RenderMode = Grouped | Tree

  // ---- One item ----

  function KindOf(point: RunBlockDataPoint): MetricKind {
    match point
    case Number(_, isSum) => if isSum then Sum else Gauge
    case HistogramPoint(_) => Histogram
    case SummaryPoint(_) => Summary
    case ExpHistogramPoint(_) => ExponentialHistogram
  }

  function BuildSyntheticMetric(name: string, point: RunBlockDataPoint): Metric {
    match point
    case Number(dp, isSum) =>
      if isSum then Metric(name, "", "", Points(Sum, [dp], 0, false))
      else Metric(name, "", "", Points(Gauge, [dp], 0, false))
    case HistogramPoint(dp) => Metric(name, "", "", Points(Histogram, [dp], 0, false))
    case SummaryPoint(dp) => Metric(name, "", "", Points(Summary, [dp], 0, false))
    case ExpHistogramPoint(dp) => Metric(name, "", "", Points(ExponentialHistogram, [dp], 0, false))
  }

  function IndentTraceLine(line: string, indent: string): string {
    if TRACE_TAG <= line then TRACE_TAG + (indent + line[|TRACE_TAG|..]) else indent + line
  }

  /** strings.Repeat("  ", depth). */
  function Indent(depth: nat): string {
    Repeat(' ', 2 * depth)
  }

  function RenderItem(p: Printer, it: RunBlockItem, depth: nat): seq<string> {
    match it.payload
    case SpanItem(span) =>
      if depth == 0 then [SpanLine(p, span)] else [IndentTraceLine(SpanLine(p, span), Indent(depth))]
    case LogItem(lr) => [LogLine(p, lr)]
    case MetricItem(name, attrs, point) => MetricLines(p, BuildSyntheticMetric(name, point), attrs)
  }

  /** The line the item has in line mode. */
  function ItemLine(p: Printer, it: RunBlockItem): string {
    match it.payload
    case SpanItem(span) => SpanLine(p, span)
    case LogItem(lr) => LogLine(p, lr)
    case MetricItem(name, attrs, point) => PointLine(p, name, KindOf(point), point.dp, attrs)
  }

  /** What line mode writes for these items, order forgotten. */
  function ItemBag(p: Printer, items: seq<RunBlockItem>): multiset<string> {
    if items == [] then multiset{} else multiset{ItemLine(p, items[0])} + ItemBag(p, items[1..])
  }

  lemma {:induction false} ItemBagAppend(p: Printer, a: seq<RunBlockItem>, b: seq<RunBlockItem>)
    ensures ItemBag(p, a + b) == ItemBag(p, a) + ItemBag(p, b)
  {
    if a == [] {
      assert a + b == b;
    } else {
      Others(a, b);
      ItemBagAppend(p, a[1..], b);
    }
  }

  lemma ItemBagSnoc(p: Printer, items: seq<RunBlockItem>, it: RunBlockItem)
    ensures ItemBag(p, items + [it]) == ItemBag(p, items) + multiset{ItemLine(p, it)}
  {
    ItemBagAppend(p, items, [it]);
    assert [it][1..] == [];
  }

  /** Without indentation an item renders as the one line of line mode, whichever
      of the five metric shapes it has. */
  lemma RenderItemIsLineMode(p: Printer, it: RunBlockItem)
    ensures RenderItem(p, it, 0) == [ItemLine(p, it)]
  {
    if it.payload.MetricItem? {
      var m := BuildSyntheticMetric(it.payload.metricName, it.payload.point);
      assert m.data.points[1..] == [];
      assert PointLines(p, m.name, m.data.kind, [], it.payload.resourceAttrs) == [];
    }
  }

  lemma ItemLineIsPlain(p: Printer, it: RunBlockItem)
    requires Sane(p)
    ensures IsItemLine(ItemLine(p, it)) && Plain(ItemLine(p, it)) == ItemLine(p, it)
  {
    match it.payload
    case SpanItem(span) => SpanLineIsPlain(p, span);
    case LogItem(lr) => LogLineIsPlain(p, lr);
    case MetricItem(name, attrs, point) => PointLineIsPlain(p, name, KindOf(point), point.dp, attrs);
  }

  lemma {:induction false} TrimIndent(n: nat, s: string)
    requires |s| > 0 && s[0] != ' '
    ensures TrimSpaces(Repeat(' ', n) + s) == s
  {
    var t := Repeat(' ', n) + s;
    if n > 0 {
      assert t[1..] == Repeat(' ', n - 1) + s;
      TrimIndent(n - 1, s);
    } else {
      assert t == s;
    }
  }

  /** Indenting only inserts spaces behind the tag: the plain line comes back, and
      the depth can be read off, because a timestamp never starts with a space. */
  lemma IndentedSpan(p: Printer, span: Span, depth: nat)
    requires Sane(p)
    ensures var lines := RenderItem(p, RunBlockItem(span.start, SpanItem(span)), depth);
            && |lines| == 1 && TRACE_TAG <= lines[0]
            && lines[0] == TRACE_TAG + (Indent(depth) + SpanLine(p, span)[|TRACE_TAG|..])
            && Plain(lines[0]) == SpanLine(p, span)
            && |lines[0]| - |Plain(lines[0])| == 2 * depth
  {
    var rest := SpanLine(p, span)[|TRACE_TAG|..];
    assert rest[0] == FormatTimestamp(p, span.start)[0];
    var line := TRACE_TAG + (Indent(depth) + rest);
    assert line[|TRACE_TAG|..] == Indent(depth) + rest;
    TrimIndent(2 * depth, rest);
    if depth == 0 {
      assert Indent(0) + rest == rest;
      assert line == SpanLine(p, span);
    }
  }

  // ---- Time order ----

  predicate Sorted(s: seq<RunBlockItem>) {
    forall i, j :: 0 <= i < j < |s| ==> s[i].timestamp <= s[j].timestamp
  }

  /** The items of one instant, in order. */
  function At(s: seq<RunBlockItem>, t: nat): seq<RunBlockItem> {
    if s == [] then [] else (if s[0].timestamp == t then [s[0]] else []) + At(s[1..], t)
  }

  /** In time order, items of the same instant in the order they came in. */
  ghost predicate StableSortOf(r: seq<RunBlockItem>, s: seq<RunBlockItem>) {
    Sorted(r) && forall t :: At(r, t) == At(s, t)
  }

  function Insert(x: RunBlockItem, s: seq<RunBlockItem>): seq<RunBlockItem> {
    if s == [] || x.timestamp < s[0].timestamp then [x] + s else [s[0]] + Insert(x, s[1..])
  }

  /** sort.SliceStable by timestamp; StableSortUnique shows there is no other. */
  function SortByTime(s: seq<RunBlockItem>): seq<RunBlockItem> {
    if s == [] then [] else Insert(s[|s| - 1], SortByTime(s[..|s| - 1]))
  }

  lemma {:induction false} AtAppend(a: seq<RunBlockItem>, b: seq<RunBlockItem>, t: nat)
    ensures At(a + b, t) == At(a, t) + At(b, t)
  {
    if a == [] {
      assert a + b == b;
    } else {
      AtAppend(a[1..], b, t);
      Others(a, b);
      Associative(if a[0].timestamp == t then [a[0]] else [], At(a[1..], t), At(b, t));
    }
  }

  lemma {:induction false} AtLater(s: seq<RunBlockItem>, t: nat)
    requires forall x <- s :: t < x.timestamp
    ensures At(s, t) == []
  {
    if s != [] { AtLater(s[1..], t); }
  }

  lemma {:induction false} InsertElements(x: RunBlockItem, s: seq<RunBlockItem>)
    ensures var r := Insert(x, s); |r| == |s| + 1 && multiset(r) == multiset(s) + multiset{x}
  {
    if !(s == [] || x.timestamp < s[0].timestamp) {
      InsertElements(x, s[1..]);
      assert s == [s[0]] + s[1..];
    }
  }

  lemma {:induction false} InsertSorted(x: RunBlockItem, s: seq<RunBlockItem>)
    requires Sorted(s)
    ensures Sorted(Insert(x, s))
  {
    if !(s == [] || x.timestamp < s[0].timestamp) {
      var r := Insert(x, s[1..]);
      InsertSorted(x, s[1..]);
      forall y <- r ensures s[0].timestamp <= y.timestamp {
        InsertElements(x, s[1..]);
        assert y in multiset(r);
      }
    }
  }

  lemma {:induction false} InsertAt(x: RunBlockItem, s: seq<RunBlockItem>, t: nat)
    requires Sorted(s)
    ensures At(Insert(x, s), t) == At(s, t) + At([x], t)
  {
    if s == [] || x.timestamp < s[0].timestamp {
      AtAppend([x], s, t);
      if t == x.timestamp { AtLater(s, t); }
    } else {
      InsertAt(x, s[1..], t);
    }
  }

  lemma {:induction false} SortByTimeStable(s: seq<RunBlockItem>)
    ensures StableSortOf(SortByTime(s), s) && |SortByTime(s)| == |s| && multiset(SortByTime(s)) == multiset(s)
  {
    if s != [] {
      var init, last := s[..|s| - 1], s[|s| - 1];
      SortByTimeStable(init);
      assert s == init + [last];
      forall t ensures At(SortByTime(s), t) == At(s, t) {
        InsertAt(last, SortByTime(init), t);
        AtAppend(init, [last], t);
      }
      InsertSorted(last, SortByTime(init));
      InsertElements(last, SortByTime(init));
    }
  }

  /** The first instant of a sorted sequence is the least instant it holds. */
  lemma FirstIsLeast(s: seq<RunBlockItem>, t: nat)
    requires Sorted(s) && At(s, t) != []
    ensures s != [] && s[0].timestamp <= t
  {}

  /** Two stable sorts of the same items are equal. */
  lemma {:induction false} StableSortUnique(a: seq<RunBlockItem>, b: seq<RunBlockItem>)
    requires Sorted(a) && Sorted(b) && forall t :: At(a, t) == At(b, t)
    ensures a == b
  {
    if a == [] {
      assert b != [] ==> At(a, b[0].timestamp) == At(b, b[0].timestamp);
    } else {
      var t := a[0].timestamp;
      assert At(a, t) == At(b, t);
      FirstIsLeast(b, t);
      assert At(a, b[0].timestamp) == At(b, b[0].timestamp);
      FirstIsLeast(a, b[0].timestamp);
      assert At(a, t)[0] == a[0] && At(b, t)[0] == b[0];
      forall u ensures At(a[1..], u) == At(b[1..], u) {
        assert At(a, u) == At(b, u);
        var k := if t == u then 1 else 0;
        assert At(a[1..], u) == At(a, u)[k..] && At(b[1..], u) == At(b, u)[k..];
      }
      StableSortUnique(a[1..], b[1..]);
    }
  }

  lemma {:induction false} InsertKeepsBag(p: Printer, x: RunBlockItem, s: seq<RunBlockItem>)
    ensures ItemBag(p, Insert(x, s)) == ItemBag(p, s) + multiset{ItemLine(p, x)}
  {
    if !(s == [] || x.timestamp < s[0].timestamp) {
      InsertKeepsBag(p, x, s[1..]);
    }
  }

  lemma SortBagNext(p: Printer, s: seq<RunBlockItem>, x: RunBlockItem)
    requires ItemBag(p, SortByTime(s)) == ItemBag(p, s)
    ensures ItemBag(p, SortByTime(s + [x])) == ItemBag(p, s + [x])
  {
    assert (s + [x])[..|s|] == s;
    assert SortByTime(s + [x]) == Insert(x, SortByTime(s));
    InsertKeepsBag(p, x, SortByTime(s));
    ItemBagSnoc(p, s, x);
  }

  lemma {:induction false} SortKeepsBag(p: Printer, s: seq<RunBlockItem>)
    ensures ItemBag(p, SortByTime(s)) == ItemBag(p, s)
  {
    if s == [] {
      assert SortByTime(s) == s;
    } else {
      var init, last := s[..|s| - 1], s[|s| - 1];
      assert s == init + [last];
      SortKeepsBag(p, init);
      SortBagNext(p, init, last);
    }
  }

  // ---- Depths of the buffered spans ----

  /** Go ranges over a map in an order of its own; here an argument picks it. */
  type Visit = set<string> -> seq<string>

  ghost predicate Listing(visit: Visit) {
    forall ids :: Lists(visit(ids), ids)
  }

  ghost predicate Lists(order: seq<string>, ids: set<string>) {
    |order| == |ids| && forall x :: x in order <==> x in ids
  }

  /** The buffered spans by hexadecimal span id; a later span replaces an earlier one. */
  function Index(items: seq<RunBlockItem>): map<string, Span> {
    if items == [] then map[]
    else
      var spans := Index(items[..|items| - 1]);
      match items[|items| - 1].payload
      case SpanItem(span) => if span.spanId != [] then spans[Hex.EncodeToString(span.spanId) := span] else spans
      case _ => spans
  }

  /** The parent of a buffered span, unless it has none or it is not buffered. */
  function ParentOf(spans: map<string, Span>, id: string): Option<string>
    requires id in spans
  {
    var parent := Hex.EncodeToString(spans[id].parentSpanId);
    if spans[id].parentSpanId == [] || parent !in spans then None else Some(parent)
  }

  function ParentGraph(spans: map<string, Span>): (g: Depths.Graph<string>)
    ensures Depths.Closed(g) && g.Keys == spans.Keys && |g| == |spans|
    ensures forall id {:trigger ParentOf(spans, id)} :: id in spans ==> g[id] == ParentOf(spans, id)
  {
    var g := map id <- spans :: ParentOf(spans, id);
    assert g.Keys == spans.Keys;
    g
  }

  function SpanDepthMap(items: seq<RunBlockItem>, visit: Visit): map<string, nat>
    requires Listing(visit)
  {
    var g := ParentGraph(Index(items));
    assert Lists(visit(g.Keys), g.Keys);
    Depths.ResolveAll(g, map[], visit(g.Keys))
  }

  /** The memo of computeSpanDepths and the closure that fills it. */
  class DepthTable {
    const spans: map<string, Span>
    ghost const graph: Depths.Graph<string>
    var depth: map<string, nat>

    constructor (spans: map<string, Span>)
      ensures this.spans == spans && depth == map[] && graph == ParentGraph(spans)
    {
      this.spans := spans;
      this.graph := ParentGraph(spans);
      depth := map[];
    }

    ghost predicate Linked() {
      && Depths.Closed(graph) && graph.Keys == spans.Keys && |graph| == |spans|
      && forall id {:trigger ParentOf(spans, id)} :: id in spans ==> graph[id] == ParentOf(spans, id)
    }

    method Resolve(id: string, hops: nat) returns (d: nat)
      requires Linked() && id in spans && hops <= |spans| + 1
      modifies this
      ensures (depth, d) == Depths.Resolve(graph, old(depth), id, hops)
      decreases |spans| + 1 - hops
    {
      if id in depth { return depth[id]; }
      if hops > |spans| {
        depth := depth[id := 0];
        return 0;
      }
      var span := spans[id];
      assert graph[id] == ParentOf(spans, id);
      if span.parentSpanId == [] {
        depth := depth[id := 0];
        return 0;
      }
      var parentID := Hex.EncodeToString(span.parentSpanId);
      if parentID !in spans {
        depth := depth[id := 0];
        return 0;
      }
      d := Resolve(parentID, hops + 1);
      d := d + 1;
      depth := depth[id := d];
    }

    method ResolveEach(ids: seq<string>)
      requires Linked() && forall id <- ids :: id in spans
      modifies this
      ensures depth == Depths.ResolveAll(graph, old(depth), ids)
    {
      for i := 0 to |ids|
        invariant Depths.ResolveAll(graph, depth, ids[i..]) == Depths.ResolveAll(graph, old(depth), ids)
      {
        assert ids[i] in ids && ids[i..][0] == ids[i] && ids[i..][1..] == ids[i + 1..];
        var _ := Resolve(ids[i], 0);
      }
    }
  }

  method IndexSpans(items: seq<RunBlockItem>) returns (spans: map<string, Span>)
    ensures spans == Index(items)
  {
    spans := map[];
    for i := 0 to |items|
      invariant spans == Index(items[..i])
    {
      assert items[..i + 1][..i] == items[..i];
      match items[i].payload {
        case SpanItem(span) =>
          if |span.spanId| > 0 { spans := spans[Hex.EncodeToString(span.spanId) := span]; }
        case _ =>
      }
    }
    assert items[..|items|] == items;
  }

  method ComputeSpanDepths(items: seq<RunBlockItem>, visit: Visit) returns (depth: map<string, nat>)
    requires Listing(visit)
    ensures depth == SpanDepthMap(items, visit)
  {
    var spans := IndexSpans(items);
    var table := new DepthTable(spans);
    var ids := visit(spans.Keys);
    assert Lists(ids, spans.Keys) && ParentGraph(spans).Keys == spans.Keys;
    table.ResolveEach(ids);
    depth := table.depth;
  }

  /** What tree mode indents a span by, for a span whose parents are buffered and
      do not loop: the number of its buffered ancestors. */
  lemma SpanDepthExact(items: seq<RunBlockItem>, visit: Visit, id: string, k: nat)
    requires Listing(visit) && id in Index(items)
    requires Depths.Chain(ParentGraph(Index(items)), id, k)
    ensures id in SpanDepthMap(items, visit) && SpanDepthMap(items, visit)[id] == k < |Index(items)|
  {
    var g := ParentGraph(Index(items));
    assert Lists(visit(g.Keys), g.Keys);
    Depths.DepthExact(g, visit(g.Keys), id, k);
  }

  lemma SpanDepthBound(items: seq<RunBlockItem>, visit: Visit)
    requires Listing(visit)
    ensures forall id <- SpanDepthMap(items, visit) :: SpanDepthMap(items, visit)[id] <= 2 * |Index(items)|
  {
    var g := ParentGraph(Index(items));
    assert Lists(visit(g.Keys), g.Keys);
    Depths.DepthBound(g, visit(g.Keys));
  }

  /** The items with other trace ids. */
  ghost predicate SameButTraces(a: seq<RunBlockItem>, b: seq<RunBlockItem>) {
    |a| == |b| && forall i :: 0 <= i < |a| ==>
      if a[i].payload.SpanItem? && b[i].payload.SpanItem? then
        a[i].payload.span.(traceId := []) == b[i].payload.span.(traceId := [])
      else !a[i].payload.SpanItem? && !b[i].payload.SpanItem?
  }

  lemma {:induction false} IndexIgnoresTraces(a: seq<RunBlockItem>, b: seq<RunBlockItem>)
    requires SameButTraces(a, b)
    ensures Index(a).Keys == Index(b).Keys
    ensures forall id <- Index(a) :: Index(a)[id].parentSpanId == Index(b)[id].parentSpanId
  {
    if a != [] {
      var i, j := a[..|a| - 1], b[..|b| - 1];
      IndexIgnoresTraces(i, j);
      var last, last' := a[|a| - 1].payload, b[|b| - 1].payload;
      assert last.SpanItem? ==> last'.SpanItem? && last.span.spanId == last'.span.spanId;
    }
  }

  /** Depths are keyed by span id alone: which trace a span belongs to makes no
      difference, so spans of different traces with one id share one entry. */
  lemma DepthsIgnoreTraces(a: seq<RunBlockItem>, b: seq<RunBlockItem>, visit: Visit)
    requires Listing(visit) && SameButTraces(a, b)
    ensures SpanDepthMap(a, visit) == SpanDepthMap(b, visit)
  {
    IndexIgnoresTraces(a, b);
    var g, h := ParentGraph(Index(a)), ParentGraph(Index(b));
    forall id <- g ensures g[id] == h[id] {
      assert g[id] == ParentOf(Index(a), id) && h[id] == ParentOf(Index(b), id);
    }
    assert g == h;
  }

  // ---- The block ----

  function DepthOf(depths: map<string, nat>, it: RunBlockItem): nat {
    match it.payload
    case SpanItem(span) =>
      var id := Hex.EncodeToString(span.spanId);
      if id in depths then depths[id] else 0
    case _ => 0
  }

  /** The body of a block; grouped mode has no depths. */
  function Body(p: Printer, depths: map<string, nat>, sorted: seq<RunBlockItem>): seq<string> {
    if sorted == [] then []
    else RenderItem(p, sorted[0], DepthOf(depths, sorted[0])) + Body(p, depths, sorted[1..])
  }

  function DepthsFor(mode: RenderMode, visit: Visit, sorted: seq<RunBlockItem>): map<string, nat>
    requires Listing(visit)
  {
    if mode.Tree? then SpanDepthMap(sorted, visit) else map[]
  }

  function Earliest(items: seq<RunBlockItem>): nat
    requires items != []
  {
    var last := items[|items| - 1].timestamp;
    if |items| == 1 then last
    else
      var t := Earliest(items[..|items| - 1]);
      if last < t then last else t
  }

  function Labelled(name: string, value: string): string {
    if value == "" then "" else name + value
  }

  function HeaderText(h: Header, started: string): string {
    "=== run " + h.runID + " started " + started + Labelled(" mode=", h.mode)
      + Labelled(" provider=", h.provider) + Labelled(" model=", h.model) + " ==="
  }

  function FooterText(f: Footer, finished: string): string {
    "=== run " + f.runID + " finished " + finished
      + " outcome=" + (if f.outcome == "" then "<unknown>" else f.outcome)
      + Labelled(" turns=", f.turns) + " ==="
  }

  /** The start of the run as the header shows it. */
  function HeaderStart(p: Printer, h: Header, items: seq<RunBlockItem>): string {
    if h.startedAt == "" && items != [] then FormatTimestamp(p, Earliest(items)) else h.startedAt
  }

  function FooterEnd(p: Printer, f: Footer, sorted: seq<RunBlockItem>): string {
    if f.finishedAt == "" && sorted != [] then FormatTimestamp(p, sorted[|sorted| - 1].timestamp) else f.finishedAt
  }

  function HeaderLine(p: Printer, h: Header, items: seq<RunBlockItem>): string {
    HeaderText(h, HeaderStart(p, h, items))
  }

  function FooterLine(p: Printer, f: Footer, sorted: seq<RunBlockItem>): string {
    FooterText(f, FooterEnd(p, f, sorted))
  }

  /** RenderRunBlock: header, body, footer. */
  function Block(p: Printer, mode: RenderMode, visit: Visit, h: Header, items: seq<RunBlockItem>, f: Footer): seq<string>
    requires Listing(visit)
  {
    var sorted := SortByTime(items);
    [HeaderLine(p, h, items)] + Body(p, DepthsFor(mode, visit, sorted), sorted) + [FooterLine(p, f, sorted)]
  }

  function TruncationWarning(runID: string, count: nat): string {
    "[WARN] run " + runID + " truncated at " + Decimal(count) + " items"
  }

  method RenderHeader(p: Printer, h: Header, items: seq<RunBlockItem>) returns (line: string)
    ensures line == HeaderLine(p, h, items)
  {
    var started := h.startedAt;
    if started == "" && |items| > 0 {
      var earliest := items[0].timestamp;
      for i := 1 to |items|
        invariant earliest == Earliest(items[..i])
      {
        assert items[..i + 1][..i] == items[..i];
        if items[i].timestamp < earliest { earliest := items[i].timestamp; }
      }
      assert items[..|items|] == items;
      started := FormatTimestamp(p, earliest);
    }
    line := HeaderText(h, started);
  }

  method RenderFooter(p: Printer, f: Footer, sorted: seq<RunBlockItem>) returns (line: string)
    ensures line == FooterLine(p, f, sorted)
  {
    var finished := f.finishedAt;
    if finished == "" && |sorted| > 0 {
      finished := FormatTimestamp(p, sorted[|sorted| - 1].timestamp);
    }
    line := FooterText(f, finished);
  }

  lemma {:induction false} BodyAppend(p: Printer, depths: map<string, nat>, a: seq<RunBlockItem>, b: seq<RunBlockItem>)
    ensures Body(p, depths, a + b) == Body(p, depths, a) + Body(p, depths, b)
  {
    if a == [] {
      assert a + b == b;
    } else {
      Others(a, b);
      BodyAppend(p, depths, a[1..], b);
      Associative(RenderItem(p, a[0], DepthOf(depths, a[0])), Body(p, depths, a[1..]), Body(p, depths, b));
    }
  }

  lemma BodyNext(p: Printer, depths: map<string, nat>, s: seq<RunBlockItem>, i: nat)
    requires i < |s|
    ensures Body(p, depths, s[..i + 1]) == Body(p, depths, s[..i]) + RenderItem(p, s[i], DepthOf(depths, s[i]))
  {
    var one := [s[i]];
    assert s[..i + 1] == s[..i] + one;
    BodyAppend(p, depths, s[..i], one);
    assert one[1..] == [];
    assert Body(p, depths, one) == RenderItem(p, s[i], DepthOf(depths, s[i])) + [];
  }

  method RenderGroupedBody(p: Printer, sorted: seq<RunBlockItem>) returns (out: seq<string>)
    ensures out == Body(p, map[], sorted)
  {
    out := [];
    for i := 0 to |sorted|
      invariant out == Body(p, map[], sorted[..i])
    {
      BodyNext(p, map[], sorted, i);
      out := out + RenderItem(p, sorted[i], 0);
    }
    assert sorted[..|sorted|] == sorted;
  }

  method RenderTreeBody(p: Printer, visit: Visit, sorted: seq<RunBlockItem>) returns (out: seq<string>)
    requires Listing(visit)
    ensures out == Body(p, SpanDepthMap(sorted, visit), sorted)
  {
    var depth := ComputeSpanDepths(sorted, visit);
    out := [];
    for i := 0 to |sorted|
      invariant out == Body(p, depth, sorted[..i])
    {
      BodyNext(p, depth, sorted, i);
      match sorted[i].payload {
        case SpanItem(span) =>
          var id := Hex.EncodeToString(span.spanId);
          var d := if id in depth then depth[id] else 0;
          out := out + RenderItem(p, sorted[i], d);
        case _ =>
          out := out + RenderItem(p, sorted[i], 0);
      }
    }
    assert sorted[..|sorted|] == sorted;
  }

  method RenderRunBlock(p: Printer, mode: RenderMode, visit: Visit, header: Header, items: seq<RunBlockItem>, footer: Footer)
    returns (out: seq<string>)
    requires Listing(visit)
    ensures out == Block(p, mode, visit, header, items, footer)
  {
    var first := RenderHeader(p, header, items);
    var sorted := SortByTime(items);
    var body;
    if mode.Tree? {
      body := RenderTreeBody(p, visit, sorted);
    } else {
      body := RenderGroupedBody(p, sorted);
    }
    var last := RenderFooter(p, footer, sorted);
    out := [first] + body + [last];
  }

  // ---- What a block holds ----

  lemma RenderItemShape(p: Printer, it: RunBlockItem, depth: nat)
    requires Sane(p)
    ensures var lines := RenderItem(p, it, depth);
            && |lines| == 1 && IsItemLine(lines[0]) && Plain(lines[0]) == ItemLine(p, it)
            && (!it.payload.SpanItem? ==> lines[0] == ItemLine(p, it))
  {
    if it.payload.SpanItem? {
      IndentedSpan(p, it.payload.span, depth);
    } else {
      RenderItemIsLineMode(p, it);
      ItemLineIsPlain(p, it);
    }
  }

  /** One line per item, in order: `Body[i]` is the i-th item's, indented. */
  lemma {:induction false} BodyAt(p: Printer, depths: map<string, nat>, s: seq<RunBlockItem>, i: nat)
    requires Sane(p) && i < |s|
    ensures |Body(p, depths, s)| == |s| && [Body(p, depths, s)[i]] == RenderItem(p, s[i], DepthOf(depths, s[i]))
  {
    RenderItemShape(p, s[0], DepthOf(depths, s[0]));
    if i > 0 {
      BodyAt(p, depths, s[1..], i - 1);
    } else if |s| > 1 {
      BodyAt(p, depths, s[1..], 0);
    }
  }

  /** Tree mode writes grouped mode's lines in grouped mode's order, a span's line
      with two spaces per level behind the tag and every other line untouched. */
  lemma TreeIndentsGrouped(p: Printer, visit: Visit, sorted: seq<RunBlockItem>, i: nat)
    requires Sane(p) && Listing(visit) && i < |sorted|
    ensures var depths := SpanDepthMap(sorted, visit);
            var tree, flat := Body(p, depths, sorted), Body(p, map[], sorted);
            && |tree| == |flat| == |sorted| && flat[i] == ItemLine(p, sorted[i]) == Plain(tree[i])
            && |tree[i]| - |flat[i]| == 2 * DepthOf(depths, sorted[i])
            && (sorted[i].payload.SpanItem? ==>
                 TRACE_TAG <= flat[i] &&
                 tree[i] == TRACE_TAG + (Indent(DepthOf(depths, sorted[i])) + flat[i][|TRACE_TAG|..]))
            && (!sorted[i].payload.SpanItem? ==> tree[i] == flat[i])
  {
    var depths := SpanDepthMap(sorted, visit);
    BodyAt(p, depths, sorted, i);
    BodyAt(p, map[], sorted, i);
    RenderItemShape(p, sorted[i], DepthOf(depths, sorted[i]));
    RenderItemIsLineMode(p, sorted[i]);
    if sorted[i].payload.SpanItem? {
      IndentedSpan(p, sorted[i].payload.span, DepthOf(depths, sorted[i]));
      assert RenderItem(p, sorted[i], DepthOf(depths, sorted[i]))
          == RenderItem(p, RunBlockItem(sorted[i].payload.span.start, sorted[i].payload), DepthOf(depths, sorted[i]));
    }
  }

  lemma {:induction false} BodyBag(p: Printer, depths: map<string, nat>, s: seq<RunBlockItem>)
    requires Sane(p)
    ensures Bag(Body(p, depths, s)) == ItemBag(p, s)
  {
    if s != [] {
      var lines := RenderItem(p, s[0], DepthOf(depths, s[0]));
      RenderItemShape(p, s[0], DepthOf(depths, s[0]));
      BodyBag(p, depths, s[1..]);
      BagAppend(lines, Body(p, depths, s[1..]));
      assert lines[1..] == [];
      assert Bag(lines) == multiset{ItemLine(p, s[0])} + Bag(lines[1..]);
    }
  }

  lemma BannersAreNoItems(p: Printer, h: Header, f: Footer, started: string, finished: string, runID: string, n: nat)
    ensures !IsItemLine(HeaderText(h, started)) && !IsItemLine(FooterText(f, finished))
    ensures !IsItemLine(TruncationWarning(runID, n))
  {
    assert HeaderText(h, started)[1] == '=' && FooterText(f, finished)[1] == '=' && TruncationWarning(runID, n)[1] == 'W';
    assert METRIC_TAG[1] == 'M' && EVENT_TAG[1] == 'E' && LOG_TAG[1] == 'L' && TRACE_TAG[1] == 'T';
  }

  /** A block is a header, one line per item and a footer; cutting its last line
      removes exactly the footer; its item lines are those of line mode. */
  lemma BlockContents(p: Printer, mode: RenderMode, visit: Visit, h: Header, items: seq<RunBlockItem>, f: Footer)
    requires Sane(p) && Listing(visit)
    ensures var b := Block(p, mode, visit, h, items, f);
            var sorted := SortByTime(items);
            var body := Body(p, DepthsFor(mode, visit, sorted), sorted);
            && |b| == |items| + 2 && |body| == |items|
            && b[..|b| - 1] == [HeaderLine(p, h, items)] + body
            && b[|b| - 1] == FooterLine(p, f, sorted)
            && Bag(body) == Bag(b) == ItemBag(p, items)
  {
    var sorted := SortByTime(items);
    var body := Body(p, DepthsFor(mode, visit, sorted), sorted);
    SortByTimeStable(items);
    if items != [] { BodyAt(p, DepthsFor(mode, visit, sorted), sorted, 0); }
    BodyBag(p, DepthsFor(mode, visit, sorted), sorted);
    SortKeepsBag(p, items);
    BannersAddNothing(p, h, items, f, sorted, body);
  }

  lemma BannersAddNothing(p: Printer, h: Header, items: seq<RunBlockItem>, f: Footer, sorted: seq<RunBlockItem>, body: seq<string>)
    ensures Bag([HeaderLine(p, h, items)] + body + [FooterLine(p, f, sorted)]) == Bag(body)
  {
    SingletonBags(p, h, items, f, sorted);
    BagAppend([HeaderLine(p, h, items)], body);
    BagAppend([HeaderLine(p, h, items)] + body, [FooterLine(p, f, sorted)]);
  }

  lemma SingletonBags(p: Printer, h: Header, items: seq<RunBlockItem>, f: Footer, sorted: seq<RunBlockItem>)
    ensures Bag([HeaderLine(p, h, items)]) == multiset{} == Bag([FooterLine(p, f, sorted)])
  {
    BannersAreNoItems(p, h, f, HeaderStart(p, h, items), FooterEnd(p, f, sorted), "", 0);
    BagOfOther(HeaderLine(p, h, items));
    BagOfOther(FooterLine(p, f, sorted));
  }

  lemma {:induction false} EarliestIsFirst(items: seq<RunBlockItem>)
    requires items != []
    ensures SortByTime(items) != [] && Earliest(items) == SortByTime(items)[0].timestamp
  {
    if |items| > 1 {
      EarliestIsFirst(items[..|items| - 1]);
    }
  }

  /** Without cached times the header shows the first instant of the body and the
      footer the last. */
  lemma BannerFallbacks(p: Printer, h: Header, f: Footer, items: seq<RunBlockItem>)
    requires items != [] && h.startedAt == "" && f.finishedAt == ""
    ensures var sorted := SortByTime(items);
            && sorted != [] && HeaderLine(p, h, items) == HeaderText(h, FormatTimestamp(p, sorted[0].timestamp))
            && FooterLine(p, f, sorted) == FooterText(f, FormatTimestamp(p, sorted[|sorted| - 1].timestamp))
  {
    EarliestIsFirst(items);
  }
}

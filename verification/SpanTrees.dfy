/** The depths of tree mode over buffered spans: when they stay within the number of
    spans, and when they are the depths in each span's own trace
    (internal/format/runblock.go:175-247). */
module SpanTrees {
  import opened Basics
  import opened Otlp
  import opened RunBlockFormat
  import Depths = SpanDepths
  import Hex

  function GraphOf(items: seq<RunBlockItem>): (g: Depths.Graph<string>)
    ensures Depths.Closed(g) && g.Keys == Index(items).Keys && |g| == |Index(items)|
    ensures forall id {:trigger ParentOf(Index(items), id)} :: id in Index(items) ==> g[id] == ParentOf(Index(items), id)
  {
    ParentGraph(Index(items))
  }

  /** The parent chain of the span ends among the buffered spans. */
  ghost predicate ChainEnds(items: seq<RunBlockItem>, id: string) {
    id in Index(items) && Depths.Acyclic(GraphOf(items), id)
  }

  lemma VisitsAll(items: seq<RunBlockItem>, visit: Visit)
    requires Listing(visit)
    ensures Depths.Visits(GraphOf(items), visit(GraphOf(items).Keys))
  {
    var keys := GraphOf(items).Keys;
    assert Lists(visit(keys), keys);
    assert |keys| == |GraphOf(items)|;
  }

  ghost predicate Capped(depths: map<string, nat>, n: nat) {
    forall id <- depths :: depths[id] <= n
  }

  ghost predicate AllEnd(items: seq<RunBlockItem>) {
    forall id <- Index(items) :: ChainEnds(items, id)
  }

  lemma GraphCapped(g: Depths.Graph<string>, order: seq<string>)
    requires Depths.Closed(g) && Depths.Visits(g, order)
    ensures Capped(Depths.ResolveAll(g, map[], order), |g|) <==> forall x <- g.Keys :: Depths.Acyclic(g, x)
  {
    Depths.DepthsCappedIff(g, order);
  }

  /** A span is indented by no more levels than there are spans, in whatever order the
      map is visited, if and only if every parent chain ends. */
  lemma SpanDepthsCappedIff(items: seq<RunBlockItem>, visit: Visit)
    requires Listing(visit)
    ensures Capped(SpanDepthMap(items, visit), |Index(items)|) <==> AllEnd(items)
  {
    VisitsAll(items, visit);
    GraphCapped(GraphOf(items), visit(GraphOf(items).Keys));
    assert SpanDepthMap(items, visit) == Depths.ResolveAll(GraphOf(items), map[], visit(GraphOf(items).Keys));
  }

  // ---- The entries of the index ----

  /** The ids of the buffered spans that have one. */
  function SpanIds(items: seq<RunBlockItem>): set<Bytes> {
    if items == [] then {}
    else
      var ids := SpanIds(items[..|items| - 1]);
      match items[|items| - 1].payload
      case SpanItem(span) => if span.spanId != [] then ids + {span.spanId} else ids
      case _ => ids
  }

  /** Distinct ids have distinct keys, so there are as many entries as ids. */
  lemma {:induction false} IndexCountsIds(items: seq<RunBlockItem>)
    ensures |Index(items)| == |SpanIds(items)|
    ensures forall b: Bytes :: Hex.EncodeToString(b) in Index(items) <==> b in SpanIds(items)
  {
    if items != [] {
      var init, last := items[..|items| - 1], items[|items| - 1].payload;
      IndexCountsIds(init);
      if last.SpanItem? && last.span.spanId != [] {
        var id := last.span.spanId;
        assert id in SpanIds(init) ==> SpanIds(items) == SpanIds(init);
        forall b: Bytes ensures Hex.EncodeToString(b) in Index(items) <==> b in SpanIds(items) {
          if Hex.EncodeToString(b) == Hex.EncodeToString(id) { Hex.Injective(b, id); }
        }
      }
    }
  }

  /** Every depth is at most twice the number of distinct ids. */
  lemma DepthsByIds(items: seq<RunBlockItem>, visit: Visit)
    requires Listing(visit)
    ensures forall id <- SpanDepthMap(items, visit) :: SpanDepthMap(items, visit)[id] <= 2 * |SpanIds(items)|
  {
    IndexCountsIds(items);
    SpanDepthBound(items, visit);
  }

  // ---- Spans that reach the bound ----

  function LoopId(i: nat): Bytes {
    Repeat(0 as byte, i + 1)
  }

  /** The first span is its own parent, every other the child of the one before it. */
  function LoopSpan(i: nat): Span {
    Span("span", [], LoopId(i), LoopId(if i == 0 then 0 else i - 1), 0, 0, [])
  }

  function LoopItems(n: nat): (items: seq<RunBlockItem>)
    ensures |items| == n
  {
    if n == 0 then [] else LoopItems(n - 1) + [RunBlockItem(0, SpanItem(LoopSpan(n - 1)))]
  }

  function LoopName(i: nat): (name: string)
    ensures |name| == 2 * (i + 1)
  {
    Hex.EncodeToString(LoopId(i))
  }

  function LoopNames(n: nat): (names: seq<string>)
    ensures |names| == n && forall i :: 0 <= i < n ==> names[i] == LoopName(i)
  {
    seq(n, (i: nat) => LoopName(i))
  }

  function LoopSpans(n: nat): (spans: seq<Span>)
    ensures |spans| == n && forall i :: 0 <= i < n ==> spans[i] == LoopSpan(i)
  {
    seq(n, (i: nat) => LoopSpan(i))
  }

  /** The map from these names, all different, to these spans. */
  ghost predicate Indexes(m: map<string, Span>, names: seq<string>, spans: seq<Span>) {
    && |m| == |names| == |spans|
    && (forall i :: 0 <= i < |names| ==> names[i] in m && m[names[i]] == spans[i])
    && (forall name <- m :: name in names)
  }

  lemma IndexesNext(m: map<string, Span>, names: seq<string>, spans: seq<Span>, name: string, span: Span)
    requires Indexes(m, names, spans) && name !in names
    ensures Indexes(m[name := span], names + [name], spans + [span])
  {
    assert m[name := span].Keys == m.Keys + {name};
  }

  lemma LoopItemsNext(n: nat)
    ensures Index(LoopItems(n + 1)) == Index(LoopItems(n))[LoopName(n) := LoopSpan(n)]
  {
    assert LoopItems(n + 1)[..n] == LoopItems(n);
  }

  lemma LoopNamesNext(n: nat)
    ensures LoopNames(n + 1) == LoopNames(n) + [LoopName(n)] && LoopSpans(n + 1) == LoopSpans(n) + [LoopSpan(n)]
    ensures LoopName(n) !in LoopNames(n)
  {
    assert forall name <- LoopNames(n) :: |name| <= 2 * n;
  }

  lemma {:induction false} LoopIndex(n: nat)
    ensures Indexes(Index(LoopItems(n)), LoopNames(n), LoopSpans(n))
  {
    if n > 0 {
      var m := n - 1;
      LoopIndex(m);
      LoopItemsNext(m);
      LoopNamesNext(m);
      IndexesNext(Index(LoopItems(m)), LoopNames(m), LoopSpans(m), LoopName(m), LoopSpan(m));
    }
  }

  lemma LoopBehind(n: nat, i: nat)
    requires i < n && Indexes(Index(LoopItems(n)), LoopNames(n), LoopSpans(n))
    ensures Depths.Behind(GraphOf(LoopItems(n)), LoopNames(n), i)
  {
    var spans, names, parent := Index(LoopItems(n)), LoopNames(n), if i == 0 then 0 else i - 1;
    assert names[i] in spans && names[parent] in spans;
    assert ParentOf(spans, LoopName(i)) == Some(LoopName(parent));
  }

  lemma LoopInLine(n: nat)
    requires n > 0
    ensures Depths.InLine(GraphOf(LoopItems(n)), LoopNames(n)) && |Index(LoopItems(n))| == n
  {
    var items, names := LoopItems(n), LoopNames(n);
    var spans, g := Index(items), GraphOf(items);
    LoopIndex(n);
    forall i | 0 <= i < n ensures Depths.Behind(g, names, i) { LoopBehind(n, i); }
    assert forall i, j :: 0 <= i < j < n ==> |names[i]| != |names[j]|;
  }

  ghost function Listed(ids: set<string>): (order: seq<string>)
    ensures |order| == |ids| && forall x :: x in order <==> x in ids
  {
    if ids == {} then []
    else
      var x :| x in ids;
      [x] + Listed(ids - {x})
  }

  /** An order of the map that starts the way wanted. */
  lemma VisitLike(wanted: seq<string>, keys: set<string>) returns (visit: Visit)
    requires |wanted| == |keys| && forall x :: x in wanted <==> x in keys
    ensures Listing(visit) && visit(keys) == wanted
  {
    visit := (ids: set<string>) => if ids == keys then wanted else Listed(ids);
    forall ids ensures Lists(visit(ids), ids) {}
  }

  /** For every n there are n buffered spans and an order of the map that give one of
      them a depth of 2n: the bound is met. */
  lemma BoundAttained(n: nat) returns (items: seq<RunBlockItem>, visit: Visit, id: string)
    requires n > 0
    ensures Listing(visit) && |Index(items)| == |SpanIds(items)| == n
    ensures id in SpanDepthMap(items, visit) && SpanDepthMap(items, visit)[id] == 2 * n
  {
    items := LoopItems(n);
    var g, names := GraphOf(items), LoopNames(n);
    LoopInLine(n);
    LoopIndex(n);
    IndexCountsIds(items);
    assert forall i :: 0 <= i < n ==> names[i] in g.Keys;
    assert |g.Keys| == |g|;
    visit := VisitLike(names, g.Keys);
    Depths.BoundAttained(g, names);
    id := names[n - 1];
  }

  // ---- One tree per trace ----

  /** The spans of one trace. */
  function InTrace(items: seq<RunBlockItem>, trace: Bytes): seq<RunBlockItem> {
    if items == [] then []
    else
      var last := items[|items| - 1];
      InTrace(items[..|items| - 1], trace)
        + (if last.payload.SpanItem? && last.payload.span.traceId == trace then [last] else [])
  }

  /** No two traces share a span id. */
  ghost predicate OneTracePerId(items: seq<RunBlockItem>) {
    forall a <- items, b <- items :: SameId(a, b) ==> a.payload.span.traceId == b.payload.span.traceId
  }

  predicate SameId(a: RunBlockItem, b: RunBlockItem) {
    a.payload.SpanItem? && b.payload.SpanItem? && a.payload.span.spanId == b.payload.span.spanId != []
  }

  lemma {:induction false} IndexedSpan(items: seq<RunBlockItem>, id: string)
    requires id in Index(items)
    ensures exists it <- items :: it.payload == SpanItem(Index(items)[id]) && it.payload.span.spanId != []
                                  && Hex.EncodeToString(it.payload.span.spanId) == id
  {
    var init, last := items[..|items| - 1], items[|items| - 1];
    assert last in items && forall it <- init :: it in items;
    if last.payload.SpanItem? && last.payload.span.spanId != [] && Hex.EncodeToString(last.payload.span.spanId) == id {
    } else {
      IndexedSpan(init, id);
    }
  }

  ghost predicate TraceIndexed(items: seq<RunBlockItem>, trace: Bytes, id: string) {
    && (id in Index(InTrace(items, trace)) <==> id in Index(items) && Index(items)[id].traceId == trace)
    && (id in Index(InTrace(items, trace)) ==> Index(InTrace(items, trace))[id] == Index(items)[id])
  }

  /** The index of one trace is the part of the index with its spans. */
  lemma {:induction false} TraceIndex(items: seq<RunBlockItem>, trace: Bytes, id: string)
    requires OneTracePerId(items)
    ensures TraceIndexed(items, trace, id)
  {
    if items != [] {
      var init, last := items[..|items| - 1], items[|items| - 1];
      assert last in items && forall it <- init :: it in items;
      TraceIndex(init, trace, id);
      assert (InTrace(init, trace) + [last])[..|InTrace(init, trace)|] == InTrace(init, trace);
      assert InTrace(init, trace) + [] == InTrace(init, trace);
      if last.payload.SpanItem? && last.payload.span.spanId != [] && Hex.EncodeToString(last.payload.span.spanId) == id {
        if id in Index(init) {
          IndexedSpan(init, id);
          var it :| it in init && it.payload == SpanItem(Index(init)[id]) && it.payload.span.spanId != []
                      && Hex.EncodeToString(it.payload.span.spanId) == id;
          Hex.Injective(it.payload.span.spanId, last.payload.span.spanId);
          assert SameId(it, last);
        }
      }
    }
  }

  /** The buffered parent of the span, if it has one, is in its own trace. */
  predicate ParentInTrace(items: seq<RunBlockItem>, id: string)
    requires id in Index(items)
  {
    var parent := ParentOf(Index(items), id);
    parent.Some? ==> Index(items)[parent.value].traceId == Index(items)[id].traceId
  }

  lemma ParentWithin(items: seq<RunBlockItem>, id: string)
    requires OneTracePerId(items) && id in Index(items)
    ensures var trace := Index(items)[id].traceId; var spans := Index(InTrace(items, trace));
            && id in spans
            && (ParentInTrace(items, id) ==> ParentOf(spans, id) == ParentOf(Index(items), id))
            && (!ParentInTrace(items, id) ==> ParentOf(spans, id) == None)
  {
    var trace := Index(items)[id].traceId;
    TraceIndex(items, trace, id);
    assert TraceIndexed(items, trace, id);
    var parent := Hex.EncodeToString(Index(items)[id].parentSpanId);
    TraceIndex(items, trace, parent);
    assert TraceIndexed(items, trace, parent);
  }

  /** No span with an end to its chain has a buffered parent in another trace. */
  ghost predicate TracesApart(items: seq<RunBlockItem>) {
    forall id <- Index(items) :: ChainEnds(items, id) ==> ParentInTrace(items, id)
  }

  /** One link. */
  lemma LinkWithin(items: seq<RunBlockItem>, id: string)
    requires OneTracePerId(items) && id in Index(items) && ParentInTrace(items, id)
    ensures var within := InTrace(items, Index(items)[id].traceId);
            && id in Index(within) && GraphOf(within)[id] == GraphOf(items)[id]
            && (GraphOf(items)[id].Some? ==> Index(items)[GraphOf(items)[id].value].traceId == Index(items)[id].traceId)
  {
    ParentWithin(items, id);
    assert GraphOf(items)[id] == ParentOf(Index(items), id);
    assert GraphOf(InTrace(items, Index(items)[id].traceId))[id] == ParentOf(Index(InTrace(items, Index(items)[id].traceId)), id);
  }

  function IdsOf(items: seq<RunBlockItem>, trace: Bytes): set<string> {
    set id <- Index(items) | Index(items)[id].traceId == trace
  }

  lemma LinkShared(items: seq<RunBlockItem>, trace: Bytes, id: string)
    requires OneTracePerId(items) && TracesApart(items) && id in IdsOf(items, trace)
    ensures id in GraphOf(items) && id in GraphOf(InTrace(items, trace))
    ensures ChainEnds(items, id) ==> var link := GraphOf(items)[id];
              GraphOf(InTrace(items, trace))[id] == link && (link.Some? ==> link.value in IdsOf(items, trace))
  {
    ParentWithin(items, id);
    if ChainEnds(items, id) { LinkWithin(items, id); }
  }

  /** A chain that ends stays in its trace if every link of it does. */
  lemma ChainWithin(items: seq<RunBlockItem>, id: string, k: nat)
    requires OneTracePerId(items) && TracesApart(items) && id in Index(items) && Depths.Chain(GraphOf(items), id, k)
    ensures var within := InTrace(items, Index(items)[id].traceId);
            id in Index(within) && Depths.Chain(GraphOf(within), id, k)
  {
    var trace := Index(items)[id].traceId;
    var g, h, inside := GraphOf(items), GraphOf(InTrace(items, trace)), IdsOf(items, trace);
    forall x <- inside ensures x in h { LinkShared(items, trace, x); }
    forall x {:trigger Depths.Shared(g, h, inside, x)} | x in inside ensures Depths.Shared(g, h, inside, x) {
      LinkShared(items, trace, x);
    }
    Depths.SharedChain(g, h, inside, id, k);
  }

  /** The depth the span has in the tree of its own trace. */
  function TraceDepth(items: seq<RunBlockItem>, visit: Visit, id: string): nat
    requires Listing(visit) && id in Index(items)
  {
    var depths := SpanDepthMap(InTrace(items, Index(items)[id].traceId), visit);
    if id in depths then depths[id] else 0
  }

  lemma DepthsAgree(items: seq<RunBlockItem>, visit: Visit, id: string)
    requires Listing(visit) && OneTracePerId(items) && TracesApart(items) && ChainEnds(items, id)
    ensures id in SpanDepthMap(items, visit) && SpanDepthMap(items, visit)[id] == TraceDepth(items, visit, id)
  {
    var k: nat :| Depths.Chain(GraphOf(items), id, k);
    ChainWithin(items, id, k);
    SpanDepthExact(items, visit, id, k);
    SpanDepthExact(InTrace(items, Index(items)[id].traceId), visit, id, k);
  }

  /** With a parent in another trace the span hangs under it, instead of being a root. */
  lemma DepthsDiffer(items: seq<RunBlockItem>, visit: Visit, id: string)
    requires Listing(visit) && OneTracePerId(items) && ChainEnds(items, id) && !ParentInTrace(items, id)
    ensures id in SpanDepthMap(items, visit) && SpanDepthMap(items, visit)[id] > 0 == TraceDepth(items, visit, id)
  {
    var within := InTrace(items, Index(items)[id].traceId);
    var k: nat :| Depths.Chain(GraphOf(items), id, k);
    ParentWithin(items, id);
    assert GraphOf(items)[id] == ParentOf(Index(items), id) && GraphOf(within)[id] == ParentOf(Index(within), id);
    assert Depths.Chain(GraphOf(within), id, 0);
    SpanDepthExact(items, visit, id, k);
    SpanDepthExact(within, visit, id, 0);
  }

  ghost predicate DepthPerTrace(items: seq<RunBlockItem>, visit: Visit, id: string)
    requires Listing(visit) && id in Index(items)
  {
    id in SpanDepthMap(items, visit) && SpanDepthMap(items, visit)[id] == TraceDepth(items, visit, id)
  }

  /** Where no two traces share a span id, the depths are those of one tree per trace, as
      the comment has it, if and only if no buffered span has a buffered parent in
      another trace; spans behind a loop aside. */
  lemma DepthsPerTraceIff(items: seq<RunBlockItem>, visit: Visit)
    requires Listing(visit) && OneTracePerId(items)
    ensures (forall id <- Index(items) :: ChainEnds(items, id) ==> DepthPerTrace(items, visit, id)) <==> TracesApart(items)
  {
    if TracesApart(items) {
      forall id <- Index(items) | ChainEnds(items, id) ensures DepthPerTrace(items, visit, id) {
        DepthsAgree(items, visit, id);
      }
    } else {
      var id :| id in Index(items) && ChainEnds(items, id) && !ParentInTrace(items, id);
      DepthsDiffer(items, visit, id);
      assert !DepthPerTrace(items, visit, id);
    }
  }

  function SpanOf(trace: Bytes, id: Bytes, parent: Bytes): RunBlockItem {
    RunBlockItem(0, SpanItem(Span("span", trace, id, parent, 0, 0, [])))
  }

  /** A root `x` and its child `y` in one trace; in another a root `z` and a span that is
      called `x` as well and is a child of `z`. */
  function SharedId(t: Bytes, u: Bytes, x: Bytes, y: Bytes, z: Bytes): seq<RunBlockItem> {
    [SpanOf(t, x, []), SpanOf(t, y, x), SpanOf(u, z, []), SpanOf(u, x, z)]
  }

  lemma SharedIdIndex(t: Bytes, u: Bytes, x: Bytes, y: Bytes, z: Bytes)
    requires x != [] && y != [] && z != [] && x != y && y != z && x != z
    ensures var spans := Index(SharedId(t, u, x, y, z));
            && Hex.EncodeToString(x) in spans && spans[Hex.EncodeToString(x)] == SpanOf(u, x, z).payload.span
            && Hex.EncodeToString(y) in spans && spans[Hex.EncodeToString(y)] == SpanOf(t, y, x).payload.span
            && Hex.EncodeToString(z) in spans && spans[Hex.EncodeToString(z)] == SpanOf(u, z, []).payload.span
  {
    var s := SharedId(t, u, x, y, z);
    assert s[..3] == [s[0], s[1], s[2]] && s[..3][..2] == [s[0], s[1]] && s[..3][..2][..1] == [s[0]] && [s[0]][..0] == [];
    if Hex.EncodeToString(x) == Hex.EncodeToString(y) { Hex.Injective(x, y); }
    if Hex.EncodeToString(y) == Hex.EncodeToString(z) { Hex.Injective(y, z); }
    if Hex.EncodeToString(x) == Hex.EncodeToString(z) { Hex.Injective(x, z); }
    assert Index([s[0]]) == map[Hex.EncodeToString(x) := s[0].payload.span];
    assert Index(s[..3][..2]) == Index([s[0]])[Hex.EncodeToString(y) := s[1].payload.span];
    assert Index(s[..3]) == Index(s[..3][..2])[Hex.EncodeToString(z) := s[2].payload.span];
  }

  /** An id in two traces: `y` is indented by two levels, under `z` of the other trace,
      although its own trace has it one level deep. */
  lemma SharedIdMixesTraces(t: Bytes, u: Bytes, x: Bytes, y: Bytes, z: Bytes, visit: Visit)
    requires Listing(visit) && t != u && x != [] && y != [] && z != [] && x != y && y != z && x != z
    ensures var items, id := SharedId(t, u, x, y, z), Hex.EncodeToString(y);
            && id in SpanDepthMap(items, visit) && SpanDepthMap(items, visit)[id] == 2
            && id in Index(items) && TraceDepth(items, visit, id) == 1
  {
    var items := SharedId(t, u, x, y, z);
    SharedIdIndex(t, u, x, y, z);
    var hx, hy, hz := Hex.EncodeToString(x), Hex.EncodeToString(y), Hex.EncodeToString(z);
    var g := GraphOf(items);
    assert g[hz] == ParentOf(Index(items), hz) == None;
    assert g[hx] == ParentOf(Index(items), hx) == Some(hz);
    assert g[hy] == ParentOf(Index(items), hy) == Some(hx);
    assert Depths.Chain(g, hz, 0) && Depths.Chain(g, hx, 1) && Depths.Chain(g, hy, 2);
    SpanDepthExact(items, visit, hy, 2);
    SharedIdWithin(t, u, x, y, z);
    SpanDepthExact(InTrace(items, t), visit, hy, 1);
  }

  lemma SharedIdWithin(t: Bytes, u: Bytes, x: Bytes, y: Bytes, z: Bytes)
    requires t != u && x != [] && y != [] && x != y
    ensures var within, hy := InTrace(SharedId(t, u, x, y, z), t), Hex.EncodeToString(y);
            hy in Index(within) && Depths.Chain(GraphOf(within), hy, 1)
  {
    var s, hx, hy := SharedId(t, u, x, y, z), Hex.EncodeToString(x), Hex.EncodeToString(y);
    var within, three := [s[0], s[1]], [s[0], s[1], s[2]];
    assert s[..3] == three && three[..2] == within && within[..1] == [s[0]] && [s[0]][..0] == [];
    assert InTrace([s[0]], t) == InTrace([], t) + [s[0]] == [s[0]];
    assert InTrace(within, t) == [s[0]] + [s[1]] == within;
    assert InTrace(three, t) == within + [] == within;
    assert InTrace(s, t) == within + [] == within;
    if hx == hy { Hex.Injective(x, y); }
    assert Index([s[0]]) == map[hx := s[0].payload.span];
    var g := GraphOf(within);
    assert g[hx] == ParentOf(Index(within), hx) == None;
    assert g[hy] == ParentOf(Index(within), hy) == Some(hx);
    assert Depths.Chain(g, hx, 0);
  }
}

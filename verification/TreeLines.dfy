/** What tree mode prints: the indentation of a span, told from the buffered spans alone
    (internal/format/runblock.go:175-296). */
module TreeLines {
  import opened Basics
  import opened Otlp
  import opened LineFormat
  import opened RunBlockFormat
  import opened SpanTrees
  import Depths = SpanDepths
  import Hex

  predicate HasId(it: RunBlockItem, id: Bytes) {
    it.payload.SpanItem? && it.payload.span.spanId == id != []
  }

  /** The last buffered span with its id; it stands for the id. */
  predicate StandsFor(items: seq<RunBlockItem>, i: nat, id: Bytes) {
    i < |items| && HasId(items[i], id) && forall j :: i < j < |items| ==> !HasId(items[j], id)
  }

  predicate Buffered(items: seq<RunBlockItem>, id: Bytes) {
    exists it <- items :: HasId(it, id)
  }

  /** The buffered ancestors of the span that stands for `id`, from itself up to one
      whose parent is not buffered. */
  predicate Ancestry(items: seq<RunBlockItem>, id: Bytes, path: seq<nat>)
    decreases |path|
  {
    && path != [] && StandsFor(items, path[0], id)
    && var parent := items[path[0]].payload.span.parentSpanId;
       if |path| == 1 then parent == [] || !Buffered(items, parent) else Ancestry(items, parent, path[1..])
  }

  lemma {:induction false} IndexStands(items: seq<RunBlockItem>, i: nat, id: Bytes)
    requires StandsFor(items, i, id)
    ensures var key := Hex.EncodeToString(id); key in Index(items) && Index(items)[key] == items[i].payload.span
  {
    var init, last := items[..|items| - 1], items[|items| - 1];
    if i < |init| {
      IndexStands(init, i, id);
      assert !HasId(last, id);
      if last.payload.SpanItem? && last.payload.span.spanId != [] && Hex.EncodeToString(last.payload.span.spanId) == Hex.EncodeToString(id) {
        Hex.Injective(last.payload.span.spanId, id);
      }
    }
  }

  lemma NotIndexed(items: seq<RunBlockItem>, id: Bytes)
    requires id == [] || !Buffered(items, id)
    ensures Hex.EncodeToString(id) !in Index(items)
  {
    var key := Hex.EncodeToString(id);
    if key in Index(items) {
      IndexedSpan(items, key);
      var it :| it in items && it.payload == SpanItem(Index(items)[key]) && it.payload.span.spanId != []
                  && Hex.EncodeToString(it.payload.span.spanId) == key;
      assert HasId(it, id) ==> Buffered(items, id);
      Hex.Injective(it.payload.span.spanId, id);
    }
  }

  /** The link of the span in the parent graph. */
  ghost predicate LinkOk(g: Depths.Graph<string>, items: seq<RunBlockItem>, i: nat, id: Bytes) {
    StandsFor(items, i, id) ==>
      var key, parent := Hex.EncodeToString(id), items[i].payload.span.parentSpanId;
      key in g && g[key] == if parent == [] || !Buffered(items, parent) then None else Some(Hex.EncodeToString(parent))
  }

  ghost predicate LinksOk(g: Depths.Graph<string>, items: seq<RunBlockItem>) {
    forall i: nat, id :: LinkOk(g, items, i, id)
  }

  lemma {:induction false} LastOf(items: seq<RunBlockItem>, id: Bytes) returns (i: nat)
    requires Buffered(items, id)
    ensures StandsFor(items, i, id)
  {
    var init, last := items[..|items| - 1], items[|items| - 1];
    if HasId(last, id) {
      i := |init|;
    } else {
      assert forall it <- items :: it in init || it == last;
      i := LastOf(init, id);
    }
  }

  lemma GraphLink(items: seq<RunBlockItem>, i: nat, id: Bytes)
    ensures LinkOk(ParentGraph(Index(items)), items, i, id)
  {
    if StandsFor(items, i, id) {
      var parent := items[i].payload.span.parentSpanId;
      IndexStands(items, i, id);
      assert ParentGraph(Index(items))[Hex.EncodeToString(id)] == ParentOf(Index(items), Hex.EncodeToString(id));
      if parent == [] || !Buffered(items, parent) {
        NotIndexed(items, parent);
      } else {
        var j := LastOf(items, parent);
        IndexStands(items, j, parent);
      }
    }
  }

  lemma {:induction false} AncestryIsChain(g: Depths.Graph<string>, items: seq<RunBlockItem>, id: Bytes, path: seq<nat>)
    requires Depths.Closed(g) && LinksOk(g, items) && Ancestry(items, id, path)
    ensures Hex.EncodeToString(id) in g && Depths.Chain(g, Hex.EncodeToString(id), |path| - 1)
    decreases |path|
  {
    assert LinkOk(g, items, path[0], id);
    if |path| > 1 {
      var parent := items[path[0]].payload.span.parentSpanId;
      assert path[1..][0] == path[1] && HasId(items[path[1]], parent);
      AncestryIsChain(g, items, parent, path[1..]);
    }
    Depths.ChainLink(g, Hex.EncodeToString(id), |path| - 1);
  }

  /** The line of a span in a tree block, in terms of its line in line mode. */
  predicate IndentedBy(line: string, span: Span, p: Printer, spaces: nat) {
    var flat := SpanLine(p, span);
    |flat| >= 9 && line == flat[..9] + Repeat(' ', spaces) + flat[9..]
  }

  /** The lines between header and footer are the body's. */
  lemma BodyLine(p: Printer, mode: RenderMode, visit: Visit, h: Header, items: seq<RunBlockItem>, f: Footer, i: nat)
    requires Sane(p) && Listing(visit) && i < |SortByTime(items)|
    ensures var sorted, block := SortByTime(items), Block(p, mode, visit, h, items, f);
            var body := Body(p, DepthsFor(mode, visit, sorted), sorted);
            |block| == |sorted| + 2 && |body| == |sorted| && block[i + 1] == body[i]
  {
    var sorted := SortByTime(items);
    var depths := DepthsFor(mode, visit, sorted);
    BodyAt(p, depths, sorted, i);
    Between(HeaderLine(p, h, items), Body(p, depths, sorted), FooterLine(p, f, sorted), i);
  }

  lemma Between(first: string, body: seq<string>, last: string, i: nat)
    requires i < |body|
    ensures var all := [first] + body + [last]; |all| == |body| + 2 && all[i + 1] == body[i]
  {}

  lemma TagThenSpaces(p: Printer, span: Span, n: nat)
    ensures IndentedBy(TRACE_TAG + (Repeat(' ', n) + SpanLine(p, span)[|TRACE_TAG|..]), span, p, n)
  {
    var flat := SpanLine(p, span);
    assert flat[..9] == TRACE_TAG;
    assert TRACE_TAG + (Repeat(' ', n) + flat[9..]) == TRACE_TAG + Repeat(' ', n) + flat[9..];
  }

  /** In tree mode a span has two spaces per level of the depth map. */
  lemma TreeLine(p: Printer, visit: Visit, h: Header, items: seq<RunBlockItem>, f: Footer, i: nat)
    requires Sane(p) && Listing(visit) && i < |SortByTime(items)| && SortByTime(items)[i].payload.SpanItem?
    ensures var sorted, block := SortByTime(items), Block(p, Tree, visit, h, items, f);
            var span, depths := sorted[i].payload.span, SpanDepthMap(sorted, visit);
            var key := Hex.EncodeToString(span.spanId);
            |block| == |sorted| + 2 && IndentedBy(block[i + 1], span, p, 2 * if key in depths then depths[key] else 0)
  {
    var sorted := SortByTime(items);
    BodyLine(p, Tree, visit, h, items, f, i);
    TreeIndentsGrouped(p, visit, sorted, i);
    TagThenSpaces(p, sorted[i].payload.span, 2 * DepthOf(SpanDepthMap(sorted, visit), sorted[i]));
  }

  /** Every line of grouped mode and every other line of tree mode is the one of line mode. */
  lemma PlainLine(p: Printer, mode: RenderMode, visit: Visit, h: Header, items: seq<RunBlockItem>, f: Footer, i: nat)
    requires Sane(p) && Listing(visit) && i < |SortByTime(items)|
    requires mode.Grouped? || !SortByTime(items)[i].payload.SpanItem?
    ensures var sorted, block := SortByTime(items), Block(p, mode, visit, h, items, f);
            |block| == |sorted| + 2 && block[i + 1] == ItemLine(p, sorted[i])
  {
    BodyLine(p, mode, visit, h, items, f, i);
    TreeIndentsGrouped(p, visit, SortByTime(items), i);
  }

  /** In a block in tree mode the line of a span is its line of line mode with two spaces
      for each buffered ancestor behind the tag, whatever the visiting order. */
  lemma SpanIndentation(p: Printer, visit: Visit, h: Header, items: seq<RunBlockItem>, f: Footer, i: nat, path: seq<nat>)
    requires Sane(p) && Listing(visit) && i < |SortByTime(items)| && SortByTime(items)[i].payload.SpanItem?
    requires var sorted := SortByTime(items); Ancestry(sorted, sorted[i].payload.span.spanId, path)
    ensures var sorted, block := SortByTime(items), Block(p, Tree, visit, h, items, f);
            |block| == |sorted| + 2 && IndentedBy(block[i + 1], sorted[i].payload.span, p, 2 * (|path| - 1))
  {
    var sorted := SortByTime(items);
    var id := sorted[i].payload.span.spanId;
    var g := ParentGraph(Index(sorted));
    forall j: nat, other ensures LinkOk(g, sorted, j, other) { GraphLink(sorted, j, other); }
    AncestryIsChain(g, sorted, id, path);
    SpanDepthExact(sorted, visit, Hex.EncodeToString(id), |path| - 1);
    TreeLine(p, visit, h, items, f, i);
  }

  lemma OnlyIndexed(items: seq<RunBlockItem>, visit: Visit)
    requires Listing(visit)
    ensures SpanDepthMap(items, visit).Keys <= Index(items).Keys
  {
    var g := ParentGraph(Index(items));
    assert Lists(visit(g.Keys), g.Keys);
    Depths.ResolveAllKeepsInv(g, map[], visit(g.Keys));
  }

  /** No span is indented by more than four spaces for each buffered span id. */
  lemma IndentationBound(p: Printer, visit: Visit, h: Header, items: seq<RunBlockItem>, f: Footer, i: nat) returns (spaces: nat)
    requires Sane(p) && Listing(visit) && i < |SortByTime(items)| && SortByTime(items)[i].payload.SpanItem?
    ensures var sorted, block := SortByTime(items), Block(p, Tree, visit, h, items, f);
            && |block| == |sorted| + 2 && IndentedBy(block[i + 1], sorted[i].payload.span, p, spaces)
            && spaces <= 4 * |SpanIds(sorted)| && (sorted[i].payload.span.spanId == [] ==> spaces == 0)
  {
    var sorted := SortByTime(items);
    var key, depths := Hex.EncodeToString(sorted[i].payload.span.spanId), SpanDepthMap(sorted, visit);
    TreeLine(p, visit, h, items, f, i);
    spaces := 2 * if key in depths then depths[key] else 0;
    DepthsByIds(sorted, visit);
    if sorted[i].payload.span.spanId == [] {
      NotIndexed(sorted, []);
      OnlyIndexed(sorted, visit);
    }
  }
}

/** The header and footer fields a buffer caches (absorbRootLocked,
    internal/sink/runblock.go) against a definition over its items alone. */
module CachedHeader {
  import opened Otlp
  import opened LineFormat
  import opened RunBlockFormat
  import opened RunBlockState
  import opened History

  /** A span named run without a parent. */
  predicate RunRoot(it: RunBlockItem) {
    it.payload.SpanItem? && it.payload.span.name == "run" && it.payload.span.parentSpanId == []
  }

  /** The value under `key` of the last run root that has one. */
  function LastValue(items: seq<RunBlockItem>, key: string): string {
    if items == [] then ""
    else
      var last := items[|items| - 1];
      var v := if RunRoot(last) then LookupAttr(last.payload.span.attributes, key) else "";
      if v != "" then v else LastValue(items[..|items| - 1], key)
  }

  /** The end time of the last run root that has one. */
  function LastEnd(p: Printer, items: seq<RunBlockItem>): string {
    if items == [] then ""
    else
      var last := items[|items| - 1];
      if RunRoot(last) && last.payload.span.end > 0 then FormatTimestamp(p, last.payload.span.end)
      else LastEnd(p, items[..|items| - 1])
  }

  /** The start time of the first run root that has one. */
  function FirstStart(p: Printer, items: seq<RunBlockItem>): string {
    if items == [] then ""
    else if RunRoot(items[0]) && items[0].payload.span.start > 0 then FormatTimestamp(p, items[0].payload.span.start)
    else FirstStart(p, items[1..])
  }

  lemma {:induction false} FirstStartSnoc(p: Printer, items: seq<RunBlockItem>, it: RunBlockItem)
    requires Sane(p)
    ensures FirstStart(p, items + [it])
         == if FirstStart(p, items) == "" && RunRoot(it) && it.payload.span.start > 0
            then FormatTimestamp(p, it.payload.span.start) else FirstStart(p, items)
  {
    if items == [] {
      assert (items + [it])[1..] == [];
    } else {
      assert (items + [it])[1..] == items[1..] + [it];
      FirstStartSnoc(p, items[1..], it);
    }
  }

  /** The cached fields agree with the items. */
  ghost predicate Agrees(p: Printer, b: Buffer, items: seq<RunBlockItem>) {
    && b.mode == LastValue(items, "run.mode")
    && b.provider == LastValue(items, "run.provider")
    && b.model == LastValue(items, "run.model")
    && b.outcome == LastValue(items, "run.outcome")
    && b.turns == LastValue(items, "run.turns")
    && b.startedAt == FirstStart(p, items)
    && b.endedAt == LastEnd(p, items)
    && (b.headerKnown <==> exists it <- items :: RunRoot(it))
  }

  lemma LastValueSnoc(items: seq<RunBlockItem>, it: RunBlockItem, key: string)
    ensures LastValue(items + [it], key)
         == if RunRoot(it) then Latest(it.payload.span, key, LastValue(items, key)) else LastValue(items, key)
  {}

  lemma LastEndSnoc(p: Printer, items: seq<RunBlockItem>, it: RunBlockItem)
    ensures LastEnd(p, items + [it])
         == if RunRoot(it) && it.payload.span.end > 0 then FormatTimestamp(p, it.payload.span.end) else LastEnd(p, items)
  {}

  lemma RootSnoc(items: seq<RunBlockItem>, it: RunBlockItem)
    ensures (exists x <- items + [it] :: RunRoot(x)) <==> (exists x <- items :: RunRoot(x)) || RunRoot(it)
  {}

  /** One more item. */
  lemma AgreesNext(p: Printer, b: Buffer, items: seq<RunBlockItem>, it: RunBlockItem)
    requires Sane(p) && Agrees(p, b, items)
    ensures Agrees(p, Absorbed(p, b, it), items + [it])
  {
    LastValueSnoc(items, it, "run.mode");
    LastValueSnoc(items, it, "run.provider");
    LastValueSnoc(items, it, "run.model");
    LastValueSnoc(items, it, "run.outcome");
    LastValueSnoc(items, it, "run.turns");
    LastEndSnoc(p, items, it);
    FirstStartSnoc(p, items, it);
    RootSnoc(items, it);
  }

  lemma {:induction false} FoldedAgrees(p: Printer, runID: string, items: seq<RunBlockItem>)
    requires Sane(p)
    ensures Agrees(p, Folded(p, runID, items), items)
  {
    if items != [] {
      var init, last := items[..|items| - 1], items[|items| - 1];
      FoldedAgrees(p, runID, init);
      assert items == init + [last];
      AgreesNext(p, Folded(p, runID, init), init, last);
    }
  }

  /** While a run is open, what its buffer has cached is what its items say. */
  lemma OpenHeaderAgrees(c: Config, s: State, r: string)
    requires Configured(c) && StateOk(c, s) && r in s.runs
    ensures Agrees(c.printer, s.runs[r], s.runs[r].items)
  {
    FoldedAgrees(c.printer, r, s.runs[r].items);
  }

  /** A block's banners say what its items say; on overflow a root among the
      rejected items counts too. A footer written at the end of a run carries the
      outcome of the span that ended it. */
  lemma BlockHeaderAgrees(c: Config, e: Emission)
    requires Configured(c) && e.Block? && EmissionOk(c, e)
    ensures Agrees(c.printer, e.buffer, e.buffer.items + e.rejected) && e.buffer.runID == e.runID
    ensures e.reason.RootEnded? ==>
              var last := e.buffer.items[|e.buffer.items| - 1];
              && last.payload.SpanItem?
              && FooterFor(e.buffer, e.reason).outcome == LookupAttr(last.payload.span.attributes, "run.outcome") != ""
  {
    FoldedPlain(c.printer, e.runID, e.buffer.items + e.rejected);
    FoldedAgrees(c.printer, e.runID, e.buffer.items + e.rejected);
    if e.reason.RootEnded? {
      assert e.buffer.items + [] == e.buffer.items;
    }
  }

  // ---- The banners of a block, from its items ----

  function Started(p: Printer, all: seq<RunBlockItem>, sorted: seq<RunBlockItem>): string
    requires sorted != []
  {
    var t := FirstStart(p, all);
    if t == "" then FormatTimestamp(p, sorted[0].timestamp) else t
  }

  function Finished(p: Printer, all: seq<RunBlockItem>, sorted: seq<RunBlockItem>): string
    requires sorted != []
  {
    var t := LastEnd(p, all);
    if t == "" then FormatTimestamp(p, sorted[|sorted| - 1].timestamp) else t
  }

  function HeaderOf(p: Printer, run: string, all: seq<RunBlockItem>, sorted: seq<RunBlockItem>): string
    requires sorted != []
  {
    "=== run " + run + " started " + Started(p, all, sorted) + Labelled(" mode=", LastValue(all, "run.mode"))
      + Labelled(" provider=", LastValue(all, "run.provider")) + Labelled(" model=", LastValue(all, "run.model")) + " ==="
  }

  /** The last line: the outcome and turns the run reported, an unknown outcome, or
      the warning. */
  function LastLineOf(c: Config, e: Emission, all: seq<RunBlockItem>, sorted: seq<RunBlockItem>): string
    requires sorted != [] && e.Block? && c.maxItems > 0
  {
    match e.reason
    case RootEnded =>
      "=== run " + e.runID + " finished " + Finished(c.printer, all, sorted)
        + " outcome=" + LastValue(all, "run.outcome") + Labelled(" turns=", LastValue(all, "run.turns")) + " ==="
    case Idle | Shutdown =>
      "=== run " + e.runID + " finished " + Finished(c.printer, all, sorted) + " outcome=" + "<unknown>" + "" + " ==="
    case Overflow => TruncationWarning(e.runID, c.maxItems)
  }

  /** A block is its header, its items in stable time order and its last line, all of
      them determined by the items alone. */
  lemma BlockFromItems(c: Config, e: Emission)
    requires Configured(c) && e.Block? && EmissionOk(c, e)
    ensures var all, sorted := e.buffer.items + e.rejected, SortByTime(e.buffer.items);
            && sorted != []
            && Lines(c, e) == [HeaderOf(c.printer, e.runID, all, sorted)]
                              + Body(c.printer, DepthsFor(c.mode, c.visit, sorted), sorted)
                              + [LastLineOf(c, e, all, sorted)]
  {
    HeaderFromItems(c, e);
    LinesOfBlock(c, e.buffer, e.reason);
    LastLineFromItems(c, e);
  }

  lemma LastLineFromItems(c: Config, e: Emission)
    requires Configured(c) && e.Block? && EmissionOk(c, e)
    ensures var all, sorted := e.buffer.items + e.rejected, SortByTime(e.buffer.items);
            sorted != [] && LastLine(c, e.buffer, e.reason) == LastLineOf(c, e, all, sorted)
  {
    HeaderFromItems(c, e);
    if !e.reason.Overflow? { FooterFromItems(c, e); }
    FoldedPlain(c.printer, e.runID, e.buffer.items + e.rejected);
  }

  lemma HeaderFromItems(c: Config, e: Emission)
    requires Configured(c) && e.Block? && EmissionOk(c, e)
    ensures var all, sorted := e.buffer.items + e.rejected, SortByTime(e.buffer.items);
            sorted != [] && HeaderLine(c.printer, HeaderFor(e.buffer), e.buffer.items) == HeaderOf(c.printer, e.runID, all, sorted)
  {
    SortByTimeStable(e.buffer.items);
    BlockHeaderAgrees(c, e);
    EarliestIsFirst(e.buffer.items);
  }

  lemma FooterFromItems(c: Config, e: Emission)
    requires Configured(c) && e.Block? && EmissionOk(c, e) && !e.reason.Overflow?
    ensures var all, sorted := e.buffer.items + e.rejected, SortByTime(e.buffer.items);
            sorted != [] && FooterLine(c.printer, FooterFor(e.buffer, e.reason), sorted) == LastLineOf(c, e, all, sorted)
  {
    SortByTimeStable(e.buffer.items);
    BlockHeaderAgrees(c, e);
  }
}

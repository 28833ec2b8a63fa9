/** Which span ends a run and which fill its banners (internal/sink/runblock.go:508-533,
    740-763, 1076-1088), said on the spans' own fields. */
module RootSpans {
  import opened Basics
  import opened Otlp
  import opened LineFormat
  import opened RunBlockFormat
  import opened Bucketing
  import opened RunBlockState
  import opened History
  import opened Interleaving
  import opened Guarantees
  import opened CachedHeader

  /** The root of a run that reports an outcome. */
  predicate Finishes(it: RunBlockItem) {
    && it.payload.SpanItem? && it.payload.span.name == "run" && it.payload.span.parentSpanId == []
    && LookupAttr(it.payload.span.attributes, "run.outcome") != ""
  }

  /** A turn writes a block because the run has ended if and only if its item is a
      root with an outcome and is accepted; the block holds what the run had and the item. */
  lemma RunEndsIff(c: Config, st: State, p: Pending, now: int)
    ensures var r := Enqueue(c, st, p, now); var accepted := p.runID !in st.truncated && |OpenItems(st, p.runID)| < c.maxItems;
            && (r.block.Some? && r.block.value.Block? && r.block.value.reason.RootEnded? <==> accepted && Finishes(p.item))
            && (accepted && Finishes(p.item) ==>
                  r.block.value.runID == p.runID && r.block.value.buffer.items == OpenItems(st, p.runID) + [p.item]
                  && p.runID !in r.state.runs && !r.stream)
            && (accepted && !Finishes(p.item) ==>
                  r.block.None? && !r.stream && p.runID in r.state.runs && r.state.runs[p.runID].items == OpenItems(st, p.runID) + [p.item])
  {
    ArriveItems(c, st, p, now);
  }

  /** In every reachable state a block was written because its run had ended if and only
      if its last item is a root with an outcome, and no other item of it is. */
  lemma RootEndedIff(c: Config, s: Sys, i: nat)
    requires Configured(c) && Reachable(c, s) && i < |s.out| && s.out[i].Block?
    ensures var items := s.out[i].buffer.items;
            && items != [] && (s.out[i].reason.RootEnded? <==> Finishes(items[|items| - 1]))
            && forall j :: 0 <= j < |items| - 1 ==> !Finishes(items[j])
  {
    ReachableSafe(c, s);
    WritesAt(c, s.out, i);
    var items := s.out[i].buffer.items;
    forall j | 0 <= j < |items| - 1 ensures !Finishes(items[j]) { assert !EndsRun(items[j]); }
  }

  /** A span of another name or with a parent, a log record or a data point leaves all
      cached fields of its buffer as they were; an empty buffer has none. */
  lemma OthersFillNothing(c: Config, st: State, p: Pending, now: int)
    requires !RunRoot(p.item)
    ensures var b := Arrive(c, st, p, now);
            if p.runID in st.runs then b == st.runs[p.runID].(lastActivity := now)
            else b.runID == p.runID && b.items == [] && !b.headerKnown && b.startedAt == b.endedAt == ""
                 && b.mode == b.provider == b.model == b.outcome == b.turns == ""
  {}

  /** What a root says under a key replaces what was cached; what it does not say stays. */
  predicate Takes(cached: string, after: string, span: Span, key: string) {
    var v := LookupAttr(span.attributes, key);
    (v != "" ==> after == v) && (v == "" ==> after == cached)
  }

  /** A root fills the fields, the first start and the last end counting. */
  lemma RootFills(c: Config, st: State, p: Pending, now: int)
    requires RunRoot(p.item) && p.runID in st.runs
    ensures var b, b', span := st.runs[p.runID], Arrive(c, st, p, now), p.item.payload.span;
            && b'.headerKnown && b'.items == b.items && b'.lastActivity == now
            && Takes(b.mode, b'.mode, span, "run.mode") && Takes(b.provider, b'.provider, span, "run.provider")
            && Takes(b.model, b'.model, span, "run.model") && Takes(b.outcome, b'.outcome, span, "run.outcome")
            && Takes(b.turns, b'.turns, span, "run.turns")
            && (b.startedAt != "" || span.start == 0 ==> b'.startedAt == b.startedAt)
            && (b.startedAt == "" && span.start > 0 ==> b'.startedAt == FormatTimestamp(c.printer, span.start))
            && b'.endedAt == if span.end > 0 then FormatTimestamp(c.printer, span.end) else b.endedAt
  {}
}

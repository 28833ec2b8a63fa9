/** What the methods of RunBlockSink do to its state while they hold its lock, as
    functions on values (internal/sink/runblock.go). The class RunBlockSink is
    proved against them, and the interleaving model takes them as its steps. */
module RunBlockState {
  import opened Basics
  import opened Otlp
  import opened LineFormat
  import opened RunBlockFormat
  import opened Bucketing

  datatype FlushReason = RootEnded | Idle | Overflow | Shutdown

  datatype Config = Config(printer: Printer, mode: RenderMode, idleTimeout: int, maxItems: int, visit: Visit)

  /** A configuration after NewRunBlockSink has filled in the defaults. */
  ghost predicate Configured(c: Config) {
    c.maxItems > 0 && c.idleTimeout > 0 && Sane(c.printer) && Listing(c.visit)
  }

  datatype Buffer = Buffer(
    runID: string, items: seq<RunBlockItem>,
    headerKnown: bool, mode: string, provider: string, model: string, startedAt: string,
    rootEnded: bool, outcome: string, turns: string, endedAt: string,
    lastActivity: int)

  datatype State = State(runs: map<string, Buffer>, traceToRun: TraceIndex, truncated: set<string>)

  const EMPTY: State := State(map[], map[], {})

  /** One call of writeLines. A block remembers the buffer it was rendered from,
      and the item whose arrival overflowed it. */
  datatype Emission =
    | Passthrough(lines: seq<string>)
    | Block(runID: string, buffer: Buffer, rejected: seq<RunBlockItem>, reason: FlushReason)
    | Streamed(runID: string, item: RunBlockItem)

  // ---- Root spans ----

  predicate IsRunRoot(span: Span) {
    span.name == "run" && span.parentSpanId == []
  }

  predicate IsRunRootEnd(span: Span) {
    IsRunRoot(span) && LookupAttr(span.attributes, "run.outcome") != ""
  }

  predicate IsRoot(it: RunBlockItem) {
    it.payload.SpanItem? && IsRunRoot(it.payload.span)
  }

  predicate EndsRun(it: RunBlockItem) {
    it.payload.SpanItem? && IsRunRootEnd(it.payload.span)
  }

  function Latest(span: Span, key: string, current: string): string {
    var v := LookupAttr(span.attributes, key);
    if v != "" then v else current
  }

  /** absorbRootLocked. */
  function AbsorbRoot(p: Printer, b: Buffer, span: Span): Buffer {
    b.(headerKnown := true,
       startedAt := if b.startedAt == "" && span.start > 0 then FormatTimestamp(p, span.start) else b.startedAt,
       mode := Latest(span, "run.mode", b.mode),
       provider := Latest(span, "run.provider", b.provider),
       model := Latest(span, "run.model", b.model),
       outcome := Latest(span, "run.outcome", b.outcome),
       turns := Latest(span, "run.turns", b.turns),
       endedAt := if span.end > 0 then FormatTimestamp(p, span.end) else b.endedAt)
  }

  function Absorbed(p: Printer, b: Buffer, it: RunBlockItem): Buffer {
    if IsRoot(it) then AbsorbRoot(p, b, it.payload.span) else b
  }

  function Fresh(runID: string, now: int): Buffer {
    Buffer(runID, [], false, "", "", "", "", false, "", "", "", now)
  }

  // ---- Flushing ----

  function FooterFor(b: Buffer, reason: FlushReason): Footer {
    match reason
    case RootEnded => Footer(b.runID, b.endedAt, b.outcome, b.turns)
    case Idle | Shutdown => Footer(b.runID, b.endedAt, "<unknown>", "")
    case Overflow => Footer(b.runID, b.endedAt, "", "")
  }

  function HeaderFor(b: Buffer): Header {
    Header(b.runID, b.startedAt, b.mode, b.provider, b.model)
  }

  /** The lines flushLocked hands to the writer. */
  function BlockLines(c: Config, b: Buffer, reason: FlushReason): seq<string>
    requires Listing(c.visit)
  {
    var lines := RunBlockFormat.Block(c.printer, c.mode, c.visit, HeaderFor(b), b.items, FooterFor(b, reason));
    if reason.Overflow? then lines[..|lines| - 1] + [TruncationWarning(b.runID, |b.items|)] else lines
  }

  function WithoutRun(index: TraceIndex, runID: string): TraceIndex {
    map t <- index | index[t] != runID :: index[t]
  }

  /** The state after flushLocked. */
  function Flushed(s: State, runID: string, reason: FlushReason): State {
    State(s.runs - {runID}, WithoutRun(s.traceToRun, runID),
          if reason.Overflow? then s.truncated + {runID} else s.truncated)
  }

  function FlushOpen(s: State, runID: string, reason: FlushReason): Emission
    requires runID in s.runs
  {
    Emission.Block(runID, s.runs[runID], [], reason)
  }

  function StreamedLines(c: Config, it: RunBlockItem): seq<string> {
    [ItemLine(c.printer, it)]
  }

  /** The lines of one write. */
  function Lines(c: Config, e: Emission): seq<string>
    requires Listing(c.visit)
  {
    match e
    case Passthrough(lines) => lines
    case Block(_, buffer, _, reason) => BlockLines(c, buffer, reason)
    case Streamed(_, it) => StreamedLines(c, it)
  }

  // ---- One pending item ----

  /** The state afterwards, the block written if any, and whether the item is to be
      streamed once the lock is released. */
  datatype Result = Result(state: State, block: Option<Emission>, stream: bool)

  /** The items of a run's open buffer. */
  function OpenItems(s: State, runID: string): seq<RunBlockItem> {
    if runID in s.runs then s.runs[runID].items else []
  }

  /** openRunLocked, then absorbRootLocked if the item is a run root. */
  function Arrive(c: Config, s: State, p: Pending, now: int): Buffer {
    var buffer := if p.runID in s.runs then s.runs[p.runID].(lastActivity := now) else Fresh(p.runID, now);
    Absorbed(c.printer, buffer, p.item)
  }

  /** One turn of the locked loop of a Consume method. */
  function Enqueue(c: Config, s: State, p: Pending, now: int): Result {
    if p.runID in s.truncated then Result(s, None, true)
    else
      var b := Arrive(c, s, p, now);
      if |b.items| >= c.maxItems then
        Result(Flushed(s, p.runID, Overflow), Some(Emission.Block(p.runID, b, [p.item], Overflow)), true)
      else
        var full := b.(items := b.items + [p.item]);
        if EndsRun(p.item) then
          Result(Flushed(s, p.runID, RootEnded), Some(Emission.Block(p.runID, full.(rootEnded := true), [], RootEnded)), false)
        else Result(s.(runs := s.runs[p.runID := full]), None, false)
  }

  // ---- The cached header ----

  /** The buffer a run has after these items, recomputed from the items alone. */
  function Folded(p: Printer, runID: string, items: seq<RunBlockItem>): Buffer {
    if items == [] then Fresh(runID, 0)
    else
      var b := Absorbed(p, Folded(p, runID, items[..|items| - 1]), items[|items| - 1]);
      b.(items := items)
  }

  lemma FoldedNext(p: Printer, runID: string, items: seq<RunBlockItem>, it: RunBlockItem)
    ensures Folded(p, runID, items + [it]) == Absorbed(p, Folded(p, runID, items), it).(items := items + [it])
  {}

  lemma {:induction false} FoldedPlain(p: Printer, runID: string, items: seq<RunBlockItem>)
    ensures var b := Folded(p, runID, items);
            && b.runID == runID && b.items == items && !b.rootEnded
            && ((forall it <- items :: !EndsRun(it)) ==> b.outcome == "")
  {
    if items != [] {
      FoldedPlain(p, runID, items[..|items| - 1]);
      assert items[|items| - 1] in items;
      assert forall it <- items[..|items| - 1] :: it in items;
    }
  }

  // ---- The invariant between locked steps ----

  /** An open buffer holds 1 to MaxItems items, none of which ended the run, and
      its cached fields are what folding the root spans among them gives. */
  ghost predicate BufferOk(c: Config, runID: string, b: Buffer) {
    && 1 <= |b.items| <= c.maxItems
    && (forall it <- b.items :: !EndsRun(it))
    && b.(lastActivity := 0) == Folded(c.printer, runID, b.items)
  }

  /** Holds whenever the lock is free. */
  ghost predicate StateOk(c: Config, s: State) {
    forall r <- s.runs :: r !in s.truncated && BufferOk(c, r, s.runs[r])
  }

  lemma OpenBufferIsUndecided(c: Config, s: State, r: string)
    requires StateOk(c, s) && r in s.runs
    ensures s.runs[r].runID == r && !s.runs[r].rootEnded && s.runs[r].outcome == ""
  {
    FoldedPlain(c.printer, r, s.runs[r].items);
  }

  /** A block holds 1 to MaxItems items, exactly MaxItems on overflow; only its last
      item can have ended the run, and has exactly when that is why it was
      written. The cached fields it was rendered from are what folding its items
      gives; on overflow the rejected item has been absorbed as well. */
  ghost predicate EmissionOk(c: Config, e: Emission) {
    match e
    case Passthrough(lines) => AllItems(lines)
    case Streamed(_, _) => true
    case Block(runID, b, rejected, reason) =>
      && 1 <= |b.items| <= c.maxItems
      && b.(lastActivity := 0, rootEnded := false) == Folded(c.printer, runID, b.items + rejected).(items := b.items)
      && (b.rootEnded <==> reason.RootEnded?)
      && (reason.Overflow? ==> |b.items| == c.maxItems && |rejected| == 1)
      && (!reason.Overflow? ==> rejected == [])
      && (forall i :: 0 <= i < |b.items| - 1 ==> !EndsRun(b.items[i]))
      && (EndsRun(b.items[|b.items| - 1]) <==> reason.RootEnded?)
  }

  lemma ArriveItems(c: Config, s: State, p: Pending, now: int)
    ensures Arrive(c, s, p, now).items == OpenItems(s, p.runID)
  {}

  /** With the arriving item appended, the buffer is the fold again. */
  lemma ArriveFolds(c: Config, s: State, p: Pending, now: int)
    requires StateOk(c, s)
    ensures var b := Arrive(c, s, p, now); var items := OpenItems(s, p.runID);
            && b.items == items && (items != [] ==> |items| <= c.maxItems) && (forall it <- items :: !EndsRun(it))
            && b.(items := items + [p.item], lastActivity := 0) == Folded(c.printer, p.runID, items + [p.item])
  {
    FoldedPlain(c.printer, p.runID, OpenItems(s, p.runID));
    FoldedNext(c.printer, p.runID, OpenItems(s, p.runID), p.item);
  }

  lemma OverflowBlockOk(c: Config, s: State, p: Pending, now: int)
    requires c.maxItems > 0 && StateOk(c, s) && |Arrive(c, s, p, now).items| >= c.maxItems
    ensures EmissionOk(c, Emission.Block(p.runID, Arrive(c, s, p, now), [p.item], Overflow))
  {
    var b := Arrive(c, s, p, now);
    ArriveFolds(c, s, p, now);
    FoldedPlain(c.printer, p.runID, b.items + [p.item]);
    assert b.items[|b.items| - 1] in b.items;
  }

  lemma EndBlockOk(c: Config, s: State, p: Pending, now: int)
    requires c.maxItems > 0 && StateOk(c, s) && |Arrive(c, s, p, now).items| < c.maxItems && EndsRun(p.item)
    ensures var b := Arrive(c, s, p, now);
            EmissionOk(c, Emission.Block(p.runID, b.(items := b.items + [p.item], rootEnded := true), [], RootEnded))
  {
    var b := Arrive(c, s, p, now);
    ArriveFolds(c, s, p, now);
    FoldedPlain(c.printer, p.runID, b.items + [p.item]);
    assert (b.items + [p.item]) + [] == b.items + [p.item];
  }

  lemma GrownBufferOk(c: Config, s: State, p: Pending, now: int)
    requires c.maxItems > 0 && StateOk(c, s) && |Arrive(c, s, p, now).items| < c.maxItems && !EndsRun(p.item)
    ensures var b := Arrive(c, s, p, now); BufferOk(c, p.runID, b.(items := b.items + [p.item]))
  {
    ArriveFolds(c, s, p, now);
  }

  lemma FlushedOk(c: Config, s: State, runID: string, reason: FlushReason)
    requires StateOk(c, s)
    ensures StateOk(c, Flushed(s, runID, reason))
  {}

  /** A locked step keeps the invariant and writes only well-formed blocks, every
      one of them determined by its items. */
  lemma EnqueueOk(c: Config, s: State, p: Pending, now: int)
    requires c.maxItems > 0 && StateOk(c, s)
    ensures var r := Enqueue(c, s, p, now);
            StateOk(c, r.state) && (r.block.Some? ==> EmissionOk(c, r.block.value))
  {
    if p.runID in s.truncated {
    } else if |Arrive(c, s, p, now).items| >= c.maxItems {
      OverflowBlockOk(c, s, p, now);
      FlushedOk(c, s, p.runID, Overflow);
    } else if EndsRun(p.item) {
      EndBlockOk(c, s, p, now);
      FlushedOk(c, s, p.runID, RootEnded);
    } else {
      GrownBufferOk(c, s, p, now);
      var r := Enqueue(c, s, p, now).state;
      forall k <- r.runs ensures k !in r.truncated && BufferOk(c, k, r.runs[k]) {
        if k != p.runID { assert k in s.runs; }
      }
    }
  }

  lemma FlushOk(c: Config, s: State, runID: string, reason: FlushReason)
    requires StateOk(c, s) && runID in s.runs && (reason.Idle? || reason.Shutdown?)
    ensures StateOk(c, Flushed(s, runID, reason)) && EmissionOk(c, FlushOpen(s, runID, reason))
  {
    var b := s.runs[runID];
    assert b.items + [] == b.items && b.items[|b.items| - 1] in b.items;
    FoldedPlain(c.printer, runID, b.items);
    FlushedOk(c, s, runID, reason);
  }
}

/** The buffering sink with its mutable buffers (internal/sink/runblock.go), each
    method proved to do to the state and the output what the functions of
    RunBlockState and Sequential say. A call here runs alone; Interleaving covers
    concurrent calls. */
module RunBlockSinks {
  import opened Basics
  import opened Otlp
  import opened LineFormat
  import opened RunBlockFormat
  import opened Regroup
  import opened Bucketing
  import opened RunBlockState
  import opened History
  import opened Interleaving
  import opened Sequential
  import opened StdoutSinks
  import opened IdOrder
  import Hex

  /** A runBuffer behind its pointer: shared by the map of open runs and the method
      at work on it, and updated in place. */
  class RunBuffer {
    var b: Buffer

    constructor (runID: string, now: int)
      ensures b == Fresh(runID, now)
    {
      b := Fresh(runID, now);
    }

    /** absorbRootLocked. */
    method AbsorbRoot(p: Printer, span: Span)
      modifies this
      ensures b == RunBlockState.AbsorbRoot(p, old(b), span)
    {
      b := b.(headerKnown := true);
      if b.startedAt == "" && span.start > 0 { b := b.(startedAt := FormatTimestamp(p, span.start)); }
      b := b.(mode := Latest(span, "run.mode", b.mode));
      b := b.(provider := Latest(span, "run.provider", b.provider));
      b := b.(model := Latest(span, "run.model", b.model));
      b := b.(outcome := Latest(span, "run.outcome", b.outcome));
      b := b.(turns := Latest(span, "run.turns", b.turns));
      if span.end > 0 { b := b.(endedAt := FormatTimestamp(p, span.end)); }
    }
  }

  /** What the writer holds after these writes. */
  function Replay(c: Config, accepts: nat -> bool, start: (seq<string>, nat), writes: seq<Emission>): (seq<string>, nat)
    requires Listing(c.visit)
  {
    if writes == [] then start
    else
      var (out, offered) := Replay(c, accepts, start, writes[..|writes| - 1]);
      var (out', offered', _) := Written(accepts, out, offered, Lines(c, writes[|writes| - 1]));
      (out', offered')
  }

  lemma ReplayNext(c: Config, accepts: nat -> bool, start: (seq<string>, nat), writes: seq<Emission>, e: Emission)
    requires Listing(c.visit)
    ensures var (out, offered) := Replay(c, accepts, start, writes);
            var (out', offered', _) := Written(accepts, out, offered, Lines(c, e));
            Replay(c, accepts, start, writes + [e]) == (out', offered')
  {}

  /** With a writer that does not fail the output is the text of the writes. */
  lemma {:induction false} ReplayIsText(c: Config, accepts: nat -> bool, start: (seq<string>, nat), writes: seq<Emission>)
    requires Listing(c.visit) && forall n :: accepts(n)
    ensures Replay(c, accepts, start, writes).0 == start.0 + Text(c, writes)
  {
    if writes != [] {
      var init, e := writes[..|writes| - 1], writes[|writes| - 1];
      ReplayIsText(c, accepts, start, init);
      var (out, offered) := Replay(c, accepts, start, init);
      var lines, text := Lines(c, e), Text(c, init);
      AllWritten(accepts, out, offered, lines);
      assert Text(c, writes) == text + lines;
      Associative(start.0, text, lines);
    }
  }

  /** What any calls and sweeps ended by the first Shutdown leave with a writer that
      does not fail: banners, warnings and indentation aside, the lines that
      StdoutSink writes for the same requests, in some order. */
  lemma OutputRefinesLineMode(c: Config, accepts: nat -> bool, calls: seq<Call>, last: (State, seq<Emission>), order: seq<string>)
    requires Configured(c) && (forall n :: accepts(n))
    requires Played(c, (EMPTY, []), calls, last) && Lossless(calls) && Legal(c, last.0, Close(order))
    ensures var writes := Perform(c, last.0, last.1, Close(order)).1;
            Bag(Replay(c, accepts, ([], 0), writes).0) == LineModeBag(c, calls)
  {
    var writes := Perform(c, last.0, last.1, Close(order)).1;
    ReplayIsText(c, accepts, ([], 0), writes);
    assert [] + Text(c, writes) == Text(c, writes);
    SequentialRefinement(c, calls, last, order);
  }

  /** A Consume call whose bypass write fails is the call `Failed` of the model: with
      some number of lines out, the state is the one that call leaves, and the
      output has grown by what it writes. */
  lemma FailureIsFailed(c: Config, accepts: nat -> bool, start: (seq<string>, nat), writes: seq<Emission>, st: State, call: Call)
    returns (cut: nat)
    requires Listing(c.visit) && Consumes(call)
    requires var (out, offered) := Replay(c, accepts, start, writes); !Written(accepts, out, offered, Planned(c, st, call).lines).2
    ensures Legal(c, st, Failed(call, cut))
    ensures var (st', writes') := Settled(c, Planned(c, st, call), writes, call.now, false);
            && st' == Perform(c, st, writes, Failed(call, cut)).0
            && Replay(c, accepts, start, writes').0 == Replay(c, accepts, start, writes).0 + Planned(c, st, call).lines[..cut]
    ensures Perform(c, st, writes, Failed(call, cut)).1 == Write(writes, Passed(Planned(c, st, call).lines[..cut]))
  {
    var (out, offered) := Replay(c, accepts, start, writes);
    var lines := Planned(c, st, call).lines;
    cut := FailedPrefix(accepts, out, offered, lines);
    ReplayNext(c, accepts, start, writes, Passthrough(lines));
  }

  class RunBlockSink {
    const cfg: Config
    const inner: StdoutSink
    var runs: map<string, RunBuffer>
    var traceToRun: TraceIndex
    var truncated: set<string>
    var stopped: bool

    /** The writes so far, and what the writer held before them. */
    ghost var writes: seq<Emission>
    ghost const start: (seq<string>, nat)

    /** Every open buffer is filed under its own run. */
    ghost predicate Keyed()
      reads this`runs, runs.Values
    {
      forall r <- runs :: runs[r].b.runID == r
    }

    /** The output is what the writes made of it. */
    ghost predicate Tracked()
      reads this`writes, inner
    {
      && Configured(cfg) && inner.printer == cfg.printer
      && (inner.out, inner.offered) == Replay(cfg, inner.accepts, start, writes)
    }

    ghost predicate Valid()
      reads this`runs, runs.Values, this`writes, inner
    {
      Keyed() && Tracked()
    }

    ghost function Buffers(): map<string, Buffer>
      reads this`runs, runs.Values
    {
      map r <- runs :: runs[r].b
    }

    ghost function View(): State
      reads this`runs, runs.Values, this`traceToRun, this`truncated
    {
      State(Buffers(), traceToRun, truncated)
    }

    /** NewRunBlockSink: limits that are not positive get their defaults. */
    constructor (inner: StdoutSink, mode: RenderMode, idleTimeout: int, maxItems: int, visit: Visit)
      requires Sane(inner.printer) && Listing(visit)
      ensures Valid() && View() == EMPTY && writes == [] && !stopped && this.inner == inner
      ensures cfg == Config(inner.printer, mode,
                            if idleTimeout <= 0 then 300_000 * MILLISECOND else idleTimeout,
                            if maxItems <= 0 then 10000 else maxItems, visit)
      ensures start == (inner.out, inner.offered)
    {
      this.inner := inner;
      cfg := Config(inner.printer, mode, if idleTimeout <= 0 then 300_000 * MILLISECOND else idleTimeout,
                    if maxItems <= 0 then 10000 else maxItems, visit);
      runs, traceToRun, truncated, stopped := map[], map[], {}, false;
      writes, start := [], (inner.out, inner.offered);
    }

    /** A write: the output moves on as Replay says. */
    method Put(lines: seq<string>, ghost e: Emission) returns (ok: bool)
      requires Tracked() && lines == Lines(cfg, e)
      modifies this`writes, inner
      ensures Tracked() && writes == old(writes) + [e]
      ensures ok == Written(inner.accepts, old(inner.out), old(inner.offered), lines).2
    {
      ok := inner.WriteLines(lines);
      ReplayNext(cfg, inner.accepts, start, writes, e);
      writes := writes + [e];
    }

    method OpenRunLocked(runID: string, now: int) returns (rb: RunBuffer)
      requires Keyed()
      modifies this`runs, runs.Values
      ensures Keyed() && runID in runs && runs[runID] == rb && fresh(runs.Values - old(runs.Values))
      ensures rb.b == if runID in old(runs) then old(Buffers())[runID].(lastActivity := now) else Fresh(runID, now)
      ensures Buffers() == old(Buffers())[runID := rb.b]
    {
      if runID in runs {
        rb := runs[runID];
        rb.b := rb.b.(lastActivity := now);
      } else {
        rb := new RunBuffer(runID, now);
        runs := runs[runID := rb];
      }
    }

    method AbsorbRootLocked(rb: RunBuffer, span: Span)
      requires Keyed() && rb.b.runID in runs && runs[rb.b.runID] == rb
      modifies rb
      ensures Keyed() && rb.b == RunBlockState.AbsorbRoot(cfg.printer, old(rb.b), span)
      ensures Buffers() == old(Buffers())[rb.b.runID := rb.b]
    {
      rb.AbsorbRoot(cfg.printer, span);
    }

    /** The index without the entries of a flushed run, deleted one by one. */
    method DropTraces(runID: string)
      modifies this`traceToRun
      ensures traceToRun == WithoutRun(old(traceToRun), runID)
    {
      var todo := traceToRun.Keys;
      while todo != {}
        invariant todo <= traceToRun.Keys <= old(traceToRun).Keys
        invariant forall t <- traceToRun :: traceToRun[t] == old(traceToRun)[t]
        invariant forall t <- old(traceToRun) :: t !in todo ==> (t in traceToRun <==> old(traceToRun)[t] != runID)
        decreases todo
      {
        var tid :| tid in todo;
        todo := todo - {tid};
        if traceToRun[tid] == runID {
          traceToRun := traceToRun - {tid};
        }
      }
    }

    /** The deferred part of flushLocked. */
    method Forget(runID: string)
      requires Keyed() && runID in runs
      modifies this`runs, this`traceToRun
      ensures Keyed() && runs == old(runs) - {runID} && Buffers() == old(Buffers()) - {runID}
      ensures traceToRun == WithoutRun(old(traceToRun), runID)
    {
      runs := runs - {runID};
      DropTraces(runID);
    }

    /** rb.rootEnded = true. */
    method EndRoot(rb: RunBuffer)
      requires Keyed() && rb.b.runID in runs && runs[rb.b.runID] == rb
      modifies rb
      ensures Keyed() && rb.b == old(rb.b).(rootEnded := true)
      ensures Buffers() == old(Buffers())[rb.b.runID := rb.b]
    {
      rb.b := rb.b.(rootEnded := true);
    }

    /** The part of flushLocked that turns a buffer into lines. */
    method RenderBlock(rb: RunBuffer, reason: FlushReason) returns (lines: seq<string>)
      requires Configured(cfg)
      ensures lines == BlockLines(cfg, rb.b, reason)
    {
      var header := Header(rb.b.runID, rb.b.startedAt, rb.b.mode, rb.b.provider, rb.b.model);
      var footer := Footer(rb.b.runID, rb.b.endedAt, "", "");
      match reason {
        case RootEnded => footer := footer.(outcome := rb.b.outcome, turns := rb.b.turns);
        case Idle => footer := footer.(outcome := "<unknown>");
        case Shutdown => footer := footer.(outcome := "<unknown>");
        case Overflow =>
      }
      lines := RenderRunBlock(cfg.printer, cfg.mode, cfg.visit, header, rb.b.items, footer);
      if reason.Overflow? {
        if |lines| > 0 {
          lines := lines[..|lines| - 1];
        }
        lines := lines + [TruncationWarning(rb.b.runID, |rb.b.items|)];
      }
    }

    /** s.truncated[runID] = true. */
    method Truncate(runID: string)
      modifies this`truncated
      ensures truncated == old(truncated) + {runID} && Buffers() == old(Buffers())
    {
      truncated := truncated + {runID};
    }

    /** The rendering and writing part of flushLocked. */
    method WriteBlock(rb: RunBuffer, reason: FlushReason, ghost rejected: seq<RunBlockItem>)
      requires Tracked()
      modifies this`writes, inner
      ensures Tracked() && rb.b == old(rb.b) && Buffers() == old(Buffers())
      ensures writes == old(writes) + [Emission.Block(rb.b.runID, rb.b, rejected, reason)]
    {
      var lines := RenderBlock(rb, reason);
      var _ := Put(lines, Emission.Block(rb.b.runID, rb.b, rejected, reason));
    }

    /** `rejected` is the item that overflowed the buffer, if one did. */
    method FlushLocked(rb: RunBuffer, reason: FlushReason, ghost rejected: seq<RunBlockItem>)
      requires Keyed() && Tracked() && rb.b.runID in runs && runs[rb.b.runID] == rb
      modifies this`runs, this`traceToRun, this`truncated, this`writes, inner
      ensures Keyed() && Tracked() && runs == old(runs) - {rb.b.runID}
      ensures View() == Flushed(old(View()), rb.b.runID, reason)
      ensures writes == old(writes) + [Emission.Block(rb.b.runID, rb.b, rejected, reason)]
    {
      if reason.Overflow? {
        Truncate(rb.b.runID);
      }
      WriteBlock(rb, reason, rejected);
      Forget(rb.b.runID);
    }

    method AppendItemLocked(rb: RunBuffer, item: RunBlockItem, now: int) returns (ok: bool)
      requires Keyed() && Tracked() && rb.b.runID in runs && runs[rb.b.runID] == rb
      modifies this`runs, this`traceToRun, this`truncated, this`writes, inner, rb
      ensures Keyed() && Tracked() && runs.Values <= old(runs.Values) && ok == (|old(rb.b.items)| < cfg.maxItems)
      ensures ok ==> runs == old(runs) && traceToRun == old(traceToRun) && truncated == old(truncated) && writes == old(writes)
      ensures ok ==> rb.b == old(rb.b).(items := old(rb.b.items) + [item], lastActivity := now)
      ensures ok ==> Buffers() == old(Buffers())[old(rb.b.runID) := rb.b]
      ensures !ok ==> View() == Flushed(old(View()), old(rb.b.runID), Overflow)
      ensures !ok ==> writes == old(writes) + [Emission.Block(old(rb.b.runID), old(rb.b), [item], Overflow)]
    {
      if cfg.maxItems > 0 && |rb.b.items| >= cfg.maxItems {
        FlushLocked(rb, Overflow, [item]);
        return false;
      }
      rb.b := rb.b.(items := rb.b.items + [item]);
      rb.b := rb.b.(lastActivity := now);
      return true;
    }

    /** The buffer with the run root among the arriving items absorbed. */
    method ArriveLocked(p: Pending, now: int) returns (rb: RunBuffer)
      requires Keyed()
      modifies this`runs, runs.Values
      ensures Keyed() && p.runID in runs && runs[p.runID] == rb && fresh(runs.Values - old(runs.Values))
      ensures rb.b == Arrive(cfg, old(View()), p, now) && rb.b.runID == p.runID && rb.b.lastActivity == now
      ensures Buffers() == old(Buffers())[p.runID := rb.b]
    {
      rb := OpenRunLocked(p.runID, now);
      if IsRoot(p.item) {
        AbsorbRootLocked(rb, p.item.payload.span);
      }
    }

    /** The flush of a run whose root has just ended. */
    method EndRunLocked(rb: RunBuffer)
      requires Keyed() && Tracked() && rb.b.runID in runs && runs[rb.b.runID] == rb
      modifies this`runs, this`traceToRun, this`truncated, this`writes, inner, rb
      ensures Keyed() && Tracked() && runs.Values <= old(runs.Values)
      ensures View() == Flushed(old(View()), old(rb.b.runID), RootEnded)
      ensures writes == old(writes) + [Emission.Block(old(rb.b.runID), old(rb.b).(rootEnded := true), [], RootEnded)]
    {
      ghost var before := View();
      EndRoot(rb);
      assert View() == before.(runs := before.runs[rb.b.runID := rb.b]);
      FlushLocked(rb, RootEnded, []);
      FlushedAgain(before, rb.b.runID, rb.b, RootEnded);
    }

    /** appendItemLocked and, for the end of the run, the flush after it. */
    method AcceptLocked(rb: RunBuffer, p: Pending, now: int) returns (stream: bool)
      requires Keyed() && Tracked() && p.runID == rb.b.runID && p.runID in runs && runs[p.runID] == rb
      requires rb.b.lastActivity == now
      modifies this`runs, this`traceToRun, this`truncated, this`writes, inner, rb
      ensures Keyed() && Tracked() && runs.Values <= old(runs.Values)
      ensures var r := Accept(cfg, old(View()), p);
              View() == r.state && writes == Write(old(writes), r.block) && stream == r.stream
    {
      ghost var before := View();
      ghost var full := rb.b.(items := rb.b.items + [p.item]);
      assert before.runs[p.runID] == rb.b;
      var ok := AppendItemLocked(rb, p.item, now);
      if !ok {
        return true;
      }
      assert View() == before.(runs := before.runs[p.runID := full]);
      if EndsRun(p.item) {
        EndRunLocked(rb);
        FlushedAgain(before, p.runID, full, RootEnded);
      }
      return false;
    }

    /** One turn of the locked loops. The loops over metrics and logs lack the two
        tests for run roots, which no metric or log passes. */
    method EnqueueLocked(p: Pending, now: int) returns (stream: bool)
      requires Keyed() && Tracked()
      modifies this`runs, this`traceToRun, this`truncated, this`writes, runs.Values, inner
      ensures Keyed() && Tracked() && fresh(runs.Values - old(runs.Values))
      ensures var r := Enqueue(cfg, old(View()), p, now);
              View() == r.state && writes == Write(old(writes), r.block) && stream == r.stream
    {
      if p.runID in truncated {
        return true;
      }
      ghost var before := View();
      var rb := ArriveLocked(p, now);
      assert View() == Opened(cfg, before, p, now);
      AcceptIsEnqueue(cfg, before, p, now);
      stream := AcceptLocked(rb, p, now);
    }

    /** streamSingleSpan. */
    method StreamSpan(done: bool, runID: string, it: RunBlockItem)
      requires Tracked() && it.payload.SpanItem?
      modifies this`writes, inner
      ensures Tracked() && writes == if done then old(writes) else old(writes) + [Streamed(runID, it)]
    {
      var span := it.payload.span;
      SingleEntries(None, span);
      SingleSpanText(cfg.printer, it);
      var _ := inner.ConsumeTraces(done, Single(None, span));
      if !done {
        ReplayNext(cfg, inner.accepts, start, writes, Streamed(runID, it));
        writes := writes + [Streamed(runID, it)];
      }
    }

    /** streamSingleLog. */
    method StreamLog(done: bool, runID: string, it: RunBlockItem)
      requires Tracked() && it.payload.LogItem?
      modifies this`writes, inner
      ensures Tracked() && writes == if done then old(writes) else old(writes) + [Streamed(runID, it)]
    {
      var lr := it.payload.log;
      SingleEntries(None, lr);
      SingleLogText(cfg.printer, it);
      var _ := inner.ConsumeLogs(done, Single(None, lr));
      if !done {
        ReplayNext(cfg, inner.accepts, start, writes, Streamed(runID, it));
        writes := writes + [Streamed(runID, it)];
      }
    }

    /** streamSingleMetric. */
    method StreamMetric(done: bool, runID: string, it: RunBlockItem)
      requires Tracked() && it.payload.MetricItem?
      modifies this`writes, inner
      ensures Tracked() && writes == if done then old(writes) else old(writes) + [Streamed(runID, it)]
    {
      var attrs := it.payload.resourceAttrs;
      var resource := if |attrs| > 0 then Some(Resource(0, attrs)) else None;
      var metric := BuildSyntheticMetric(it.payload.metricName, it.payload.point);
      SingleEntries(resource, metric);
      SingleMetricText(cfg.printer, resource, it);
      var _ := inner.ConsumeMetrics(done, Single(resource, metric));
      if !done {
        ReplayNext(cfg, inner.accepts, start, writes, Streamed(runID, it));
        writes := writes + [Streamed(runID, it)];
      }
    }

    /** One item through the inner sink, outside the lock, as its one line of line mode;
        it is dropped when the context has ended. */
    method StreamSingle(done: bool, p: Pending)
      requires Tracked()
      modifies this`writes, inner
      ensures Tracked() && writes == if done then old(writes) else old(writes) + [Streamed(p.runID, p.item)]
    {
      match p.item.payload {
        case SpanItem(_) => StreamSpan(done, p.runID, p.item);
        case LogItem(_) => StreamLog(done, p.runID, p.item);
        case MetricItem(_, _, _) => StreamMetric(done, p.runID, p.item);
      }
    }

    /** The locked loop over the pending items. */
    method ProcessPendings(pendings: seq<Pending>, now: int)
      requires Keyed() && Tracked()
      modifies this`runs, this`traceToRun, this`truncated, this`writes, runs.Values, inner
      ensures Keyed() && Tracked() && fresh(runs.Values - old(runs.Values))
      ensures (View(), writes) == HandleAll(cfg, old(View()), old(writes), pendings, now)
    {
      for i := 0 to |pendings|
        invariant Keyed() && Tracked() && fresh(runs.Values - old(runs.Values))
        invariant HandleAll(cfg, View(), writes, pendings[i..], now) == HandleAll(cfg, old(View()), old(writes), pendings, now)
      {
        assert pendings[i..][1..] == pendings[i + 1..];
        HandleOne(pendings[i], pendings[i + 1..], now);
      }
    }

    /** The end of a Consume call: nothing pending, nothing to lock. */
    method Finish(pendings: seq<Pending>, now: int)
      requires Keyed() && Tracked()
      modifies this`runs, this`traceToRun, this`truncated, this`writes, runs.Values, inner
      ensures Keyed() && Tracked() && fresh(runs.Values - old(runs.Values))
      ensures (View(), writes) == HandleAll(cfg, old(View()), old(writes), pendings, now)
    {
      if |pendings| > 0 {
        ProcessPendings(pendings, now);
      }
    }

    method HandleOne(p: Pending, ghost rest: seq<Pending>, now: int)
      requires Keyed() && Tracked()
      modifies this`runs, this`traceToRun, this`truncated, this`writes, runs.Values, inner
      ensures Keyed() && Tracked() && fresh(runs.Values - old(runs.Values))
      ensures var r := Enqueue(cfg, old(View()), p, now);
              View() == r.state && writes == Handled(old(writes), r, p)
    {
      var stream := EnqueueLocked(p, now);
      ghost var after := View();
      if stream {
        StreamSingle(false, p);
        assert View() == after;
      }
    }

    method ForwardMetrics(bypass: Request<Metric>) returns (ok: bool)
      requires Tracked()
      modifies this`writes, inner
      ensures var lines := MetricsText(cfg.printer, Entries(bypass));
              Tracked() && writes == Write(old(writes), Passed(lines))
                && ok == Written(inner.accepts, old(inner.out), old(inner.offered), lines).2
    {
      ok := true;
      var has := HasRecords(bypass);
      if has {
        ghost var lines := MetricsText(cfg.printer, Entries(bypass));
        ok := inner.ConsumeMetrics(false, bypass);
        ReplayNext(cfg, inner.accepts, start, writes, Passthrough(lines));
        writes := Write(writes, Passed(lines));
      }
    }

    method ForwardLogs(bypass: Request<LogRecord>) returns (ok: bool)
      requires Tracked()
      modifies this`writes, inner
      ensures var lines := LogsText(cfg.printer, Entries(bypass));
              Tracked() && writes == Write(old(writes), Passed(lines))
                && ok == Written(inner.accepts, old(inner.out), old(inner.offered), lines).2
    {
      ok := true;
      var has := HasRecords(bypass);
      if has {
        ghost var lines := LogsText(cfg.printer, Entries(bypass));
        ok := inner.ConsumeLogs(false, bypass);
        ReplayNext(cfg, inner.accepts, start, writes, Passthrough(lines));
        writes := Write(writes, Passed(lines));
      }
    }

    method ForwardSpans(bypass: Request<Span>) returns (ok: bool)
      requires Tracked()
      modifies this`writes, inner
      ensures var lines := SpansText(cfg.printer, Entries(bypass));
              Tracked() && writes == Write(old(writes), Passed(lines))
                && ok == Written(inner.accepts, old(inner.out), old(inner.offered), lines).2
    {
      ok := true;
      var has := HasRecords(bypass);
      if has {
        ghost var lines := SpansText(cfg.printer, Entries(bypass));
        ok := inner.ConsumeTraces(false, bypass);
        ReplayNext(cfg, inner.accepts, start, writes, Passthrough(lines));
        writes := Write(writes, Passed(lines));
      }
    }

    /** Splitting a request and forwarding what has no run. */
    method SortMetrics(req: Request<Metric>, ghost now: int) returns (ok: bool, pendings: seq<Pending>)
      requires Tracked()
      modifies this`writes, inner
      ensures var plan := Planned(cfg, View(), Metrics(req, now));
              && Tracked() && writes == Write(old(writes), Passed(plan.lines)) && pendings == plan.pendings
              && ok == Written(inner.accepts, old(inner.out), old(inner.offered), plan.lines).2
    {
      var bypass;
      bypass, pendings := BucketMetrics(req);
      ok := ForwardMetrics(bypass);
    }

    method SortLogs(req: Request<LogRecord>, ghost now: int) returns (ok: bool, pendings: seq<Pending>)
      requires Tracked()
      modifies this`writes, inner
      ensures var plan := Planned(cfg, View(), Logs(req, now));
              && Tracked() && writes == Write(old(writes), Passed(plan.lines)) && pendings == plan.pendings
              && ok == Written(inner.accepts, old(inner.out), old(inner.offered), plan.lines).2
    {
      var bypass;
      bypass, pendings := BucketLogs(req);
      ok := ForwardLogs(bypass);
    }

    /** The first pass of ConsumeTraces. */
    method MapTraces(es: seq<Entry<Span>>)
      modifies this`traceToRun
      ensures traceToRun == Learned(old(traceToRun), es)
    {
      for i := 0 to |es|
        invariant traceToRun == Learned(old(traceToRun), es[..i])
      {
        assert es[..i + 1][..i] == es[..i];
        var rid := LookupAttr(es[i].record.attributes, "run.id");
        if rid != "" && |es[i].record.traceId| > 0 {
          traceToRun := traceToRun[Hex.EncodeToString(es[i].record.traceId) := rid];
        }
      }
      assert es[..|es|] == es;
    }

    /** The second pass of ConsumeTraces. */
    method BucketSpans(es: seq<Entry<Span>>) returns (bypass: Request<Span>, pendings: seq<Pending>)
      ensures bypass == Regrouped(KeptSpans(traceToRun, es)) && pendings == PendingSpans(traceToRun, es)
    {
      var b := new Bypass<Span>();
      pendings := [];
      for i := 0 to |es|
        invariant b.groups == Regrouped(KeptSpans(traceToRun, es[..i])) && pendings == PendingSpans(traceToRun, es[..i])
        invariant fresh(b)
      {
        assert es[..i + 1][..i] == es[..i];
        var span := es[i].record;
        var runID := LookupAttr(span.attributes, "run.id");
        if runID == "" && |span.traceId| > 0 {
          var trace := Hex.EncodeToString(span.traceId);
          if trace in traceToRun { runID := traceToRun[trace]; }
        }
        if runID == "" {
          ghost var kept := KeptSpans(traceToRun, es[..i]);
          b.EnsureScope(es[i]);
          RegroupedNext(kept, es[i]);
          assert PendingSpans(traceToRun, es[..i + 1]) == PendingSpans(traceToRun, es[..i]);
        } else {
          pendings := pendings + [Pending(runID, RunBlockItem(span.start, SpanItem(span)))];
          assert KeptSpans(traceToRun, es[..i + 1]) == KeptSpans(traceToRun, es[..i]);
        }
      }
      assert es[..|es|] == es;
      bypass := b.groups;
    }

    /** The first pass leaves the state as planned. */
    method LearnTraces(es: seq<Entry<Span>>)
      modifies this`traceToRun
      ensures View() == old(View()).(traceToRun := Learned(old(traceToRun), es))
    {
      MapTraces(es);
    }

    /** The rest of ConsumeTraces. */
    method RouteSpans(es: seq<Entry<Span>>, now: int) returns (ok: bool)
      requires Keyed() && Tracked()
      modifies this`runs, this`traceToRun, this`truncated, this`writes, runs.Values, inner
      ensures Keyed() && Tracked() && fresh(runs.Values - old(runs.Values))
      ensures var lines := SpansText(cfg.printer, Entries(Regrouped(KeptSpans(old(traceToRun), es))));
              && ok == Written(inner.accepts, old(inner.out), old(inner.offered), lines).2
              && (View(), writes) == Settled(cfg, Plan(old(View()), lines, PendingSpans(old(traceToRun), es)), old(writes), now, ok)
    {
      ghost var before := View();
      var bypass, pendings := BucketSpans(es);
      ok := ForwardSpans(bypass);
      assert View() == before;
      if ok {
        Finish(pendings, now);
      }
    }

    /** `done` says that the context has ended; `now` is what the clock reads. */
    method ConsumeMetrics(done: bool, req: Request<Metric>, now: int) returns (ok: bool)
      requires Keyed() && Tracked()
      modifies this`runs, this`traceToRun, this`truncated, this`writes, runs.Values, inner
      ensures Keyed() && Tracked() && fresh(runs.Values - old(runs.Values))
      ensures done ==> !ok && View() == old(View()) && writes == old(writes)
      ensures !done ==>
                var plan := Planned(cfg, old(View()), Metrics(req, now));
                && ok == Written(inner.accepts, old(inner.out), old(inner.offered), plan.lines).2
                && (View(), writes) == Settled(cfg, plan, old(writes), now, ok)
    {
      if done { return false; }
      var pendings;
      ok, pendings := SortMetrics(req, now);
      if ok {
        Finish(pendings, now);
      }
    }

    method ConsumeLogs(done: bool, req: Request<LogRecord>, now: int) returns (ok: bool)
      requires Keyed() && Tracked()
      modifies this`runs, this`traceToRun, this`truncated, this`writes, runs.Values, inner
      ensures Keyed() && Tracked() && fresh(runs.Values - old(runs.Values))
      ensures done ==> !ok && View() == old(View()) && writes == old(writes)
      ensures !done ==>
                var plan := Planned(cfg, old(View()), Logs(req, now));
                && ok == Written(inner.accepts, old(inner.out), old(inner.offered), plan.lines).2
                && (View(), writes) == Settled(cfg, plan, old(writes), now, ok)
    {
      if done { return false; }
      var pendings;
      ok, pendings := SortLogs(req, now);
      if ok {
        Finish(pendings, now);
      }
    }

    method ConsumeTraces(done: bool, req: Request<Span>, now: int) returns (ok: bool)
      requires Keyed() && Tracked()
      modifies this`runs, this`traceToRun, this`truncated, this`writes, runs.Values, inner
      ensures Keyed() && Tracked() && fresh(runs.Values - old(runs.Values))
      ensures done ==> !ok && View() == old(View()) && writes == old(writes)
      ensures !done ==>
                var plan := Planned(cfg, old(View()), Traces(req, now));
                && ok == Written(inner.accepts, old(inner.out), old(inner.offered), plan.lines).2
                && (View(), writes) == Settled(cfg, plan, old(writes), now, ok)
    {
      if done { return false; }
      ghost var before := View();
      PlannedTraces(cfg, before, req, now);
      LearnTraces(Entries(req));
      ok := RouteSpans(Entries(req), now);
    }

    /** One open run is flushed, from the sweep or from Shutdown. */
    method FlushOne(runID: string, reason: FlushReason)
      requires Keyed() && Tracked() && runID in runs
      modifies this`runs, this`traceToRun, this`truncated, this`writes, inner
      ensures Keyed() && Tracked() && runs == old(runs) - {runID}
      ensures View() == Flushed(old(View()), runID, reason)
      ensures writes == old(writes) + [FlushOpen(old(View()), runID, reason)]
    {
      FlushLocked(runs[runID], reason, []);
    }

    /** sweepIdle. The map is visited in an order of its own, `order` of the runs flushed. */
    method SweepIdle(now: int) returns (ghost order: seq<string>)
      requires Keyed() && Tracked()
      modifies this`runs, this`traceToRun, this`truncated, this`writes, inner
      ensures Keyed() && Tracked() && runs.Values <= old(runs.Values)
      ensures Legal(cfg, old(View()), Sweep(order, now))
      ensures (View(), writes) == Perform(cfg, old(View()), old(writes), Sweep(order, now))
    {
      order := [];
      ghost var before, out := View(), writes;
      var todo := runs.Keys;
      while todo != {}
        invariant Keyed() && Tracked() && runs.Values <= old(runs.Values)
        invariant Sweeping(cfg, before, out, now, order, todo, (View(), writes))
        decreases todo
      {
        var r :| r in todo;
        SweepingNext(cfg, before, out, now, order, todo, (View(), writes), r);
        todo := todo - {r};
        if now - runs[r].b.lastActivity >= cfg.idleTimeout {
          FlushOne(r, Idle);
          order := order + [r];
        }
      }
    }

    /** The open runs, as ranging over the map lists them. */
    method OpenIds() returns (ids: seq<string>)
      ensures Distinct(ids) && forall r :: r in ids <==> r in runs
    {
      ids := [];
      var todo := runs.Keys;
      while todo != {}
        invariant todo <= runs.Keys && Distinct(ids)
        invariant forall r :: r in ids <==> r in runs && r !in todo
        decreases todo
      {
        var r :| r in todo;
        todo := todo - {r};
        ids := ids + [r];
      }
    }

    /** The flushes of Shutdown. */
    method FlushOpenRuns(order: seq<string>)
      requires Keyed() && Tracked() && Distinct(order) && forall r <- order :: r in runs
      modifies this`runs, this`traceToRun, this`truncated, this`writes, inner
      ensures Keyed() && Tracked()
      ensures (View(), writes) == FlushAll(old(View()), old(writes), order, FlushReason.Shutdown)
    {
      ghost var before, out := View(), writes;
      assert order[..0] == [];
      for i := 0 to |order|
        invariant Keyed() && Tracked()
        invariant Closing(before, out, order, i, (View(), writes))
      {
        ClosingNext(before, out, order, i, (View(), writes));
        FlushOne(order[i], FlushReason.Shutdown);
      }
      assert order[..|order|] == order;
    }

    /** What Shutdown does under the lock. */
    method CloseRuns() returns (ghost order: seq<string>)
      requires Keyed() && Tracked()
      modifies this`runs, this`traceToRun, this`truncated, this`writes, inner
      ensures Keyed() && Tracked() && Legal(cfg, old(View()), Close(order)) && Ascending(order)
      ensures (View(), writes) == Perform(cfg, old(View()), old(writes), Close(order))
    {
      var ids := OpenIds();
      SortIdsAscending(ids);
      var sorted := SortIds(ids);
      AscendingDistinct(sorted);
      order := sorted;
      FlushOpenRuns(sorted);
    }

    /** Shutdown: the first call flushes every open run in the order of the ids, and
        no other call writes anything. */
    method Shutdown() returns (ghost order: seq<string>)
      requires Keyed() && Tracked()
      modifies this`runs, this`traceToRun, this`truncated, this`writes, this`stopped, inner
      ensures Keyed() && Tracked() && stopped
      ensures old(stopped) ==> View() == old(View()) && writes == old(writes) && inner.out == old(inner.out)
      ensures !old(stopped) ==>
                && Legal(cfg, old(View()), Close(order)) && Ascending(order) && runs == map[]
                && (View(), writes) == Perform(cfg, old(View()), old(writes), Close(order))
    {
      order := [];
      if !stopped {
        stopped := true;
        ghost var before, out := View(), writes;
        order := CloseRuns();
        CloseEmpties(cfg, before, out, order);
        assert Buffers().Keys == runs.Keys;
      }
    }
  }

  lemma PlannedTraces(c: Config, st: State, req: Request<Span>, now: int)
    ensures var es, index := Entries(req), Learned(st.traceToRun, Entries(req));
            Planned(c, st, Traces(req, now))
              == Plan(st.(traceToRun := index), SpansText(c.printer, Entries(Regrouped(KeptSpans(index, es)))), PendingSpans(index, es))
  {}

  lemma AscendingDistinct(s: seq<string>)
    requires Ascending(s)
    ensures Distinct(s)
  {
    forall i, j | 0 <= i < j < |s| ensures s[i] != s[j] {
      BeforeTotal(s[i], s[i]);
    }
  }

  /** hasResourceMetrics, hasResourceLogs and hasResourceSpans. */
  method HasRecords<T>(req: Request<T>) returns (has: bool)
    ensures has <==> Entries(req) != []
  {
    for i := 0 to |req|
      invariant Entries(req[..i]) == []
    {
      EntriesNext(req, i);
      var scopes := req[i].scopes;
      for j := 0 to |scopes|
        invariant ResourceEntries(req[i].resource, req[i].schemaUrl, scopes[..j]) == []
      {
        ResourceEntriesNext(req[i].resource, req[i].schemaUrl, scopes, j);
        if |scopes[j].records| > 0 {
          EntryHere(req, i, j);
          return true;
        }
      }
      assert scopes[..|scopes|] == scopes;
    }
    assert req[..|req|] == req;
    return false;
  }

  lemma EntryHere<T>(req: Request<T>, i: nat, j: nat)
    requires i < |req| && j < |req[i].scopes| && req[i].scopes[j].records != []
    ensures Entries(req) != []
  {
    EntriesNext(req, i);
    assert req == req[..i + 1] + req[i + 1..];
    EntriesAppend(req[..i + 1], req[i + 1..]);
    var scopes := req[i].scopes;
    ResourceEntriesNext(req[i].resource, req[i].schemaUrl, scopes, j);
    assert scopes == scopes[..j + 1] + scopes[j + 1..];
    ResourceEntriesAppend(req[i].resource, req[i].schemaUrl, scopes[..j + 1], scopes[j + 1..]);
    assert |ScopeEntries(req[i].resource, req[i].schemaUrl, scopes[j])| > 0;
  }

  lemma SingleSpanText(p: Printer, it: RunBlockItem)
    requires it.payload.SpanItem?
    ensures SpansText(p, [Entry(Key(None, "", None, ""), it.payload.span)]) == [ItemLine(p, it)]
  {
    var es := [Entry(Key(None, "", None, ""), it.payload.span)];
    assert es[1..] == [];
  }

  lemma SingleLogText(p: Printer, it: RunBlockItem)
    requires it.payload.LogItem?
    ensures LogsText(p, [Entry(Key(None, "", None, ""), it.payload.log)]) == [ItemLine(p, it)]
  {
    var es := [Entry(Key(None, "", None, ""), it.payload.log)];
    assert es[1..] == [];
  }

  lemma SingleMetricText(p: Printer, resource: Option<Resource>, it: RunBlockItem)
    requires it.payload.MetricItem? && ResourceAttributes(resource) == it.payload.resourceAttrs
    ensures MetricsText(p, [Entry(Key(resource, "", None, ""), BuildSyntheticMetric(it.payload.metricName, it.payload.point))])
         == [ItemLine(p, it)]
  {
    RenderItemIsLineMode(p, it);
    var es := [Entry(Key(resource, "", None, ""), BuildSyntheticMetric(it.payload.metricName, it.payload.point))];
    assert es[1..] == [];
    assert MetricLines(p, es[0].record, ResourceAttributes(es[0].key.resource)) == [ItemLine(p, it)];
    assert MetricsText(p, es[1..]) == [];
  }

  /** The state once the arriving item's buffer is open. */
  function Opened(c: Config, s: State, p: Pending, now: int): State {
    s.(runs := s.runs[p.runID := Arrive(c, s, p, now)])
  }

  /** The rest of a turn, from the open buffer on. */
  function Accept(c: Config, s: State, p: Pending): Result
    requires p.runID in s.runs
  {
    var b := s.runs[p.runID];
    var full := b.(items := b.items + [p.item]);
    if |b.items| >= c.maxItems then
      Result(Flushed(s, p.runID, Overflow), Some(Emission.Block(p.runID, b, [p.item], Overflow)), true)
    else if EndsRun(p.item) then
      Result(Flushed(s, p.runID, RootEnded), Some(Emission.Block(p.runID, full.(rootEnded := true), [], RootEnded)), false)
    else Result(s.(runs := s.runs[p.runID := full]), None, false)
  }

  lemma AcceptIsEnqueue(c: Config, s: State, p: Pending, now: int)
    requires p.runID !in s.truncated
    ensures Accept(c, Opened(c, s, p, now), p) == Enqueue(c, s, p, now)
  {}

  /** Flushing forgets what the buffer held. */
  lemma FlushedAgain(s: State, runID: string, b: Buffer, reason: FlushReason)
    ensures Flushed(s.(runs := s.runs[runID := b]), runID, reason) == Flushed(s, runID, reason)
  {}
}

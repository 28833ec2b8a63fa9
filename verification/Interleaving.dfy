/** RunBlockSink under any number of concurrent callers, the sweeper and Shutdown.

    A step is what one thread does between two points where it may lose the
    sink's lock: the first pass over the spans, one look-up in the trace index,
    one turn of the locked loop, one flush. Writes made without the lock (the
    bypass request, a streamed item) are steps of their own. Every order of
    steps is allowed, also some that the lock excludes, and clock readings are
    arbitrary, so what holds here in all reachable states holds under the lock as
    well; LockedSteps adds the lock and the clock, and what can happen is shown
    there. */
module Interleaving {
  import opened Basics
  import opened Otlp
  import opened LineFormat
  import opened RunBlockFormat
  import opened Regroup
  import opened Bucketing
  import opened RunBlockState
  import opened History

  /** Where a Consume call stands. */
  datatype Thread =
    | Sorting(rest: seq<Entry<Span>>, kept: seq<Entry<Span>>, pendings: seq<Pending>)
    | Forwarding(lines: seq<string>, pendings: seq<Pending>)
    | Waiting(pendings: seq<Pending>)
    | Enqueuing(pendings: seq<Pending>, now: int)
    | Streaming(runID: string, item: RunBlockItem, pendings: seq<Pending>, now: int)

  datatype Arrival = Arrival(runID: string, item: RunBlockItem, buffered: bool)

  /** The shared state and the writes so far; the rest is history: the items in
      the order the lock admitted them, the lines line mode would have written
      for the requests begun, the lines given up by failed requests, and the
      runs those requests were for. */
  datatype Sys = Sys(
    st: State, out: seq<Emission>, threads: map<nat, Thread>,
    arrivals: seq<Arrival>, submitted: multiset<string>, lost: multiset<string>, failed: set<string>)

  const INITIAL: Sys := Sys(EMPTY, [], map[], [], multiset{}, multiset{}, {})

  datatype Action =
    | BeginMetrics(t: nat, metrics: Request<Metric>)
    | BeginLogs(t: nat, logs: Request<LogRecord>)
    | BeginTraces(t: nat, traces: Request<Span>)
    | SortSpan(t: nat)
    | EndSorting(t: nat)
    | Forward(t: nat)
    | ForwardFails(t: nat, written: nat)
    | Acquire(t: nat, now: int)
    | TakeItem(t: nat)
    | StreamItem(t: nat)
    | Return(t: nat)
    | SweepRun(runID: string, now: int)
    | ShutdownRun(runID: string)

  predicate Enabled(c: Config, s: Sys, a: Action) {
    match a
    case BeginMetrics(t, _) => t !in s.threads
    case BeginLogs(t, _) => t !in s.threads
    case BeginTraces(t, _) => t !in s.threads
    case SortSpan(t) => t in s.threads && s.threads[t].Sorting? && s.threads[t].rest != []
    case EndSorting(t) => t in s.threads && s.threads[t].Sorting? && s.threads[t].rest == []
    case Forward(t) => t in s.threads && s.threads[t].Forwarding?
    case ForwardFails(t, k) => t in s.threads && s.threads[t].Forwarding? && k < |s.threads[t].lines|
    case Acquire(t, _) => t in s.threads && s.threads[t].Waiting? && s.threads[t].pendings != []
    case TakeItem(t) => t in s.threads && s.threads[t].Enqueuing? && s.threads[t].pendings != []
    case StreamItem(t) => t in s.threads && s.threads[t].Streaming?
    case Return(t) => t in s.threads && (s.threads[t].Waiting? || s.threads[t].Enqueuing?) && s.threads[t].pendings == []
    case SweepRun(r, now) => r in s.st.runs && now - s.st.runs[r].lastActivity >= c.idleTimeout
    case ShutdownRun(r) => r in s.st.runs
  }

  function RunsOf(pendings: seq<Pending>): set<string> {
    set p <- pendings :: p.runID
  }

  function TakeNext(c: Config, s: Sys, t: nat): Sys
    requires Enabled(c, s, TakeItem(t))
  {
    var th := s.threads[t];
    var p, rest := th.pendings[0], th.pendings[1..];
    var r := Enqueue(c, s.st, p, th.now);
    s.(st := r.state, out := Write(s.out, r.block),
       threads := s.threads[t := if r.stream then Streaming(p.runID, p.item, rest, th.now) else Enqueuing(rest, th.now)],
       arrivals := s.arrivals + [Arrival(p.runID, p.item, !r.stream)])
  }

  function FlushRun(c: Config, s: Sys, r: string, reason: FlushReason): Sys
    requires r in s.st.runs
  {
    s.(st := Flushed(s.st, r, reason), out := s.out + [FlushOpen(s.st, r, reason)])
  }

  function Passed(lines: seq<string>): Option<Emission> {
    if lines == [] then None else Some(Passthrough(lines))
  }

  function Next(c: Config, s: Sys, a: Action): Sys
    requires Enabled(c, s, a)
  {
    match a
    case BeginMetrics(t, req) =>
      var es := Entries(req);
      s.(threads := s.threads[t := Forwarding(MetricsText(c.printer, Entries(Regrouped(KeptMetrics(es)))), PendingMetrics(es))],
         submitted := s.submitted + Bag(MetricsText(c.printer, es)))
    case BeginLogs(t, req) =>
      var es := Entries(req);
      s.(threads := s.threads[t := Forwarding(LogsText(c.printer, Entries(Regrouped(KeptLogs(es)))), PendingLogs(es))],
         submitted := s.submitted + Bag(LogsText(c.printer, es)))
    case BeginTraces(t, req) =>
      var es := Entries(req);
      s.(st := s.st.(traceToRun := Learned(s.st.traceToRun, es)),
         threads := s.threads[t := Sorting(es, [], [])],
         submitted := s.submitted + Bag(SpansText(c.printer, es)))
    case SortSpan(t) =>
      var th := s.threads[t];
      var e := th.rest[0];
      var run := SpanRun(s.st.traceToRun, e.record);
      s.(threads := s.threads[t :=
           if run == "" then Sorting(th.rest[1..], th.kept + [e], th.pendings)
           else Sorting(th.rest[1..], th.kept, th.pendings + [SpanPending(s.st.traceToRun, e.record)])])
    case EndSorting(t) =>
      var th := s.threads[t];
      s.(threads := s.threads[t := Forwarding(SpansText(c.printer, Entries(Regrouped(th.kept))), th.pendings)])
    case Forward(t) =>
      s.(out := Write(s.out, Passed(s.threads[t].lines)), threads := s.threads[t := Waiting(s.threads[t].pendings)])
    case ForwardFails(t, k) =>
      var th := s.threads[t];
      s.(out := Write(s.out, Passed(th.lines[..k])), threads := s.threads - {t},
         lost := s.lost + (Bag(th.lines[k..]) + PendingBag(c.printer, th.pendings)),
         failed := s.failed + RunsOf(th.pendings))
    case Acquire(t, now) => s.(threads := s.threads[t := Enqueuing(s.threads[t].pendings, now)])
    case TakeItem(t) => TakeNext(c, s, t)
    case StreamItem(t) =>
      var th := s.threads[t];
      s.(out := s.out + [Streamed(th.runID, th.item)],
         threads := s.threads[t := Enqueuing(th.pendings, th.now)])
    case Return(t) => s.(threads := s.threads - {t})
    case SweepRun(r, _) => FlushRun(c, s, r, Idle)
    case ShutdownRun(r) => FlushRun(c, s, r, Shutdown)
  }

  /** The state these steps lead to, if each is possible in its turn. */
  function Run(c: Config, s: Sys, actions: seq<Action>): Option<Sys>
    decreases |actions|
  {
    if actions == [] then Some(s)
    else if Enabled(c, s, actions[0]) then Run(c, Next(c, s, actions[0]), actions[1..])
    else None
  }

  /** `s` is reached from the initial state. */
  ghost predicate Reachable(c: Config, s: Sys) {
    exists actions :: Run(c, INITIAL, actions) == Some(s)
  }

  /** A step and then a run. */
  lemma RunCons(c: Config, s: Sys, a: Action, rest: seq<Action>)
    requires Enabled(c, s, a)
    ensures Run(c, s, [a] + rest) == Run(c, Next(c, s, a), rest)
  {
    assert ([a] + rest)[1..] == rest;
  }

  lemma {:induction false} RunAppend(c: Config, s: Sys, a: seq<Action>, b: seq<Action>)
    requires Run(c, s, a).Some?
    ensures Run(c, s, a + b) == Run(c, Run(c, s, a).value, b)
    decreases |a|
  {
    if a == [] {
      assert a + b == b;
    } else {
      Others(a, b);
      RunAppend(c, Next(c, s, a[0]), a[1..], b);
      assert Run(c, s, a + b) == Run(c, Next(c, s, a[0]), a[1..] + b);
    }
  }

  // ---- Safety of state and output ----

  /** The lock invariant, well-formed writes, and truncation in force for
      whoever is about to stream. */
  ghost predicate Safe(c: Config, s: Sys) {
    && StateOk(c, s.st)
    && WritesOk(c, s.out)
    && s.st.truncated == TruncatedIn(s.out)
    && forall t <- s.threads :: ThreadOk(s.threads[t], s.st.truncated)
  }

  ghost predicate ThreadOk(th: Thread, truncated: set<string>) {
    && (th.Forwarding? ==> AllItems(th.lines))
    && (th.Streaming? ==> th.runID in truncated)
  }

  lemma TakeItemSafe(c: Config, s: Sys, t: nat)
    requires Configured(c) && Safe(c, s) && Enabled(c, s, TakeItem(t))
    ensures Safe(c, TakeNext(c, s, t))
  {
    var r := Enqueue(c, s.st, s.threads[t].pendings[0], s.threads[t].now);
    EnqueueOk(c, s.st, s.threads[t].pendings[0], s.threads[t].now);
    EnqueueFollows(c, s.st, s.threads[t].pendings[0], s.threads[t].now);
    TakeItemThreads(c, s, t);
    if r.block.Some? {
      WriteSafe(c, s, TakeNext(c, s, t), r.block.value);
    }
  }

  lemma TakeItemThreads(c: Config, s: Sys, t: nat)
    requires Safe(c, s) && Enabled(c, s, TakeItem(t))
    ensures var s' := TakeNext(c, s, t); forall u <- s'.threads :: ThreadOk(s'.threads[u], s'.st.truncated)
  {
    EnqueueFollows(c, s.st, s.threads[t].pendings[0], s.threads[t].now);
  }

  /** A write that fits what is on the output. */
  lemma WriteSafe(c: Config, s: Sys, s': Sys, e: Emission)
    requires Configured(c) && Safe(c, s) && s'.out == s.out + [e] && EmissionOk(c, e) && Follows(e, s.st.truncated)
    requires StateOk(c, s'.st) && s'.st.truncated == s.st.truncated + TruncatedBy(e)
    requires forall t <- s'.threads :: ThreadOk(s'.threads[t], s'.st.truncated)
    ensures Safe(c, s')
  {}

  lemma FlushSafe(c: Config, s: Sys, r: string, reason: FlushReason)
    requires Configured(c) && Safe(c, s) && r in s.st.runs && (reason.Idle? || reason.Shutdown?)
    ensures Safe(c, FlushRun(c, s, r, reason))
  {
    FlushOk(c, s.st, r, reason);
    FlushFollows(c, s.st, r, reason, r);
    WriteSafe(c, s, FlushRun(c, s, r, reason), FlushOpen(s.st, r, reason));
  }

  lemma NextSafe(c: Config, s: Sys, a: Action)
    requires Configured(c) && Safe(c, s) && Enabled(c, s, a)
    ensures Safe(c, Next(c, s, a))
  {
    match a
    case BeginMetrics(t, req) => MetricsTextItems(c.printer, Entries(Regrouped(KeptMetrics(Entries(req)))));
    case BeginLogs(t, req) => LogsTextItems(c.printer, Entries(Regrouped(KeptLogs(Entries(req)))));
    case EndSorting(t) => SpansTextItems(c.printer, Entries(Regrouped(s.threads[t].kept)));
    case TakeItem(t) => TakeItemSafe(c, s, t);
    case Forward(t) => ForwardSafe(c, s, t);
    case ForwardFails(t, k) => ForwardFailsSafe(c, s, t, k);
    case StreamItem(t) =>
      var th := s.threads[t];
      WriteSafe(c, s, Next(c, s, a), Streamed(th.runID, th.item));
    case SweepRun(r, _) => FlushSafe(c, s, r, Idle);
    case ShutdownRun(r) => FlushSafe(c, s, r, Shutdown);
    case _ =>
  }

  lemma ForwardSafe(c: Config, s: Sys, t: nat)
    requires Configured(c) && Safe(c, s) && Enabled(c, s, Forward(t))
    ensures Safe(c, Next(c, s, Forward(t)))
  {
    assert ThreadOk(s.threads[t], s.st.truncated);
    if s.threads[t].lines != [] { WriteSafe(c, s, Next(c, s, Forward(t)), Passthrough(s.threads[t].lines)); }
  }

  lemma ForwardFailsSafe(c: Config, s: Sys, t: nat, k: nat)
    requires Configured(c) && Safe(c, s) && Enabled(c, s, ForwardFails(t, k))
    ensures Safe(c, Next(c, s, ForwardFails(t, k)))
  {
    assert ThreadOk(s.threads[t], s.st.truncated);
    if k > 0 { WriteSafe(c, s, Next(c, s, ForwardFails(t, k)), Passthrough(s.threads[t].lines[..k])); }
  }

  // ---- Per-run history ----

  /** The items of a run that were buffered, in the order the lock admitted them. */
  function Accepted(arrivals: seq<Arrival>, runID: string): seq<RunBlockItem> {
    if arrivals == [] then []
    else
      var a := arrivals[|arrivals| - 1];
      Accepted(arrivals[..|arrivals| - 1], runID) + (if a.runID == runID && a.buffered then [a.item] else [])
  }

  /** A run's accepted items are its blocks, one after the other, and then its open buffer. */
  ghost predicate HistoryOf(s: Sys, runID: string) {
    Accepted(s.arrivals, runID) == BlockItems(s.out, runID) + OpenItems(s.st, runID)
  }

  lemma Rejoin<T>(accepted: seq<T>, blocks: seq<T>, held: seq<T>, written: seq<T>, left: seq<T>, arrived: seq<T>)
    requires accepted == blocks + held && written + left == held + arrived
    ensures accepted + arrived == (blocks + written) + left
  {
    assert blocks + (held + arrived) == (blocks + held) + arrived;
  }

  lemma TakeItemHistory(c: Config, s: Sys, t: nat, runID: string)
    requires Configured(c) && HistoryOf(s, runID) && Enabled(c, s, TakeItem(t))
    ensures HistoryOf(TakeNext(c, s, t), runID)
  {
    var p, now := s.threads[t].pendings[0], s.threads[t].now;
    var r := Enqueue(c, s.st, p, now);
    var written := if r.block.Some? then BlockPart(r.block.value, runID) else [];
    var arrived := if runID == p.runID && !r.stream then [p.item] else [];
    EnqueueAppends(c, s.st, p, now, runID);
    Rejoin(Accepted(s.arrivals, runID), BlockItems(s.out, runID), OpenItems(s.st, runID), written, OpenItems(r.state, runID), arrived);
    AcceptedNext(s.arrivals, Arrival(p.runID, p.item, !r.stream), runID);
    WrittenNext(s.out, r.block, runID);
  }

  lemma AcceptedNext(arrivals: seq<Arrival>, a: Arrival, runID: string)
    ensures Accepted(arrivals + [a], runID)
         == Accepted(arrivals, runID) + (if runID == a.runID && a.buffered then [a.item] else [])
  {}

  lemma WrittenNext(out: seq<Emission>, e: Option<Emission>, runID: string)
    ensures BlockItems(Write(out, e), runID) == BlockItems(out, runID) + (if e.Some? then BlockPart(e.value, runID) else [])
  {}

  /** A step that admits no item and writes at most one block. */
  lemma QuietHistory(s: Sys, s': Sys, e: Option<Emission>, runID: string)
    requires HistoryOf(s, runID) && s'.arrivals == s.arrivals && s'.out == Write(s.out, e)
    requires (if e.Some? then BlockPart(e.value, runID) else []) + OpenItems(s'.st, runID) == OpenItems(s.st, runID)
    ensures HistoryOf(s', runID)
  {
    var written := if e.Some? then BlockPart(e.value, runID) else [];
    WrittenNext(s.out, e, runID);
    Associative(BlockItems(s.out, runID), written, OpenItems(s'.st, runID));
  }

  lemma NextHistory(c: Config, s: Sys, a: Action, runID: string)
    requires Configured(c) && Safe(c, s) && HistoryOf(s, runID) && Enabled(c, s, a)
    ensures HistoryOf(Next(c, s, a), runID)
  {
    match a
    case TakeItem(t) => TakeItemHistory(c, s, t, runID);
    case Forward(t) => QuietHistory(s, Next(c, s, a), Passed(s.threads[t].lines), runID);
    case ForwardFails(t, k) => QuietHistory(s, Next(c, s, a), Passed(s.threads[t].lines[..k]), runID);
    case StreamItem(t) =>
      var th := s.threads[t];
      QuietHistory(s, Next(c, s, a), Some(Streamed(th.runID, th.item)), runID);
    case SweepRun(r, _) =>
      FlushFollows(c, s.st, r, Idle, runID);
      QuietHistory(s, Next(c, s, a), Some(FlushOpen(s.st, r, Idle)), runID);
    case ShutdownRun(r) =>
      FlushFollows(c, s.st, r, Shutdown, runID);
      QuietHistory(s, Next(c, s, a), Some(FlushOpen(s.st, r, Shutdown)), runID);
    case _ =>
  }

  lemma {:induction false} RunSafe(c: Config, s: Sys, actions: seq<Action>)
    requires Configured(c) && Safe(c, s) && Run(c, s, actions).Some?
    ensures Safe(c, Run(c, s, actions).value)
    decreases |actions|
  {
    if actions != [] {
      NextSafe(c, s, actions[0]);
      RunSafe(c, Next(c, s, actions[0]), actions[1..]);
    }
  }

  lemma {:induction false} RunHistory(c: Config, s: Sys, actions: seq<Action>, runID: string)
    requires Configured(c) && Safe(c, s) && HistoryOf(s, runID) && Run(c, s, actions).Some?
    ensures HistoryOf(Run(c, s, actions).value, runID)
    decreases |actions|
  {
    if actions != [] {
      NextSafe(c, s, actions[0]);
      NextHistory(c, s, actions[0], runID);
      RunHistory(c, Next(c, s, actions[0]), actions[1..], runID);
    }
  }
}

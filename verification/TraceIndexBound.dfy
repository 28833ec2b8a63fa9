/** Where the entries of the trace index can come from, in every reachable state. */
module TraceIndexBound {
  import opened Basics
  import opened Otlp
  import opened Bucketing
  import opened RunBlockState
  import opened Interleaving

  function OwnRuns(es: seq<Entry<Span>>): set<string> {
    set e <- es :: LookupAttr(e.record.attributes, "run.id")
  }

  /** The runs a request in flight has yet to deliver items to. */
  function Awaited(th: Thread): set<string> {
    match th
    case Sorting(rest, _, pendings) => OwnRuns(rest) + RunsOf(pendings)
    case Forwarding(_, pendings) => RunsOf(pendings)
    case Waiting(pendings) => RunsOf(pendings)
    case Enqueuing(pendings, _) => RunsOf(pendings)
    case Streaming(_, _, pendings, _) => RunsOf(pendings)
  }

  ghost predicate InFlightFor(threads: map<nat, Thread>, run: string) {
    exists t <- threads :: run in Awaited(threads[t])
  }

  /** The run is open, truncated, pending in a request in flight, or was given up
      by a request whose bypass write failed. */
  ghost predicate Accounted(s: Sys, run: string) {
    run in s.st.runs || run in s.st.truncated || run in s.failed || InFlightFor(s.threads, run)
  }

  ghost predicate IndexOk(s: Sys) {
    forall trace <- s.st.traceToRun :: Accounted(s, s.st.traceToRun[trace])
  }

  lemma {:induction false} LearnedValues(index: TraceIndex, es: seq<Entry<Span>>, trace: string)
    requires trace in Learned(index, es)
    ensures (trace in index && Learned(index, es)[trace] == index[trace]) || Learned(index, es)[trace] in OwnRuns(es)
  {
    if es != [] {
      var init, last := es[..|es| - 1], es[|es| - 1];
      assert last in es && forall e <- init :: e in es;
      if trace in Learned(index, init) { LearnedValues(index, init, trace); }
    }
  }

  /** Other threads keep waiting for what they waited for. */
  lemma StillInFlight(threads: map<nat, Thread>, threads': map<nat, Thread>, t: nat, run: string)
    requires InFlightFor(threads, run)
    requires forall u <- threads :: u != t ==> u in threads' && threads'[u] == threads[u]
    requires t in threads && run in Awaited(threads[t]) ==> t in threads' && run in Awaited(threads'[t])
    ensures InFlightFor(threads', run)
  {}

  /** A step that leaves the index alone and gives up no run. */
  lemma KeepsIndex(s: Sys, s': Sys, t: nat)
    requires IndexOk(s) && s'.st == s.st && s.failed <= s'.failed
    requires forall u <- s.threads :: u != t ==> u in s'.threads && s'.threads[u] == s.threads[u]
    requires t in s.threads ==> forall r <- Awaited(s.threads[t]) ::
               r in s'.failed || r in s.st.runs || r in s.st.truncated || (t in s'.threads && r in Awaited(s'.threads[t]))
    ensures IndexOk(s')
  {}

  lemma BeginTracesIndex(c: Config, s: Sys, t: nat, req: Request<Span>)
    requires Configured(c) && IndexOk(s) && Enabled(c, s, BeginTraces(t, req))
    ensures IndexOk(Next(c, s, BeginTraces(t, req)))
  {
    var s', es := Next(c, s, BeginTraces(t, req)), Entries(req);
    forall trace <- s'.st.traceToRun ensures Accounted(s', s'.st.traceToRun[trace]) {
      var run := s'.st.traceToRun[trace];
      LearnedValues(s.st.traceToRun, es, trace);
      if run in OwnRuns(es) {
        assert run in Awaited(s'.threads[t]);
      } else {
        assert Accounted(s, run);
        if InFlightFor(s.threads, run) { StillInFlight(s.threads, s'.threads, t, run); }
      }
    }
  }

  lemma SortSpanAwaits(c: Config, s: Sys, t: nat)
    requires Configured(c) && Enabled(c, s, SortSpan(t))
    ensures Awaited(s.threads[t]) - {""} <= Awaited(Next(c, s, SortSpan(t)).threads[t])
  {}

  /** No trace is mapped to the empty run. */
  ghost predicate NamesRuns(index: TraceIndex) {
    forall trace <- index :: index[trace] != ""
  }

  lemma {:induction false} LearnedNamesRuns(index: TraceIndex, es: seq<Entry<Span>>)
    requires NamesRuns(index)
    ensures NamesRuns(Learned(index, es))
  {
    if es != [] { LearnedNamesRuns(index, es[..|es| - 1]); }
  }

  lemma NextNamesRuns(c: Config, s: Sys, a: Action)
    requires Configured(c) && NamesRuns(s.st.traceToRun) && Enabled(c, s, a)
    ensures NamesRuns(Next(c, s, a).st.traceToRun)
  {
    if a.BeginTraces? { LearnedNamesRuns(s.st.traceToRun, Entries(a.traces)); }
  }

  lemma SortSpanIndex(c: Config, s: Sys, t: nat)
    requires Configured(c) && IndexOk(s) && NamesRuns(s.st.traceToRun) && Enabled(c, s, SortSpan(t))
    ensures IndexOk(Next(c, s, SortSpan(t)))
  {
    var s' := Next(c, s, SortSpan(t));
    SortSpanAwaits(c, s, t);
    forall trace <- s'.st.traceToRun ensures Accounted(s', s'.st.traceToRun[trace]) {
      var run := s.st.traceToRun[trace];
      assert Accounted(s, run);
      if InFlightFor(s.threads, run) { StillInFlight(s.threads, s'.threads, t, run); }
    }
  }

  /** A flush drops every entry of the run it removes and no other. */
  lemma FlushIndex(c: Config, s: Sys, r: string, reason: FlushReason)
    requires Configured(c) && IndexOk(s) && r in s.st.runs
    ensures IndexOk(FlushRun(c, s, r, reason))
  {}

  /** After its turn an item's run is open or truncated, or out of the index. */
  lemma EnqueueIndex(c: Config, st: State, p: Pending, now: int, trace: string)
    requires Configured(c)
    ensures var st' := Enqueue(c, st, p, now).state;
            trace in st'.traceToRun ==>
              && trace in st.traceToRun && st'.traceToRun[trace] == st.traceToRun[trace]
              && (st.traceToRun[trace] == p.runID || st.traceToRun[trace] in st.runs ==>
                    st.traceToRun[trace] in st'.runs || st.traceToRun[trace] in st'.truncated)
              && st.truncated <= st'.truncated
  {}

  lemma TakeItemIndex(c: Config, s: Sys, t: nat)
    requires Configured(c) && IndexOk(s) && Enabled(c, s, TakeItem(t))
    ensures IndexOk(TakeNext(c, s, t))
  {
    var s' := TakeNext(c, s, t);
    var th := s.threads[t];
    forall trace <- s'.st.traceToRun ensures Accounted(s', s'.st.traceToRun[trace]) {
      EnqueueIndex(c, s.st, th.pendings[0], th.now, trace);
      var run := s.st.traceToRun[trace];
      assert Accounted(s, run);
      if !(run in s'.st.runs || run in s'.st.truncated || run in s'.failed) {
        if run in Awaited(th) {
          var p :| p in th.pendings && p.runID == run;
          assert p in th.pendings[1..];
        }
        StillInFlight(s.threads, s'.threads, t, run);
      }
    }
  }

  lemma NextIndex(c: Config, s: Sys, a: Action)
    requires Configured(c) && IndexOk(s) && NamesRuns(s.st.traceToRun) && Enabled(c, s, a)
    ensures IndexOk(Next(c, s, a))
  {
    match a
    case BeginMetrics(t, _) => KeepsIndex(s, Next(c, s, a), t);
    case BeginLogs(t, _) => KeepsIndex(s, Next(c, s, a), t);
    case BeginTraces(t, req) => BeginTracesIndex(c, s, t, req);
    case SortSpan(t) => SortSpanIndex(c, s, t);
    case EndSorting(t) => KeepsIndex(s, Next(c, s, a), t);
    case Forward(t) => KeepsIndex(s, Next(c, s, a), t);
    case Acquire(t, _) => KeepsIndex(s, Next(c, s, a), t);
    case ForwardFails(t, _) => KeepsIndex(s, Next(c, s, a), t);
    case TakeItem(t) => TakeItemIndex(c, s, t);
    case StreamItem(t) => KeepsIndex(s, Next(c, s, a), t);
    case Return(t) => KeepsIndex(s, Next(c, s, a), t);
    case SweepRun(r, _) => FlushIndex(c, s, r, Idle);
    case ShutdownRun(r) => FlushIndex(c, s, r, Shutdown);
  }

  lemma {:induction false} RunIndex(c: Config, s: Sys, actions: seq<Action>)
    requires Configured(c) && IndexOk(s) && NamesRuns(s.st.traceToRun) && Run(c, s, actions).Some?
    ensures IndexOk(Run(c, s, actions).value) && NamesRuns(Run(c, s, actions).value.st.traceToRun)
    decreases |actions|
  {
    if actions != [] {
      NextIndex(c, s, actions[0]);
      NextNamesRuns(c, s, actions[0]);
      RunIndex(c, Next(c, s, actions[0]), actions[1..]);
    }
  }

  /** In every reachable state the run of every index entry is open, truncated,
      still awaited by a request in flight, or was given up by a request whose
      bypass write failed. */
  lemma IndexBound(c: Config, s: Sys, trace: string)
    requires Configured(c) && Reachable(c, s) && trace in s.st.traceToRun
    ensures Accounted(s, s.st.traceToRun[trace])
  {
    var actions :| Run(c, INITIAL, actions) == Some(s);
    RunIndex(c, INITIAL, actions);
  }
}

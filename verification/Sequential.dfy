/** Calls made one after the other: what each does to the state and the output,
    and that it is a run of the interleaving model. */
module Sequential {
  import opened Basics
  import opened Otlp
  import opened LineFormat
  import opened Regroup
  import opened Bucketing
  import opened RunBlockState
  import opened History
  import opened Interleaving
  import opened Conservation

  /** The locked loop over the pending items, streaming what is due. */
  function HandleAll(c: Config, st: State, out: seq<Emission>, pendings: seq<Pending>, now: int): (State, seq<Emission>)
    decreases |pendings|
  {
    if pendings == [] then (st, out)
    else
      var r := Enqueue(c, st, pendings[0], now);
      HandleAll(c, r.state, Handled(out, r, pendings[0]), pendings[1..], now)
  }

  function Handled(out: seq<Emission>, r: Result, p: Pending): seq<Emission> {
    if r.stream then Write(out, r.block) + [Streamed(p.runID, p.item)] else Write(out, r.block)
  }

  /** Flushing these runs in this order. */
  function FlushAll(st: State, out: seq<Emission>, order: seq<string>, reason: FlushReason): (State, seq<Emission>)
    requires Distinct(order) && forall r <- order :: r in st.runs
    decreases |order|
  {
    if order == [] then (st, out)
    else FlushAll(Flushed(st, order[0], reason), out + [FlushOpen(st, order[0], reason)], order[1..], reason)
  }

  ghost predicate Distinct(order: seq<string>) {
    forall i, j :: 0 <= i < j < |order| ==> order[i] != order[j]
  }

  /** The runs a sweep at this time is due to flush. */
  function IdleRuns(c: Config, st: State, now: int): set<string> {
    set r <- st.runs | now - st.runs[r].lastActivity >= c.idleTimeout
  }

  datatype Call =
    | Metrics(metrics: Request<Metric>, now: int)
    | Logs(logs: Request<LogRecord>, now: int)
    | Traces(traces: Request<Span>, now: int)
    | Sweep(order: seq<string>, now: int)
    | Close(order: seq<string>)
    /** A Consume call whose bypass write fails with `cut` lines out. */
    | Failed(call: Call, cut: nat)

  predicate Consumes(call: Call) {
    call.Metrics? || call.Logs? || call.Traces?
  }

  /** A sweep visits the idle runs, Shutdown all open runs, each once. */
  ghost predicate Legal(c: Config, st: State, call: Call) {
    match call
    case Sweep(order, now) => Distinct(order) && forall r :: r in order <==> r in IdleRuns(c, st, now)
    case Close(order) => Distinct(order) && forall r :: r in order <==> r in st.runs
    case Failed(inner, cut) => Consumes(inner) && cut < |Planned(c, st, inner).lines|
    case _ => true
  }

  /** What a Consume call has settled when it comes to the locked loop: the state
      after the first pass, the lines of the bypass request, the items that have
      a run. */
  datatype Plan = Plan(state: State, lines: seq<string>, pendings: seq<Pending>)

  /** What the second pass comes to, with this index. */
  function SpanPlan(c: Config, st: State, es: seq<Entry<Span>>): Plan {
    var index := st.traceToRun;
    Plan(st, SpansText(c.printer, Entries(Regrouped(KeptSpans(index, es)))), PendingSpans(index, es))
  }

  function Planned(c: Config, st: State, call: Call): Plan
    requires Consumes(call)
  {
    match call
    case Metrics(req, _) =>
      var es := Entries(req);
      Plan(st, MetricsText(c.printer, Entries(Regrouped(KeptMetrics(es)))), PendingMetrics(es))
    case Logs(req, _) =>
      var es := Entries(req);
      Plan(st, LogsText(c.printer, Entries(Regrouped(KeptLogs(es)))), PendingLogs(es))
    case Traces(req, _) => SpanPlan(c, st.(traceToRun := Learned(st.traceToRun, Entries(req))), Entries(req))
  }

  function Perform(c: Config, st: State, out: seq<Emission>, call: Call): (State, seq<Emission>)
    requires Legal(c, st, call)
  {
    match call
    case Sweep(order, _) => FlushAll(st, out, order, Idle)
    case Close(order) => FlushAll(st, out, order, Shutdown)
    case Failed(inner, cut) =>
      var plan := Planned(c, st, inner);
      (plan.state, Write(out, Passed(plan.lines[..cut])))
    case _ => Settled(c, Planned(c, st, call), out, call.now, true)
  }

  /** The rest of a Consume call; when the bypass write fails (`ok` is false) the
      pending items are given up. */
  function Settled(c: Config, plan: Plan, out: seq<Emission>, now: int, ok: bool): (State, seq<Emission>) {
    var out' := Write(out, Passed(plan.lines));
    if ok then HandleAll(c, plan.state, out', plan.pendings, now) else (plan.state, out')
  }

  /** What StdoutSink alone writes for the call. */
  function LineMode(c: Config, call: Call): seq<string> {
    match call
    case Metrics(req, _) => MetricsText(c.printer, Entries(req))
    case Logs(req, _) => LogsText(c.printer, Entries(req))
    case Traces(req, _) => SpansText(c.printer, Entries(req))
    case Failed(inner, _) => LineMode(c, inner)
    case _ => []
  }

  // ---- A call is a run ----

  /** This state and output, no call in flight, these lines submitted. */
  ghost predicate Ended(s: Sys, after: (State, seq<Emission>), submitted: multiset<string>) {
    s.st == after.0 && s.out == after.1 && s.threads == map[] && s.submitted == submitted
  }

  /** And nothing lost on the way. */
  ghost predicate Settles(s: Sys, s': Sys, after: (State, seq<Emission>), submitted: multiset<string>) {
    Ended(s', after, submitted) && s'.lost == s.lost && s'.failed == s.failed
  }

  /** No bypass write fails. */
  predicate Lossless(calls: seq<Call>) {
    forall call <- calls :: !call.Failed?
  }

  lemma {:induction false} HandleAllRuns(c: Config, s: Sys, t: nat) returns (actions: seq<Action>)
    requires t in s.threads && s.threads == map[t := s.threads[t]] && s.threads[t].Enqueuing?
    ensures var th := s.threads[t];
            Run(c, s, actions).Some?
              && Settles(s, Run(c, s, actions).value, HandleAll(c, s.st, s.out, th.pendings, th.now), s.submitted)
    decreases |s.threads[t].pendings|
  {
    var th := s.threads[t];
    if th.pendings == [] {
      actions := [Return(t)];
      assert s.threads - {t} == map[];
      assert actions[1..] == [];
    } else {
      var s1 := TakeNext(c, s, t);
      var r := Enqueue(c, s.st, th.pendings[0], th.now);
      if r.stream {
        assert s1.threads == map[t := s1.threads[t]];
        var s2 := Next(c, s1, StreamItem(t));
        assert s2.threads == map[t := s2.threads[t]];
        var rest := HandleAllRuns(c, s2, t);
        RunCons(c, s1, StreamItem(t), rest);
        RunCons(c, s, TakeItem(t), [StreamItem(t)] + rest);
        actions := [TakeItem(t)] + ([StreamItem(t)] + rest);
      } else {
        assert s1.threads == map[t := s1.threads[t]];
        var rest := HandleAllRuns(c, s1, t);
        RunCons(c, s, TakeItem(t), rest);
        actions := [TakeItem(t)] + rest;
      }
    }
  }

  /** The call alone in flight, ready to forward its bypass request. */
  ghost predicate Ready(c: Config, s: Sys, s': Sys, plan: Plan, submitted: multiset<string>) {
    s' == s.(st := plan.state, threads := map[0 := Forwarding(plan.lines, plan.pendings)], submitted := submitted)
  }

  lemma WaitingRuns(c: Config, s: Sys, pendings: seq<Pending>, now: int) returns (actions: seq<Action>)
    requires s.threads == map[0 := Waiting(pendings)]
    ensures Run(c, s, actions).Some?
      && Settles(s, Run(c, s, actions).value, HandleAll(c, s.st, s.out, pendings, now), s.submitted)
  {
    if pendings == [] {
      actions := [Return(0)];
      assert s.threads - {0} == map[];
      assert actions[1..] == [];
    } else {
      var s1 := Next(c, s, Acquire(0, now));
      assert s1.threads == map[0 := s1.threads[0]];
      var rest := HandleAllRuns(c, s1, 0);
      RunCons(c, s, Acquire(0, now), rest);
      actions := [Acquire(0, now)] + rest;
    }
  }

  /** From the forwarding of the bypass request on. */
  lemma ForwardRuns(c: Config, s: Sys, plan: Plan, now: int) returns (actions: seq<Action>)
    requires s.st == plan.state && s.threads == map[0 := Forwarding(plan.lines, plan.pendings)]
    ensures Run(c, s, actions).Some?
      && Settles(s, Run(c, s, actions).value, Settled(c, plan, s.out, now, true), s.submitted)
  {
    var s1 := Next(c, s, Forward(0));
    assert s1.threads == map[0 := Waiting(plan.pendings)];
    var rest := WaitingRuns(c, s1, plan.pendings, now);
    RunCons(c, s, Forward(0), rest);
    actions := [Forward(0)] + rest;
  }

  /** The bypass write fails. */
  lemma FailureRuns(c: Config, s: Sys, plan: Plan, cut: nat)
    requires s.st == plan.state && s.threads == map[0 := Forwarding(plan.lines, plan.pendings)] && cut < |plan.lines|
    ensures Run(c, s, [ForwardFails(0, cut)]).Some?
    ensures Ended(Run(c, s, [ForwardFails(0, cut)]).value, (plan.state, Write(s.out, Passed(plan.lines[..cut]))), s.submitted)
  {
    assert [ForwardFails(0, cut)][1..] == [];
    assert s.threads - {0} == map[];
  }

  /** The thread after `i` spans of the second pass. */
  function SortedTo(index: TraceIndex, es: seq<Entry<Span>>, i: nat): Thread
    requires i <= |es|
  {
    Sorting(es[i..], KeptSpans(index, es[..i]), PendingSpans(index, es[..i]))
  }

  lemma SortOne(c: Config, s: Sys, t: nat, es: seq<Entry<Span>>, i: nat)
    requires i < |es| && s.threads == map[t := SortedTo(s.st.traceToRun, es, i)]
    ensures Next(c, s, SortSpan(t)) == s.(threads := map[t := SortedTo(s.st.traceToRun, es, i + 1)])
  {
    var index := s.st.traceToRun;
    assert es[i..][1..] == es[i + 1..] && es[..i + 1][..i] == es[..i];
    assert KeptSpans(index, es[..i]) + [] == KeptSpans(index, es[..i]);
    assert PendingSpans(index, es[..i]) + [] == PendingSpans(index, es[..i]);
    assert Next(c, s, SortSpan(t)).threads[t] == SortedTo(index, es, i + 1);
  }

  lemma EndsSorting(c: Config, s: Sys, kept: seq<Entry<Span>>, pendings: seq<Pending>)
    requires s.threads == map[0 := Sorting([], kept, pendings)]
    ensures Enabled(c, s, EndSorting(0))
    ensures var lines := SpansText(c.printer, Entries(Regrouped(kept)));
            Next(c, s, EndSorting(0)) == s.(threads := map[0 := Forwarding(lines, pendings)])
  {}

  lemma SortingEnds(c: Config, s: Sys, es: seq<Entry<Span>>)
    requires s.threads == map[0 := SortedTo(s.st.traceToRun, es, |es|)]
    ensures Enabled(c, s, EndSorting(0)) && Ready(c, s, Next(c, s, EndSorting(0)), SpanPlan(c, s.st, es), s.submitted)
  {
    var index := s.st.traceToRun;
    assert es[..|es|] == es && es[|es|..] == [];
    EndsSorting(c, s, KeptSpans(index, es), PendingSpans(index, es));
  }

  lemma {:induction false} SortingRuns(c: Config, s: Sys, es: seq<Entry<Span>>, i: nat) returns (actions: seq<Action>)
    requires i <= |es|
    requires s.threads == map[0 := SortedTo(s.st.traceToRun, es, i)]
    ensures Run(c, s, actions).Some? && Ready(c, s, Run(c, s, actions).value, SpanPlan(c, s.st, es), s.submitted)
    decreases |es| - i
  {
    if i == |es| {
      SortingEnds(c, s, es);
      actions := [EndSorting(0)];
      assert actions[1..] == [];
    } else {
      var s1 := Next(c, s, SortSpan(0));
      SortOne(c, s, 0, es, i);
      var rest := SortingRuns(c, s1, es, i + 1);
      RunCons(c, s, SortSpan(0), rest);
      actions := [SortSpan(0)] + rest;
    }
  }

  /** A Consume call comes to the forwarding as planned. */
  lemma PlanRuns(c: Config, s: Sys, call: Call) returns (actions: seq<Action>)
    requires s.threads == map[] && Consumes(call)
    ensures Run(c, s, actions).Some?
    ensures Ready(c, s, Run(c, s, actions).value, Planned(c, s.st, call), s.submitted + Bag(LineMode(c, call)))
  {
    match call
    case Metrics(req, _) =>
      actions := [BeginMetrics(0, req)];
      assert actions[1..] == [];
    case Logs(req, _) =>
      actions := [BeginLogs(0, req)];
      assert actions[1..] == [];
    case Traces(req, _) =>
      var es := Entries(req);
      var s1 := Next(c, s, BeginTraces(0, req));
      assert es[0..] == es && es[..0] == [];
      assert s1.threads == map[0 := SortedTo(s1.st.traceToRun, es, 0)];
      var rest := SortingRuns(c, s1, es, 0);
      RunCons(c, s, BeginTraces(0, req), rest);
      actions := [BeginTraces(0, req)] + rest;
  }

  /** The flushes of a sweep with this reading of the clock, or of Shutdown. */
  function Flushes(order: seq<string>, sweep: Option<int>): seq<Action> {
    if order == [] then []
    else [if sweep.Some? then SweepRun(order[0], sweep.value) else ShutdownRun(order[0])] + Flushes(order[1..], sweep)
  }

  function ReasonOf(sweep: Option<int>): FlushReason {
    if sweep.Some? then Idle else Shutdown
  }

  /** Whoever else is at work. */
  lemma {:induction false} FlushesRun(c: Config, s: Sys, order: seq<string>, sweep: Option<int>)
    requires Distinct(order)
    requires forall r <- order :: r in s.st.runs && (sweep.Some? ==> r in IdleRuns(c, s.st, sweep.value))
    ensures var (st, out) := FlushAll(s.st, s.out, order, ReasonOf(sweep));
            Run(c, s, Flushes(order, sweep)) == Some(s.(st := st, out := out))
    decreases |order|
  {
    if order != [] {
      var a := if sweep.Some? then SweepRun(order[0], sweep.value) else ShutdownRun(order[0]);
      assert order[0] in order;
      RestIsOpen(s.st, order, ReasonOf(sweep));
      FlushesRun(c, Next(c, s, a), order[1..], sweep);
      RunCons(c, s, a, Flushes(order[1..], sweep));
    }
  }

  lemma FlushAllRuns(c: Config, s: Sys, order: seq<string>, call: Call) returns (actions: seq<Action>)
    requires s.threads == map[] && Distinct(order) && (call.Sweep? || call.Close?)
    requires forall r <- order :: r in s.st.runs && (call.Sweep? ==> r in IdleRuns(c, s.st, call.now))
    ensures var reason := if call.Sweep? then Idle else Shutdown;
            Run(c, s, actions).Some?
              && Settles(s, Run(c, s, actions).value, FlushAll(s.st, s.out, order, reason), s.submitted)
  {
    var sweep := if call.Sweep? then Some(call.now) else None;
    FlushesRun(c, s, order, sweep);
    actions := Flushes(order, sweep);
  }

  lemma ConsumeRuns(c: Config, s: Sys, call: Call) returns (actions: seq<Action>)
    requires s.threads == map[] && Consumes(call)
    ensures Run(c, s, actions).Some?
    ensures Settles(s, Run(c, s, actions).value, Perform(c, s.st, s.out, call), s.submitted + Bag(LineMode(c, call)))
  {
    var first := PlanRuns(c, s, call);
    var s1 := Run(c, s, first).value;
    var rest := ForwardRuns(c, s1, Planned(c, s.st, call), call.now);
    RunAppend(c, s, first, rest);
    actions := first + rest;
  }

  lemma FailedRuns(c: Config, s: Sys, call: Call) returns (actions: seq<Action>)
    requires s.threads == map[] && Legal(c, s.st, call) && call.Failed?
    ensures Run(c, s, actions).Some?
    ensures Ended(Run(c, s, actions).value, Perform(c, s.st, s.out, call), s.submitted + Bag(LineMode(c, call)))
  {
    var first := PlanRuns(c, s, call.call);
    var s1 := Run(c, s, first).value;
    FailureRuns(c, s1, Planned(c, s.st, call.call), call.cut);
    RunAppend(c, s, first, [ForwardFails(0, call.cut)]);
    actions := first + [ForwardFails(0, call.cut)];
  }

  /** A call made alone, also one whose bypass write fails, takes the interleaving
      model from one settled state to the next. */
  lemma CallRuns(c: Config, s: Sys, call: Call) returns (actions: seq<Action>)
    requires s.threads == map[] && Legal(c, s.st, call)
    ensures Run(c, s, actions).Some?
    ensures var s' := Run(c, s, actions).value;
            && Ended(s', Perform(c, s.st, s.out, call), s.submitted + Bag(LineMode(c, call)))
            && (!call.Failed? ==> s'.lost == s.lost && s'.failed == s.failed)
  {
    if call.Failed? {
      actions := FailedRuns(c, s, call);
    } else if Consumes(call) {
      actions := ConsumeRuns(c, s, call);
    } else {
      actions := FlushAllRuns(c, s, call.order, call);
    }
  }

  // ---- Flushing several runs ----

  function Blocks(st: State, order: seq<string>, reason: FlushReason): seq<Emission>
    requires forall r <- order :: r in st.runs
    decreases |order|
  {
    if order == [] then [] else [FlushOpen(st, order[0], reason)] + Blocks(st, order[1..], reason)
  }

  lemma {:induction false} BlocksAt(st: State, order: seq<string>, reason: FlushReason, i: nat)
    requires (forall r <- order :: r in st.runs) && i < |order|
    ensures |Blocks(st, order, reason)| == |order|
    ensures Blocks(st, order, reason)[i] == FlushOpen(st, order[i], reason)
    decreases |order|
  {
    if i > 0 {
      BlocksAt(st, order[1..], reason, i - 1);
    } else if |order| > 1 {
      BlocksAt(st, order[1..], reason, 0);
    }
  }

  function WithoutRuns(index: TraceIndex, runs: set<string>): TraceIndex {
    map t <- index | index[t] !in runs :: index[t]
  }

  function IdSet(order: seq<string>): set<string> {
    set r <- order
  }

  /** A flush does not touch the blocks of the others. */
  lemma {:induction false} BlocksUntouched(st: State, st1: State, order: seq<string>, reason: FlushReason)
    requires forall r <- order :: r in st.runs && r in st1.runs && st1.runs[r] == st.runs[r]
    ensures Blocks(st1, order, reason) == Blocks(st, order, reason)
    decreases |order|
  {
    if order != [] { BlocksUntouched(st, st1, order[1..], reason); }
  }

  /** The state without these runs. */
  function Without(st: State, runs: set<string>): State {
    State(st.runs - runs, WithoutRuns(st.traceToRun, runs), st.truncated)
  }

  lemma WithoutNone(st: State)
    ensures Without(st, {}) == st
  {}

  lemma FlushedThenWithout(st: State, order: seq<string>, reason: FlushReason)
    requires order != [] && !reason.Overflow?
    ensures Without(Flushed(st, order[0], reason), IdSet(order[1..])) == Without(st, IdSet(order))
  {}

  lemma RestIsOpen(st: State, order: seq<string>, reason: FlushReason)
    requires Distinct(order) && order != [] && forall r <- order :: r in st.runs
    ensures Distinct(order[1..]) && forall r <- order[1..] :: r in Flushed(st, order[0], reason).runs
  {}

  lemma {:induction false} FlushAllState(st: State, out: seq<Emission>, order: seq<string>, reason: FlushReason)
    requires Distinct(order) && !reason.Overflow? && forall r <- order :: r in st.runs
    ensures FlushAll(st, out, order, reason).0 == Without(st, IdSet(order))
    decreases |order|
  {
    if order == [] {
      WithoutNone(st);
      assert IdSet(order) == {};
    } else {
      RestIsOpen(st, order, reason);
      FlushAllState(Flushed(st, order[0], reason), out + [FlushOpen(st, order[0], reason)], order[1..], reason);
      FlushedThenWithout(st, order, reason);
    }
  }

  lemma {:induction false} FlushAllBlocks(st: State, out: seq<Emission>, order: seq<string>, reason: FlushReason)
    requires Distinct(order) && forall r <- order :: r in st.runs
    ensures FlushAll(st, out, order, reason).1 == out + Blocks(st, order, reason)
    decreases |order|
  {
    if order == [] {
      assert out + [] == out;
    } else {
      var e, st1 := [FlushOpen(st, order[0], reason)], Flushed(st, order[0], reason);
      RestIsOpen(st, order, reason);
      FlushAllBlocks(st1, out + e, order[1..], reason);
      BlocksUntouched(st, st1, order[1..], reason);
      assert (out + e) + Blocks(st, order[1..], reason) == out + (e + Blocks(st, order[1..], reason));
    }
  }

  /** Each run named is written as one block, from the items it held at the start;
      exactly these runs and their index entries go. */
  lemma FlushAllEffect(st: State, out: seq<Emission>, order: seq<string>, reason: FlushReason)
    requires Distinct(order) && !reason.Overflow? && forall r <- order :: r in st.runs
    ensures FlushAll(st, out, order, reason) == (Without(st, IdSet(order)), out + Blocks(st, order, reason))
  {
    FlushAllState(st, out, order, reason);
    FlushAllBlocks(st, out, order, reason);
  }

  /** The loop of sweepIdle, with the runs `todo` still ahead of it. */
  ghost predicate Sweeping(c: Config, st: State, out: seq<Emission>, now: int, order: seq<string>, todo: set<string>,
                           reached: (State, seq<Emission>)) {
    && Distinct(order)
    && (forall r :: r in order <==> r in IdleRuns(c, st, now) && r !in todo)
    && todo <= reached.0.runs.Keys && (forall r <- todo :: r in st.runs && reached.0.runs[r] == st.runs[r])
    && FlushAll(st, out, order, Idle) == reached
  }

  lemma {:induction false} FlushAllSnoc(st: State, out: seq<Emission>, order: seq<string>, reason: FlushReason, r: string)
    requires Distinct(order + [r]) && forall x <- order + [r] :: x in st.runs
    requires Distinct(order) && forall x <- order :: x in st.runs
    ensures var (st', out') := FlushAll(st, out, order, reason);
            r in st'.runs && FlushAll(st, out, order + [r], reason) == (Flushed(st', r, reason), out' + [FlushOpen(st', r, reason)])
    decreases |order|
  {
    if order == [] {
      assert (order + [r])[1..] == [];
    } else {
      assert (order + [r])[1..] == order[1..] + [r];
      RestIsOpen(st, order + [r], reason);
      RestIsOpen(st, order, reason);
      FlushAllSnoc(Flushed(st, order[0], reason), out + [FlushOpen(st, order[0], reason)], order[1..], reason, r);
    }
  }

  lemma SweepingNext(c: Config, st: State, out: seq<Emission>, now: int, order: seq<string>, todo: set<string>,
                     reached: (State, seq<Emission>), r: string)
    requires Sweeping(c, st, out, now, order, todo, reached) && r in todo
    ensures r in reached.0.runs
    ensures now - reached.0.runs[r].lastActivity < c.idleTimeout ==> Sweeping(c, st, out, now, order, todo - {r}, reached)
    ensures now - reached.0.runs[r].lastActivity >= c.idleTimeout ==>
              Sweeping(c, st, out, now, order + [r], todo - {r},
                       (Flushed(reached.0, r, Idle), reached.1 + [FlushOpen(reached.0, r, Idle)]))
  {
    if now - reached.0.runs[r].lastActivity >= c.idleTimeout {
      assert r !in order && r in IdleRuns(c, st, now);
      assert forall x :: x in order + [r] <==> x in order || x == r;
      FlushAllSnoc(st, out, order, Idle, r);
    }
  }

  /** The loop of Shutdown, `i` runs done. */
  ghost predicate Closing(st: State, out: seq<Emission>, order: seq<string>, i: nat, reached: (State, seq<Emission>)) {
    && i <= |order| && Distinct(order) && (forall r <- order :: r in st.runs)
    && (forall k :: i <= k < |order| ==> order[k] in reached.0.runs)
    && FlushAll(st, out, order[..i], FlushReason.Shutdown) == reached
  }

  lemma ClosingNext(st: State, out: seq<Emission>, order: seq<string>, i: nat, reached: (State, seq<Emission>))
    requires Closing(st, out, order, i, reached) && i < |order|
    ensures Closing(st, out, order, i + 1,
                    (Flushed(reached.0, order[i], FlushReason.Shutdown), reached.1 + [FlushOpen(reached.0, order[i], FlushReason.Shutdown)]))
  {
    assert order[..i + 1] == order[..i] + [order[i]];
    FlushAllSnoc(st, out, order[..i], FlushReason.Shutdown, order[i]);
  }

  /** A sweep flushes exactly the runs idle for at least the timeout: one block each
      from all they held, and nothing else changes; the visiting order decides
      nothing but the order of the blocks. */
  lemma SweepIsExact(c: Config, st: State, out: seq<Emission>, order: seq<string>, now: int)
    requires Legal(c, st, Sweep(order, now))
    ensures var (st', out') := Perform(c, st, out, Sweep(order, now));
            && st' == Without(st, IdleRuns(c, st, now))
            && |out'| == |out| + |order| && out'[..|out|] == out
            && (forall r <- IdleRuns(c, st, now) ::
                  exists i :: |out| <= i < |out'| && out'[i] == FlushOpen(st, r, Idle))
            && (forall i :: |out| <= i < |out'| ==>
                  out'[i].Block? && out'[i].runID in IdleRuns(c, st, now)
                  && forall j :: |out| <= j < i ==> out'[j].Block? && out'[j].runID != out'[i].runID)
  {
    FlushAllEffect(st, out, order, Idle);
    assert IdSet(order) == IdleRuns(c, st, now);
    var out' := Perform(c, st, out, Sweep(order, now)).1;
    if order != [] { BlocksAt(st, order, Idle, 0); }
    forall i | |out| <= i < |out'| ensures out'[i] == FlushOpen(st, order[i - |out|], Idle) {
      BlocksAt(st, order, Idle, i - |out|);
    }
    forall r <- IdleRuns(c, st, now) ensures exists i :: |out| <= i < |out'| && out'[i] == FlushOpen(st, r, Idle) {
      var k :| 0 <= k < |order| && order[k] == r;
      assert out'[|out| + k] == FlushOpen(st, r, Idle);
    }
  }

  /** Shutdown leaves no run open and no index entry of an open run. */
  lemma CloseEmpties(c: Config, st: State, out: seq<Emission>, order: seq<string>)
    requires Legal(c, st, Close(order))
    ensures var (st', out') := Perform(c, st, out, Close(order));
            && st' == State(map[], WithoutRuns(st.traceToRun, st.runs.Keys), st.truncated)
            && out' == out + Blocks(st, order, Shutdown)
  {
    FlushAllEffect(st, out, order, Shutdown);
    assert IdSet(order) == st.runs.Keys;
    assert st.runs - IdSet(order) == map[];
  }

  // ---- The sweeper's clock ----

  const MILLISECOND := 1_000_000

  /** The ticker interval of startSweeper. */
  function TickInterval(idleTimeout: int): int
    requires idleTimeout > 0
  {
    if idleTimeout / 4 < 100 * MILLISECOND then 100 * MILLISECOND else idleTimeout / 4
  }

  // ---- Whole histories of calls ----

  /** These calls, one after the other, lead from one state and output to another. */
  ghost predicate Played(c: Config, from: (State, seq<Emission>), calls: seq<Call>, to: (State, seq<Emission>))
    decreases |calls|
  {
    if calls == [] then from == to
    else Legal(c, from.0, calls[0]) && Played(c, Perform(c, from.0, from.1, calls[0]), calls[1..], to)
  }

  function LineModeBag(c: Config, calls: seq<Call>): multiset<string> {
    if calls == [] then multiset{} else Bag(LineMode(c, calls[0])) + LineModeBag(c, calls[1..])
  }

  lemma {:induction false} PlayedRuns(c: Config, s: Sys, calls: seq<Call>, to: (State, seq<Emission>)) returns (actions: seq<Action>)
    requires s.threads == map[] && Played(c, (s.st, s.out), calls, to)
    ensures Run(c, s, actions).Some? && Ended(Run(c, s, actions).value, to, s.submitted + LineModeBag(c, calls))
    ensures Lossless(calls) ==> Settles(s, Run(c, s, actions).value, to, s.submitted + LineModeBag(c, calls))
    decreases |calls|
  {
    if calls == [] {
      actions := [];
    } else {
      var first := CallRuns(c, s, calls[0]);
      var s1 := Run(c, s, first).value;
      var rest := PlayedRuns(c, s1, calls[1..], to);
      actions := first + rest;
      RunAppend(c, s, first, rest);
    }
  }

  /** Every state and output that calls made one after the other lead to is
      reachable in the interleaving model, so all its guarantees hold. */
  lemma PlayedIsReachable(c: Config, calls: seq<Call>, to: (State, seq<Emission>)) returns (s: Sys)
    requires Played(c, (EMPTY, []), calls, to)
    ensures Reachable(c, s) && Ended(s, to, LineModeBag(c, calls))
    ensures Lossless(calls) ==> Settles(INITIAL, s, to, LineModeBag(c, calls))
  {
    var actions := PlayedRuns(c, INITIAL, calls, to);
    s := Run(c, INITIAL, actions).value;
  }

  /** For any calls and sweeps, ended by Shutdown, the output without banners,
      warnings and indentation is a permutation of line mode's. */
  lemma SequentialRefinement(c: Config, calls: seq<Call>, last: (State, seq<Emission>), order: seq<string>)
    requires Configured(c) && Played(c, (EMPTY, []), calls, last) && Lossless(calls) && Legal(c, last.0, Close(order))
    ensures var out := Perform(c, last.0, last.1, Close(order)).1; Bag(Text(c, out)) == LineModeBag(c, calls)
  {
    var s := PlayedIsReachable(c, calls, last);
    var actions :| Run(c, INITIAL, actions) == Some(s);
    var more := CallRuns(c, s, Close(order));
    RunAppend(c, INITIAL, actions, more);
    CloseEmpties(c, last.0, last.1, order);
    BufferingRefinesLineMode(c, Run(c, s, more).value);
    assert Bag(LineMode(c, Close(order))) == multiset{};
  }
}

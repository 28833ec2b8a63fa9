/** A run that gets no more items is flushed by the sweeper in time, whatever the
    other calls do meanwhile (internal/sink/runblock.go:250-284). */
module QuietRuns {
  import opened Basics
  import opened Bucketing
  import opened RunBlockState
  import opened History
  import opened Interleaving
  import opened Sequential
  import opened LockedSteps

  // ---- The output grows ----

  lemma {:induction false} HandleAllGrows(c: Config, st: State, out: seq<Emission>, pendings: seq<Pending>, now: int)
    ensures out <= HandleAll(c, st, out, pendings, now).1
    decreases |pendings|
  {
    if pendings != [] {
      var r := Enqueue(c, st, pendings[0], now);
      HandleAllGrows(c, r.state, Handled(out, r, pendings[0]), pendings[1..], now);
    }
  }

  lemma {:induction false} FlushAllGrows(st: State, out: seq<Emission>, order: seq<string>, reason: FlushReason)
    requires Distinct(order) && forall r <- order :: r in st.runs
    ensures out <= FlushAll(st, out, order, reason).1
    decreases |order|
  {
    if order != [] {
      RestIsOpen(st, order, reason);
      FlushAllGrows(Flushed(st, order[0], reason), out + [FlushOpen(st, order[0], reason)], order[1..], reason);
    }
  }

  lemma PerformGrows(c: Config, st: State, out: seq<Emission>, call: Call)
    requires Legal(c, st, call)
    ensures out <= Perform(c, st, out, call).1
  {
    match call
    case Sweep(order, _) => FlushAllGrows(st, out, order, Idle);
    case Close(order) => FlushAllGrows(st, out, order, FlushReason.Shutdown);
    case Failed(_, _) =>
    case _ =>
      var plan := Planned(c, st, call);
      HandleAllGrows(c, plan.state, Write(out, Passed(plan.lines)), plan.pendings, call.now);
  }

  lemma {:induction false} PlayedGrows(c: Config, from: (State, seq<Emission>), calls: seq<Call>, to: (State, seq<Emission>))
    requires Played(c, from, calls, to)
    ensures from.1 <= to.1
    decreases |calls|
  {
    if calls != [] {
      PerformGrows(c, from.0, from.1, calls[0]);
      PlayedGrows(c, Perform(c, from.0, from.1, calls[0]), calls[1..], to);
    }
  }

  // ---- Calls that leave a run alone ----

  /** The call brings no item of the run, and the sink is not shut down. */
  predicate LeavesAlone(c: Config, st: State, call: Call, r: string) {
    !call.Close? && (Consumes(call) ==> r !in RunsOf(Planned(c, st, call).pendings))
  }

  /** So do all calls of a history. */
  ghost predicate NoItemFor(c: Config, from: (State, seq<Emission>), calls: seq<Call>, r: string)
    decreases |calls|
  {
    calls == [] ||
    (Legal(c, from.0, calls[0]) && LeavesAlone(c, from.0, calls[0], r)
      && NoItemFor(c, Perform(c, from.0, from.1, calls[0]), calls[1..], r))
  }

  lemma {:induction false} HandleAllKeeps(c: Config, st: State, out: seq<Emission>, pendings: seq<Pending>, now: int, r: string)
    requires r in st.runs && r !in RunsOf(pendings)
    ensures var st' := HandleAll(c, st, out, pendings, now).0; r in st'.runs && st'.runs[r] == st.runs[r]
    decreases |pendings|
  {
    if pendings != [] {
      assert pendings[0] in pendings && forall p <- pendings[1..] :: p in pendings;
      var e := Enqueue(c, st, pendings[0], now);
      HandleAllKeeps(c, e.state, Handled(out, e, pendings[0]), pendings[1..], now, r);
    }
  }

  /** Only a sweep that finds it idle closes it. */
  lemma PerformKeeps(c: Config, st: State, out: seq<Emission>, call: Call, r: string)
    requires r in st.runs && Legal(c, st, call) && LeavesAlone(c, st, call, r)
    requires call.Sweep? ==> r !in IdleRuns(c, st, call.now)
    ensures var st' := Perform(c, st, out, call).0; r in st'.runs && st'.runs[r] == st.runs[r]
  {
    if Consumes(call) {
      var plan := Planned(c, st, call);
      HandleAllKeeps(c, plan.state, Write(out, Passed(plan.lines)), plan.pendings, call.now, r);
    } else if call.Sweep? {
      SweepIsExact(c, st, out, call.order, call.now);
    }
  }

  // ---- Ticks ----

  /** The sweeps of a history come one interval after the other, from `tick` on. */
  predicate OnTime(calls: seq<Call>, tick: int, interval: int) {
    if calls == [] then true
    else if calls[0].Sweep? then calls[0].now == tick && OnTime(calls[1..], tick + interval, interval)
    else OnTime(calls[1..], tick, interval)
  }

  /** A tick at or after this time is among them. */
  ghost predicate TicksUntil(calls: seq<Call>, due: int) {
    exists call <- calls :: call.Sweep? && call.now >= due
  }

  /** The i-th call is the sweep that flushes the run: it is due, and not late. */
  ghost predicate SweptAt(c: Config, from: (State, seq<Emission>), calls: seq<Call>, r: string, i: nat, at: (State, seq<Emission>))
    requires r in from.0.runs
  {
    && i < |calls| && calls[i].Sweep? && Played(c, from, calls[..i], at)
    && r in at.0.runs && at.0.runs[r] == from.0.runs[r] && r in IdleRuns(c, at.0, calls[i].now)
    && 4 * (calls[i].now - from.0.runs[r].lastActivity) < 5 * c.idleTimeout
  }

  lemma DueSweep(c: Config, from: (State, seq<Emission>), calls: seq<Call>, to: (State, seq<Emission>), r: string)
    requires Played(c, from, calls, to) && calls != [] && calls[0].Sweep? && r in from.0.runs && r in IdleRuns(c, from.0, calls[0].now)
    ensures FlushOpen(from.0, r, Idle) in to.1
  {
    var (st, out) := Perform(c, from.0, from.1, calls[0]);
    SweepIsExact(c, from.0, from.1, calls[0].order, calls[0].now);
    PlayedGrows(c, (st, out), calls[1..], to);
    var i :| |from.1| <= i < |out| && out[i] == FlushOpen(from.0, r, Idle);
    assert to.1[i] == out[i];
  }

  /** One call that does not flush it. */
  lemma SweptLater(c: Config, from: (State, seq<Emission>), calls: seq<Call>, r: string, k: nat, at: (State, seq<Emission>))
    requires r in from.0.runs && calls != [] && Legal(c, from.0, calls[0])
    requires var next := Perform(c, from.0, from.1, calls[0]);
             r in next.0.runs && next.0.runs[r] == from.0.runs[r] && SweptAt(c, next, calls[1..], r, k, at)
    ensures SweptAt(c, from, calls, r, k + 1, at)
  {
    assert calls[..k + 1][1..] == calls[1..][..k];
  }

  /** No sweep before the i-th call is that late. */
  predicate NoSweepDue(calls: seq<Call>, i: nat, due: int) {
    i <= |calls| && forall j :: 0 <= j < i && calls[j].Sweep? ==> calls[j].now < due
  }

  lemma NoSweepDueNext(calls: seq<Call>, k: nat, due: int)
    requires calls != [] && NoSweepDue(calls[1..], k, due) && (calls[0].Sweep? ==> calls[0].now < due)
    ensures NoSweepDue(calls, k + 1, due)
  {
    forall j | 0 <= j < k + 1 && calls[j].Sweep? ensures calls[j].now < due {
      if j > 0 { assert calls[1..][j - 1] == calls[j]; }
    }
  }

  /** Its clock goes on. */
  lemma TicksGoOn(calls: seq<Call>, tick: int, interval: int, due: int) returns (tick': int)
    requires calls != [] && OnTime(calls, tick, interval) && TicksUntil(calls, due) && tick - interval < due
    requires calls[0].Sweep? ==> calls[0].now < due
    ensures OnTime(calls[1..], tick', interval) && TicksUntil(calls[1..], due) && tick' - interval < due
  {
    tick' := if calls[0].Sweep? then tick + interval else tick;
    assert forall other <- calls :: other == calls[0] || other in calls[1..];
  }

  /** A run whose items have stopped coming stays as it is while other calls go on, until
      the first tick at which it has been idle for the timeout; that tick comes
      before 5/4 of the timeout has passed, for timeouts of at least 400ms, and its
      sweep puts the run's block, with all its items, on the output. */
  lemma {:induction false} QuietRunIsFlushed(c: Config, from: (State, seq<Emission>), calls: seq<Call>, to: (State, seq<Emission>),
                                             r: string, tick: int)
    returns (i: nat, at: (State, seq<Emission>))
    requires c.idleTimeout >= 400 * MILLISECOND && r in from.0.runs
    requires Played(c, from, calls, to) && NoItemFor(c, from, calls, r)
    requires OnTime(calls, tick, TickInterval(c.idleTimeout))
    requires tick - TickInterval(c.idleTimeout) < from.0.runs[r].lastActivity + c.idleTimeout
    requires TicksUntil(calls, from.0.runs[r].lastActivity + c.idleTimeout)
    ensures SweptAt(c, from, calls, r, i, at) && FlushOpen(from.0, r, Idle) in to.1
    ensures NoSweepDue(calls, i, from.0.runs[r].lastActivity + c.idleTimeout)
    decreases |calls|
  {
    var call := calls[0];
    if call.Sweep? && r in IdleRuns(c, from.0, call.now) {
      i, at := 0, from;
      assert calls[..0] == [];
      DueSweep(c, from, calls, to, r);
    } else {
      PerformKeeps(c, from.0, from.1, call, r);
      var tick' := TicksGoOn(calls, tick, TickInterval(c.idleTimeout), from.0.runs[r].lastActivity + c.idleTimeout);
      var k;
      k, at := QuietRunIsFlushed(c, Perform(c, from.0, from.1, call), calls[1..], to, r, tick');
      SweptLater(c, from, calls, r, k, at);
      NoSweepDueNext(calls, k, from.0.runs[r].lastActivity + c.idleTimeout);
      i := k + 1;
    }
  }

  // ---- The same with all calls at once ----

  /** Four ticks to a timeout, rounded down to the nanosecond, and never less than 100ms. */
  lemma TickIntervalBounds(idleTimeout: int)
    requires idleTimeout > 0
    ensures var tick := TickInterval(idleTimeout);
            && 100_000_000 <= tick && (tick == 100_000_000 || 4 * tick <= idleTimeout) && idleTimeout < 4 * (tick + 1)
  {}

  lemma {:induction false} RunGrows(c: Config, l: Locked, actions: seq<LockedAction>)
    requires LockedRun(c, l, actions).Some?
    ensures l.sys.out <= LockedRun(c, l, actions).value.sys.out
    decreases |actions|
  {
    if actions != [] {
      StepGrows(c, l, actions[0]);
      RunGrows(c, Go(c, l, actions[0]), actions[1..]);
    }
  }

  lemma StepGrows(c: Config, l: Locked, la: LockedAction)
    requires May(c, l, la)
    ensures l.sys.out <= Go(c, l, la).sys.out
  {}

  /** The step takes no item of the run and is not the flush of Shutdown. */
  predicate StepLeaves(l: Locked, la: LockedAction, r: string) {
    match la
    case Do(TakeItem(t)) =>
      t in l.sys.threads && l.sys.threads[t].Enqueuing? && l.sys.threads[t].pendings != [] && l.sys.threads[t].pendings[0].runID != r
    case CloseAll(_) => false
    case _ => true
  }

  ghost predicate NoneTaken(c: Config, l: Locked, actions: seq<LockedAction>, r: string)
    decreases |actions|
  {
    actions == []
      || (May(c, l, actions[0]) && StepLeaves(l, actions[0], r) && NoneTaken(c, Go(c, l, actions[0]), actions[1..], r))
  }

  ghost predicate AsItWas(l: Locked, l': Locked, r: string) {
    r in l.sys.st.runs && r in l'.sys.st.runs && l'.sys.st.runs[r] == l.sys.st.runs[r]
  }

  /** A sweep with this reading is to flush the run. */
  predicate DueAt(c: Config, l: Locked, r: string, now: int)
    requires r in l.sys.st.runs
  {
    now - l.sys.st.runs[r].lastActivity >= c.idleTimeout
  }

  lemma StepLeavesRun(c: Config, l: Locked, la: LockedAction, r: string)
    requires May(c, l, la) && StepLeaves(l, la, r) && r in l.sys.st.runs
    requires la.SweepAll? ==> !DueAt(c, l, r, la.now)
    ensures AsItWas(l, Go(c, l, la), r)
  {}

  lemma DueSweepFlushes(c: Config, l: Locked, order: seq<string>, now: int, r: string)
    requires May(c, l, SweepAll(order, now)) && r in l.sys.st.runs && DueAt(c, l, r, now)
    ensures FlushOpen(l.sys.st, r, Idle) in Go(c, l, SweepAll(order, now)).sys.out
  {
    assert r in order;
    var i :| 0 <= i < |order| && order[i] == r;
    BlocksAt(l.sys.st, order, Idle, i);
    assert Go(c, l, SweepAll(order, now)).sys.out[|l.sys.out| + i] == FlushOpen(l.sys.st, r, Idle);
  }

  /** The sweeper reads the clock one interval after the other, from `tick` on. */
  predicate TicksOnTime(actions: seq<LockedAction>, tick: int, interval: int) {
    if actions == [] then true
    else if actions[0].Tick? then actions[0].now == tick && TicksOnTime(actions[1..], tick + interval, interval)
    else TicksOnTime(actions[1..], tick, interval)
  }

  /** No tick at which the run was due has been missed; one may wait for the lock. */
  ghost predicate NoneMissed(c: Config, l: Locked, r: string, tick: int)
    requires r in l.sys.st.runs && c.idleTimeout > 0
  {
    var interval := TickInterval(c.idleTimeout);
    if l.sweep.Some? && DueAt(c, l, r, l.sweep.value) then !DueAt(c, l, r, l.sweep.value - interval)
    else !DueAt(c, l, r, tick - interval)
  }

  /** The i-th step is the sweep that flushes the run: the first that finds it due, and
      not late. */
  ghost predicate FlushedAt(c: Config, l: Locked, actions: seq<LockedAction>, r: string, i: nat, at: Locked)
    requires r in l.sys.st.runs && c.idleTimeout > 0
  {
    && i < |actions| && actions[i].SweepAll? && LockedRun(c, l, actions[..i]) == Some(at) && AsItWas(l, at, r)
    && DueAt(c, l, r, actions[i].now) && !DueAt(c, l, r, actions[i].now - TickInterval(c.idleTimeout))
    && NoneDueBefore(c, l, actions, r, i)
  }

  predicate NoneDueBefore(c: Config, l: Locked, actions: seq<LockedAction>, r: string, i: nat)
    requires r in l.sys.st.runs && i <= |actions|
  {
    forall j :: 0 <= j < i && actions[j].SweepAll? ==> !DueAt(c, l, r, actions[j].now)
  }

  lemma NoneDueNext(c: Config, l: Locked, l': Locked, actions: seq<LockedAction>, r: string, k: nat)
    requires AsItWas(l, l', r) && actions != [] && (actions[0].SweepAll? ==> !DueAt(c, l, r, actions[0].now))
    requires k < |actions| && NoneDueBefore(c, l', actions[1..], r, k)
    ensures NoneDueBefore(c, l, actions, r, k + 1)
  {
    forall j | 0 <= j < k + 1 && actions[j].SweepAll? ensures !DueAt(c, l, r, actions[j].now) {
      if j > 0 { assert actions[1..][j - 1] == actions[j]; }
    }
  }

  lemma NoneMissedYet(c: Config, l: Locked, la: LockedAction, r: string, tick: int) returns (tick': int)
    requires c.idleTimeout > 0 && May(c, l, la) && r in l.sys.st.runs && NoneMissed(c, l, r, tick) && AsItWas(l, Go(c, l, la), r)
    requires la.SweepAll? ==> !DueAt(c, l, r, la.now)
    requires la.Tick? ==> la.now == tick
    ensures NoneMissed(c, Go(c, l, la), r, tick') && tick' == if la.Tick? then tick + TickInterval(c.idleTimeout) else tick
  {
    tick' := if la.Tick? then tick + TickInterval(c.idleTimeout) else tick;
  }

  lemma FlushedLater(c: Config, l: Locked, actions: seq<LockedAction>, r: string, k: nat, at: Locked)
    requires c.idleTimeout > 0 && actions != [] && May(c, l, actions[0]) && AsItWas(l, Go(c, l, actions[0]), r)
    requires actions[0].SweepAll? ==> !DueAt(c, l, r, actions[0].now)
    requires FlushedAt(c, Go(c, l, actions[0]), actions[1..], r, k, at)
    ensures FlushedAt(c, l, actions, r, k + 1, at)
  {
    FirstOfPrefix(actions, k);
    LockedCons(c, l, actions[0], actions[1..][..k]);
    NoneDueNext(c, l, Go(c, l, actions[0]), actions, r, k);
  }

  /** Whatever calls are in flight and however they interleave: while none of them takes an
      item of the run, it stays as it is until the first sweep that finds it idle for
      the timeout. With the clock read on time that is the first reading at which it is
      idle that long, so less than one interval late: before 5/4 of the timeout has
      passed, for timeouts of at least 400ms. The sweep, once it has the lock, writes
      the run's block with all its items. */
  lemma {:induction false} QuietRunIsFlushedInTime(c: Config, l: Locked, actions: seq<LockedAction>, r: string, tick: int)
    returns (i: nat, at: Locked)
    requires c.idleTimeout > 0 && r in l.sys.st.runs
    requires LockedRun(c, l, actions).Some? && NoneTaken(c, l, actions, r)
    requires TicksOnTime(actions, tick, TickInterval(c.idleTimeout)) && NoneMissed(c, l, r, tick)
    requires exists la <- actions :: la.SweepAll? && DueAt(c, l, r, la.now)
    ensures FlushedAt(c, l, actions, r, i, at) && FlushOpen(l.sys.st, r, Idle) in LockedRun(c, l, actions).value.sys.out
    ensures c.idleTimeout >= 400 * MILLISECOND ==> 4 * (actions[i].now - l.sys.st.runs[r].lastActivity) < 5 * c.idleTimeout
    decreases |actions|
  {
    var la := actions[0];
    var l1 := Go(c, l, la);
    if la.SweepAll? && DueAt(c, l, r, la.now) {
      i, at := 0, l;
      assert actions[..0] == [];
      DueSweepFlushes(c, l, la.order, la.now, r);
      RunGrows(c, l1, actions[1..]);
    } else {
      StepLeavesRun(c, l, la, r);
      var tick' := NoneMissedYet(c, l, la, r, tick);
      assert forall other <- actions :: other == la || other in actions[1..];
      var k;
      k, at := QuietRunIsFlushedInTime(c, l1, actions[1..], r, tick');
      FlushedLater(c, l, actions, r, k, at);
      i := k + 1;
    }
  }
}

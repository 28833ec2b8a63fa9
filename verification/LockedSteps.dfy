/** The interleaving model under the sink's lock and a clock that does not go back
    (internal/sink/runblock.go:324-345, 407-423, 498-533).

    A call reads the clock when it first takes the lock. It keeps the lock until it
    has to stream an item, and takes it again afterwards with the reading it has. The
    sweeper reads the clock before it takes the lock, and flushes all idle runs in one
    hold (internal/sink/runblock.go:274-284), Shutdown all open ones (218-237). */
module LockedSteps {
  import opened Basics
  import opened Otlp
  import opened Bucketing
  import opened RunBlockState
  import opened Interleaving
  import opened Sequential
  import opened IdOrder

  /** Shutdown first stops the sweeper, then takes the lock; afterwards neither does
      anything more. */
  datatype Phase = Running | Stopping | Closed

  /** `clock` is the last reading and `read` the last one by a call; `streamed` are the
      threads that have streamed an item since they read the clock; `sweep` is the
      reading of a sweep that waits for the lock. */
  datatype Locked = Locked(
    sys: Sys, holder: Option<nat>, clock: int, read: int, streamed: set<nat>, sweep: Option<int>, phase: Phase)

  /** Relock is the Lock behind a streamed item; Tick is the reading of the clock at the
      start of a sweep. A sweep and Shutdown flush all their runs in one hold. */
  datatype LockedAction =
    | Do(action: Action)
    | Relock(t: nat)
    | Tick(now: int)
    | SweepAll(order: seq<string>, now: int)
    | Stop
    | CloseAll(order: seq<string>)

  /** The second pass asks the index only for spans without a run id of their own. */
  predicate LooksUp(span: Span) {
    LookupAttr(span.attributes, "run.id") == "" && span.traceId != []
  }

  predicate LockAllows(l: Locked, a: Action) {
    match a
    case BeginTraces(_, _) => l.holder.None?
    case SortSpan(t) =>
      t in l.sys.threads && l.sys.threads[t].Sorting? && l.sys.threads[t].rest != []
        && (LooksUp(l.sys.threads[t].rest[0].record) ==> l.holder.None?)
    case Acquire(_, now) => l.holder.None? && l.clock <= now
    case TakeItem(t) => l.holder == Some(t)
    case Return(t) => (t in l.sys.threads && l.sys.threads[t].Waiting?) || l.holder == Some(t)
    case SweepRun(_, _) => false
    case ShutdownRun(_) => false
    case _ => true
  }

  ghost predicate May(c: Config, l: Locked, la: LockedAction) {
    match la
    case Do(a) => Enabled(c, l.sys, a) && LockAllows(l, a)
    case Relock(t) => l.holder.None? && t in l.sys.threads && l.sys.threads[t].Enqueuing?
    case Tick(now) => l.phase.Running? && l.sweep.None? && l.clock <= now
    case SweepAll(order, now) => l.holder.None? && l.sweep == Some(now) && Legal(c, l.sys.st, Sweep(order, now))
    case Stop => l.phase.Running?
    case CloseAll(order) =>
      l.holder.None? && l.phase.Stopping? && l.sweep.None? && Legal(c, l.sys.st, Close(order)) && Ascending(order)
  }

  /** These runs are flushed. */
  function FlushThem(s: Sys, order: seq<string>, reason: FlushReason): Sys
    requires forall r <- order :: r in s.st.runs
  {
    s.(st := Without(s.st, IdSet(order)), out := s.out + Blocks(s.st, order, reason))
  }

  ghost function Go(c: Config, l: Locked, la: LockedAction): Locked
    requires May(c, l, la)
  {
    match la
    case Relock(t) => l.(holder := Some(t))
    case Tick(now) => l.(clock := now, sweep := Some(now))
    case SweepAll(order, now) => l.(sys := FlushThem(l.sys, order, Idle), sweep := None)
    case Stop => l.(phase := Stopping)
    case CloseAll(order) => l.(sys := FlushThem(l.sys, order, FlushReason.Shutdown), phase := Closed)
    case Do(a) =>
      var s := Next(c, l.sys, a);
      match a
      case Acquire(t, now) => l.(sys := s, holder := Some(t), clock := now, read := now, streamed := l.streamed - {t})
      case TakeItem(t) =>
        if s.threads[t].Streaming? then l.(sys := s, holder := None, streamed := l.streamed + {t}) else l.(sys := s)
      case Return(t) => l.(sys := s, holder := if l.holder == Some(t) then None else l.holder)
      case _ => l.(sys := s)
  }

  ghost function LockedRun(c: Config, l: Locked, actions: seq<LockedAction>): Option<Locked>
    decreases |actions|
  {
    if actions == [] then Some(l)
    else if May(c, l, actions[0]) then LockedRun(c, Go(c, l, actions[0]), actions[1..])
    else None
  }

  function Begun(clock: int): Locked {
    Locked(INITIAL, None, clock, clock, {}, None, Running)
  }

  ghost predicate LockedReachable(c: Config, l: Locked) {
    exists clock, actions :: LockedRun(c, Begun(clock), actions) == Some(l)
  }

  lemma LockedCons(c: Config, l: Locked, la: LockedAction, rest: seq<LockedAction>)
    requires May(c, l, la)
    ensures LockedRun(c, l, [la] + rest) == LockedRun(c, Go(c, l, la), rest)
  {
    assert ([la] + rest)[1..] == rest;
  }

  lemma {:induction false} LockedAppend(c: Config, l: Locked, a: seq<LockedAction>, b: seq<LockedAction>)
    requires LockedRun(c, l, a).Some?
    ensures LockedRun(c, l, a + b) == LockedRun(c, LockedRun(c, l, a).value, b)
    decreases |a|
  {
    if a == [] {
      assert a + b == b;
    } else {
      Others(a, b);
      LockedAppend(c, Go(c, l, a[0]), a[1..], b);
      assert LockedRun(c, l, a + b) == LockedRun(c, Go(c, l, a[0]), a[1..] + b);
    }
  }

  lemma LockedSnoc(c: Config, l: Locked, actions: seq<LockedAction>, la: LockedAction)
    requires LockedRun(c, l, actions).Some? && May(c, LockedRun(c, l, actions).value, la)
    ensures LockedRun(c, l, actions + [la]) == Some(Go(c, LockedRun(c, l, actions).value, la))
  {
    var m := LockedRun(c, l, actions).value;
    LockedAppend(c, l, actions, [la]);
    assert [la][1..] == [];
    assert LockedRun(c, m, [la]) == LockedRun(c, Go(c, m, la), []);
  }

  lemma LockedThen(c: Config, l: Locked, actions: seq<LockedAction>)
    requires LockedReachable(c, l) && LockedRun(c, l, actions).Some?
    ensures LockedReachable(c, LockedRun(c, l, actions).value)
  {
    var clock, before :| LockedRun(c, Begun(clock), before) == Some(l);
    LockedAppend(c, Begun(clock), before, actions);
    assert LockedRun(c, Begun(clock), before + actions) == LockedRun(c, l, actions);
  }

  // ---- Runs under the lock are runs ----

  /** The steps of the interleaving model a step under the lock stands for. */
  function PlainSteps(la: LockedAction): seq<Action> {
    match la
    case Do(a) => [a]
    case SweepAll(order, now) => Flushes(order, Some(now))
    case CloseAll(order) => Flushes(order, None)
    case _ => []
  }

  function Plainly(actions: seq<LockedAction>): seq<Action> {
    if actions == [] then [] else PlainSteps(actions[0]) + Plainly(actions[1..])
  }

  lemma GoIsRun(c: Config, l: Locked, la: LockedAction)
    requires May(c, l, la)
    ensures Run(c, l.sys, PlainSteps(la)) == Some(Go(c, l, la).sys)
  {
    match la
    case Do(a) => assert [a][1..] == [];
    case SweepAll(order, now) =>
      FlushesRun(c, l.sys, order, Some(now));
      FlushAllEffect(l.sys.st, l.sys.out, order, Idle);
    case CloseAll(order) =>
      FlushesRun(c, l.sys, order, None);
      FlushAllEffect(l.sys.st, l.sys.out, order, FlushReason.Shutdown);
    case _ =>
  }

  lemma {:induction false} LockedRunIsRun(c: Config, l: Locked, actions: seq<LockedAction>)
    requires LockedRun(c, l, actions).Some?
    ensures Run(c, l.sys, Plainly(actions)) == Some(LockedRun(c, l, actions).value.sys)
    decreases |actions|
  {
    if actions != [] {
      GoIsRun(c, l, actions[0]);
      LockedRunIsRun(c, Go(c, l, actions[0]), actions[1..]);
      RunAppend(c, l.sys, PlainSteps(actions[0]), Plainly(actions[1..]));
    }
  }

  /** Every state reached under the lock is reachable without it, so all that holds in
      all reachable states holds there. */
  lemma LockedIsReachable(c: Config, l: Locked)
    requires LockedReachable(c, l)
    ensures Reachable(c, l.sys)
  {
    var clock, actions :| LockedRun(c, Begun(clock), actions) == Some(l);
    LockedRunIsRun(c, Begun(clock), actions);
  }

  // ---- Clock and lock ----

  /** No open run has been active later than this. */
  ghost predicate ActiveBy(s: State, now: int) {
    forall r <- s.runs :: s.runs[r].lastActivity <= now
  }

  /** A call that has not streamed since it read the clock has the lock and the latest
      reading of a call. */
  ghost predicate ClockOk(l: Locked, t: nat)
    requires t in l.sys.threads
  {
    var th := l.sys.threads[t];
    && (th.Enqueuing? ==> th.now <= l.read && (t !in l.streamed ==> l.holder == Some(t) && th.now == l.read))
    && (th.Streaming? ==> th.now <= l.read && t in l.streamed)
  }

  ghost predicate ClocksOk(l: Locked) {
    && l.read <= l.clock && ActiveBy(l.sys.st, l.read)
    && (forall t <- l.sys.threads :: ClockOk(l, t))
    && (l.holder.Some? ==> l.holder.value in l.sys.threads && l.sys.threads[l.holder.value].Enqueuing?)
  }

  lemma EnqueueActive(c: Config, s: State, p: Pending, now: int, clock: int)
    requires ActiveBy(s, clock) && now <= clock
    ensures ActiveBy(Enqueue(c, s, p, now).state, clock)
  {}

  lemma GoActive(c: Config, l: Locked, la: LockedAction)
    requires ClocksOk(l) && May(c, l, la)
    ensures ActiveBy(Go(c, l, la).sys.st, Go(c, l, la).read)
  {
    if la.Do? && la.action.TakeItem? {
      var t := la.action.t;
      assert ClockOk(l, t);
      EnqueueActive(c, l.sys.st, l.sys.threads[t].pendings[0], l.sys.threads[t].now, l.read);
    }
  }

  lemma GoThreadClock(c: Config, l: Locked, la: LockedAction, t: nat)
    requires ClocksOk(l) && May(c, l, la) && t in Go(c, l, la).sys.threads
    ensures ClockOk(Go(c, l, la), t)
  {
    if t in l.sys.threads { assert ClockOk(l, t); }
    if la.Do? && la.action.TakeItem? { TakeClock(c, l, la.action.t, t); }
  }

  lemma TakeClock(c: Config, l: Locked, taker: nat, t: nat)
    requires ClocksOk(l) && May(c, l, Do(TakeItem(taker))) && t in Go(c, l, Do(TakeItem(taker))).sys.threads
    ensures ClockOk(Go(c, l, Do(TakeItem(taker))), t)
  {
    assert ClockOk(l, taker) && ClockOk(l, t);
  }

  lemma GoHolder(c: Config, l: Locked, la: LockedAction)
    requires ClocksOk(l) && May(c, l, la) && Go(c, l, la).holder.Some?
    ensures var l' := Go(c, l, la); l'.holder.value in l'.sys.threads && l'.sys.threads[l'.holder.value].Enqueuing?
  {
    if l.holder.Some? { assert l.sys.threads[l.holder.value].Enqueuing?; }
  }

  lemma GoClocks(c: Config, l: Locked, la: LockedAction)
    requires ClocksOk(l) && May(c, l, la)
    ensures ClocksOk(Go(c, l, la))
  {
    GoActive(c, l, la);
    forall t <- Go(c, l, la).sys.threads ensures ClockOk(Go(c, l, la), t) {
      GoThreadClock(c, l, la, t);
    }
    if Go(c, l, la).holder.Some? { GoHolder(c, l, la); }
  }

  lemma {:induction false} RunClocks(c: Config, l: Locked, actions: seq<LockedAction>)
    requires ClocksOk(l) && LockedRun(c, l, actions).Some?
    ensures ClocksOk(LockedRun(c, l, actions).value)
    decreases |actions|
  {
    if actions != [] {
      GoClocks(c, l, actions[0]);
      RunClocks(c, Go(c, l, actions[0]), actions[1..]);
    }
  }

  lemma ReachableClocks(c: Config, l: Locked)
    requires LockedReachable(c, l)
    ensures ClocksOk(l)
  {
    var clock, actions :| LockedRun(c, Begun(clock), actions) == Some(l);
    RunClocks(c, Begun(clock), actions);
  }

  // ---- Last activity ----

  /** The run is open before and after, and its last activity has gone back. */
  predicate GoesBack(s: State, s': State, r: string) {
    r in s.runs && r in s'.runs && s'.runs[r].lastActivity < s.runs[r].lastActivity
  }

  /** Only the taking of an item moves a last activity back, only that of the item's
      own run, and only when its call has streamed an item since it read the clock
      and another call has read it in between. */
  lemma BackOnlyAfterStreaming(c: Config, l: Locked, la: LockedAction, r: string)
    requires LockedReachable(c, l) && May(c, l, la) && GoesBack(l.sys.st, Go(c, l, la).sys.st, r)
    ensures la.Do? && la.action.TakeItem?
    ensures var t := la.action.t; var th := l.sys.threads[t];
            t in l.streamed && th.pendings[0].runID == r && th.now < l.read
  {
    ReachableClocks(c, l);
    assert la.Do? && la.action.TakeItem?;
    assert ClockOk(l, la.action.t);
  }
}

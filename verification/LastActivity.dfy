/** When the last activity of a run can go back: `now` is read once per call, and the
    lock is given up to stream (internal/sink/runblock.go:324-345, 407-423, 498-526). */
module LastActivity {
  import opened Basics
  import opened Otlp
  import opened RunBlockFormat
  import opened Bucketing
  import opened RunBlockState
  import opened Interleaving
  import opened Guarantees
  import opened Sequential
  import opened LockedSteps

  /** How many items are taken before the first that is streamed, in one hold of the lock. */
  function FirstStreamed(c: Config, st: State, pendings: seq<Pending>, now: int): (k: nat)
    ensures k <= |pendings|
    decreases |pendings|
  {
    if pendings == [] then 0
    else
      var r := Enqueue(c, st, pendings[0], now);
      if r.stream then 0 else 1 + FirstStreamed(c, r.state, pendings[1..], now)
  }

  /** The state after the first `k` of them. */
  function StateAfter(c: Config, st: State, pendings: seq<Pending>, now: int, k: nat): State
    requires k <= |pendings|
    decreases k
  {
    if k == 0 then st else StateAfter(c, Enqueue(c, st, pendings[0], now).state, pendings[1..], now, k - 1)
  }

  function ThreadOf(a: Action): Option<nat> {
    match a
    case SweepRun(_, _) => None
    case ShutdownRun(_) => None
    case BeginMetrics(t, _) => Some(t)
    case BeginLogs(t, _) => Some(t)
    case BeginTraces(t, _) => Some(t)
    case SortSpan(t) => Some(t)
    case EndSorting(t) => Some(t)
    case Forward(t) => Some(t)
    case ForwardFails(t, _) => Some(t)
    case Acquire(t, _) => Some(t)
    case TakeItem(t) => Some(t)
    case StreamItem(t) => Some(t)
    case Return(t) => Some(t)
  }

  /** The call a step under the lock belongs to. */
  function Actor(la: LockedAction): Option<nat> {
    match la
    case Do(a) => ThreadOf(a)
    case Relock(t) => Some(t)
    case _ => None
  }

  /** No further call is made under the number `t`. */
  predicate SameCall(actions: seq<LockedAction>, t: nat) {
    forall la <- actions :: la.Do? && ThreadOf(la.action) == Some(t) ==>
      !la.action.BeginMetrics? && !la.action.BeginLogs? && !la.action.BeginTraces?
  }

  // ---- One hold of the lock ----

  /** `left` items remain from the first streamed one on. */
  ghost predicate Outlook(c: Config, l: Locked, t: nat, left: nat) {
    t in l.sys.threads ==>
      var th := l.sys.threads[t];
      if t in l.streamed then (th.Enqueuing? || th.Streaming?) && |th.pendings| + 1 <= left
      else th.Enqueuing? && |th.pendings| - FirstStreamed(c, l.sys.st, th.pendings, th.now) == left
  }

  /** While the call holds the lock no other step changes the state. */
  lemma HeldStateStays(c: Config, l: Locked, la: LockedAction, t: nat)
    requires l.holder == Some(t) && May(c, l, la) && (la.Do? ==> ThreadOf(la.action) != Some(t))
    ensures Go(c, l, la).sys.st == l.sys.st
  {}

  lemma OutlookOther(c: Config, l: Locked, la: LockedAction, t: nat, left: nat)
    requires ClocksOk(l) && May(c, l, la) && Outlook(c, l, t, left) && t in l.sys.threads
    requires la.Do? ==> ThreadOf(la.action) != Some(t)
    ensures Outlook(c, Go(c, l, la), t, left)
  {
    assert ClockOk(l, t);
    if t !in l.streamed { HeldStateStays(c, l, la, t); }
  }

  lemma OutlookOwn(c: Config, l: Locked, a: Action, t: nat, left: nat)
    requires ClocksOk(l) && May(c, l, Do(a)) && Outlook(c, l, t, left) && t in l.sys.threads && ThreadOf(a) == Some(t)
    ensures Outlook(c, Go(c, l, Do(a)), t, left)
  {
    assert ClockOk(l, t);
  }

  lemma OutlookAbsent(c: Config, l: Locked, la: LockedAction, t: nat, left: nat)
    requires May(c, l, la) && t !in l.sys.threads && SameCall([la], t)
    ensures t !in Go(c, l, la).sys.threads
  {
    assert la in [la];
  }

  lemma {:induction false} OutlookRun(c: Config, l: Locked, actions: seq<LockedAction>, t: nat, left: nat)
    requires ClocksOk(l) && Outlook(c, l, t, left) && SameCall(actions, t) && LockedRun(c, l, actions).Some?
    ensures Outlook(c, LockedRun(c, l, actions).value, t, left)
    decreases |actions|
  {
    if actions != [] {
      var la := actions[0];
      GoClocks(c, l, la);
      if t !in l.sys.threads {
        OutlookAbsent(c, l, la, t, left);
      } else if la.Do? && ThreadOf(la.action) == Some(t) {
        OutlookOwn(c, l, la.action, t, left);
      } else {
        OutlookOther(c, l, la, t, left);
      }
      OutlookRun(c, Go(c, l, la), actions[1..], t, left);
    }
  }

  /** The call takes items until it has one to stream, and gives up the lock. */
  lemma {:induction false} HoldUntilStream(c: Config, l: Locked, t: nat) returns (actions: seq<LockedAction>)
    requires l.holder == Some(t) && t in l.sys.threads && l.sys.threads[t].Enqueuing?
    requires var th := l.sys.threads[t]; FirstStreamed(c, l.sys.st, th.pendings, th.now) < |th.pendings|
    ensures var th := l.sys.threads[t]; var k := FirstStreamed(c, l.sys.st, th.pendings, th.now);
            && SameCall(actions, t) && LockedRun(c, l, actions).Some?
            && var l' := LockedRun(c, l, actions).value;
               && l'.holder == None && l'.clock == l.clock && l'.streamed == l.streamed + {t} && SweeperAsBefore(l, l')
               && l'.sys.st == StateAfter(c, l.sys.st, th.pendings, th.now, k + 1)
               && l'.sys.threads == l.sys.threads[t := Streaming(th.pendings[k].runID, th.pendings[k].item, th.pendings[k + 1..], th.now)]
    decreases |l.sys.threads[t].pendings|
  {
    var th := l.sys.threads[t];
    var l1 := Go(c, l, Do(TakeItem(t)));
    var r := Enqueue(c, l.sys.st, th.pendings[0], th.now);
    if r.stream {
      actions := [Do(TakeItem(t))];
      assert actions[1..] == [];
      assert StateAfter(c, r.state, th.pendings[1..], th.now, 0) == r.state;
    } else {
      var rest := HoldUntilStream(c, l1, t);
      LockedCons(c, l, Do(TakeItem(t)), rest);
      actions := [Do(TakeItem(t))] + rest;
      var k := FirstStreamed(c, r.state, th.pendings[1..], th.now);
      assert th.pendings[1..][k + 1..] == th.pendings[k + 2..];
    }
  }

  // ---- Another call meanwhile ----

  /** A log record that names its run. */
  function LogOf(run: string): LogRecord {
    LogRecord(0, 0, None, [KeyValue("run.id", Some(StringValue(run)))])
  }

  function ItemOf(run: string): Pending {
    Pending(run, RunBlockItem(0, LogItem(LogOf(run))))
  }

  lemma NamedRun(e: Entry<LogRecord>, run: string)
    requires run != "" && e.record == LogOf(run)
    ensures LogRun(e) == run && LogPending(e) == ItemOf(run)
  {}

  lemma LogBegins(c: Config, s: Sys, t: nat, run: string)
    requires t !in s.threads && run != ""
    ensures var s' := Next(c, s, BeginLogs(t, Single(None, LogOf(run))));
            s'.threads == s.threads[t := Forwarding([], [ItemOf(run)])] && s'.st == s.st
  {
    SingleEntries(None, LogOf(run));
    var e := Entry(Key(None, "", None, ""), LogOf(run));
    NamedRun(e, run);
    assert [e][..0] == [];
    assert KeptLogs([e]) == KeptLogs([]) == [];
    assert PendingLogs([e]) == PendingLogs([]) + [LogPending(e)] == [LogPending(e)];
  }

  /** All of another thread's. */
  predicate OthersOnly(actions: seq<LockedAction>, t: nat) {
    forall la <- actions :: Actor(la) != Some(t)
  }

  predicate SweeperAsBefore(l: Locked, l': Locked) {
    l'.sweep == l.sweep && l'.phase == l.phase
  }

  /** What a call leaves to the others. */
  ghost predicate Aside(l: Locked, l': Locked, u: nat, clock: int) {
    && l'.holder == None && l'.clock == l'.read == clock && l'.sys.threads == l.sys.threads && l'.streamed - {u} == l.streamed - {u}
    && SweeperAsBefore(l, l')
  }

  predicate OwnedBy(actions: seq<LockedAction>, u: nat) {
    forall la <- actions :: Actor(la) == Some(u)
  }

  /** The call comes to wait for the lock. */
  lemma LogCallWaits(c: Config, l: Locked, u: nat, run: string) returns (actions: seq<LockedAction>)
    requires u !in l.sys.threads && run != ""
    ensures LockedRun(c, l, actions).Some? && OwnedBy(actions, u)
    ensures var l' := LockedRun(c, l, actions).value;
            && l'.sys.st == l.sys.st && l'.sys.threads == l.sys.threads[u := Waiting([ItemOf(run)])]
            && l'.holder == l.holder && l'.clock == l.clock && l'.streamed == l.streamed && SweeperAsBefore(l, l')
  {
    var first, l1 := LogCallBegins(c, l, u, run);
    ForwardsNothing(c, l1, u, [ItemOf(run)]);
    LockedSnoc(c, l, first, Do(Forward(u)));
    actions := first + [Do(Forward(u))];
  }

  lemma LogCallBegins(c: Config, l: Locked, u: nat, run: string) returns (actions: seq<LockedAction>, l': Locked)
    requires u !in l.sys.threads && run != ""
    ensures LockedRun(c, l, actions) == Some(l') && OwnedBy(actions, u) && Begins(l, l', u, run)
  {
    var begin := Do(BeginLogs(u, Single(None, LogOf(run))));
    LogBegins(c, l.sys, u, run);
    OneStep(c, l, begin);
    actions, l' := [begin], Go(c, l, begin);
  }

  ghost predicate Begins(l: Locked, l': Locked, u: nat, run: string) {
    && l'.sys.st == l.sys.st && l'.sys.threads == l.sys.threads[u := Forwarding([], [ItemOf(run)])]
    && l'.holder == l.holder && l'.clock == l.clock && l'.streamed == l.streamed && SweeperAsBefore(l, l')
  }

  lemma OneStep(c: Config, l: Locked, la: LockedAction)
    requires May(c, l, la)
    ensures LockedRun(c, l, [la]) == Some(Go(c, l, la))
  {
    assert [la][1..] == [];
  }

  lemma ForwardsNothing(c: Config, l: Locked, u: nat, pendings: seq<Pending>)
    requires u in l.sys.threads && l.sys.threads[u] == Forwarding([], pendings)
    ensures May(c, l, Do(Forward(u)))
    ensures Go(c, l, Do(Forward(u))) == l.(sys := l.sys.(threads := l.sys.threads[u := Waiting(pendings)]))
  {}

  /** It takes the lock and its item. */
  lemma LogCallTakes(c: Config, l: Locked, u: nat, run: string, now: int) returns (actions: seq<LockedAction>)
    requires l.holder == None && u in l.sys.threads && l.sys.threads[u] == Waiting([ItemOf(run)]) && l.clock <= now
    ensures LockedRun(c, l, actions).Some? && OwnedBy(actions, u)
    ensures var l' := LockedRun(c, l, actions).value; var r := Enqueue(c, l.sys.st, ItemOf(run), now);
            && l'.clock == l'.read == now && l'.sys.st == r.state && l'.holder == (if r.stream then None else Some(u))
            && l'.sys.threads == l.sys.threads[u := if r.stream then Streaming(run, ItemOf(run).item, [], now) else Enqueuing([], now)]
            && l'.streamed - {u} == l.streamed - {u} && SweeperAsBefore(l, l')
  {
    var acquire, take := Do(Acquire(u, now)), Do(TakeItem(u));
    actions := [acquire, take];
    assert actions[1..] == [take] && [take][1..] == [];
    assert [ItemOf(run)][1..] == [];
    var l1 := Go(c, l, acquire);
    assert LockedRun(c, l1, [take]) == LockedRun(c, Go(c, l1, take), []);
  }

  /** It returns, once it has streamed the item if it had to. */
  lemma LogCallReturns(c: Config, l: Locked, u: nat) returns (actions: seq<LockedAction>)
    requires u in l.sys.threads && l.sys.threads[u].pendings == []
    requires (l.sys.threads[u].Streaming? && l.holder == None) || (l.sys.threads[u].Enqueuing? && l.holder == Some(u))
    ensures LockedRun(c, l, actions).Some? && OwnedBy(actions, u)
    ensures var l' := LockedRun(c, l, actions).value;
            && l'.sys.st == l.sys.st && l'.holder == None && l'.clock == l.clock && l'.read == l.read
            && l'.sys.threads == l.sys.threads - {u} && l'.streamed == l.streamed && SweeperAsBefore(l, l')
    decreases if l.sys.threads[u].Streaming? then 1 else 0
  {
    if l.sys.threads[u].Enqueuing? {
      actions := [Do(Return(u))];
      assert actions[1..] == [];
    } else {
      var l1 := Go(c, l, Do(StreamItem(u)));
      var l2 := Go(c, l1, Relock(u));
      var rest := LogCallReturns(c, l2, u);
      LockedCons(c, l1, Relock(u), rest);
      LockedCons(c, l, Do(StreamItem(u)), [Relock(u)] + rest);
      actions := [Do(StreamItem(u))] + ([Relock(u)] + rest);
      assert l2.sys.threads - {u} == l.sys.threads - {u};
    }
  }

  /** Its item is in and the call is about to return or to stream it. */
  ghost predicate Nearly(l: Locked, u: nat) {
    && u in l.sys.threads && l.sys.threads[u].pendings == []
    && if l.holder.None? then l.sys.threads[u].Streaming? else l.holder == Some(u) && l.sys.threads[u].Enqueuing?
  }

  /** It comes, takes the lock and its item. */
  lemma LogCallComes(c: Config, l: Locked, u: nat, run: string, now: int) returns (actions: seq<LockedAction>)
    requires l.holder == None && u !in l.sys.threads && l.clock <= now && run != ""
    ensures LockedRun(c, l, actions).Some? && OwnedBy(actions, u)
    ensures var l' := LockedRun(c, l, actions).value;
            && Nearly(l', u) && l'.clock == l'.read == now && l'.sys.st == Enqueue(c, l.sys.st, ItemOf(run), now).state
            && l'.sys.threads - {u} == l.sys.threads && l'.streamed - {u} == l.streamed - {u} && SweeperAsBefore(l, l')
  {
    var first := LogCallWaits(c, l, u, run);
    var l1 := LockedRun(c, l, first).value;
    var second := LogCallTakes(c, l1, u, run, now);
    var l2 := LockedRun(c, l1, second).value;
    LockedAppend(c, l, first, second);
    actions := first + second;
    assert l2.sys.threads - {u} == l.sys.threads;
  }

  /** One log record of a run in a call of its own, while no one has the lock. */
  lemma OneLogCall(c: Config, l: Locked, u: nat, run: string, now: int) returns (actions: seq<LockedAction>)
    requires l.holder == None && u !in l.sys.threads && l.clock <= now && run != ""
    ensures LockedRun(c, l, actions).Some? && Aside(l, LockedRun(c, l, actions).value, u, now)
    ensures LockedRun(c, l, actions).value.sys.st == Enqueue(c, l.sys.st, ItemOf(run), now).state
    ensures OwnedBy(actions, u)
  {
    var first := LogCallComes(c, l, u, run, now);
    var l1 := LockedRun(c, l, first).value;
    var second := LogCallReturns(c, l1, u);
    LockedAppend(c, l, first, second);
    actions := first + second;
  }

  /** There is always a number left for another call. */
  lemma {:induction false} NumberLeft(used: set<nat>) returns (u: nat)
    ensures forall n <- used :: n < u
    decreases |used|
  {
    if used == {} {
      u := 0;
    } else {
      var n :| n in used;
      var v := NumberLeft(used - {n});
      u := if v <= n then n + 1 else v;
      assert forall m <- used :: m == n || m in used - {n};
    }
  }

  // ---- A stale reading ----

  /** The call is about to take an item with a reading that is not the latest of a call. */
  ghost predicate TakesStale(c: Config, l: Locked, t: nat) {
    May(c, l, Do(TakeItem(t))) && l.sys.threads[t].now < l.read
  }

  ghost predicate ComesToStale(c: Config, l: Locked, t: nat, actions: seq<LockedAction>) {
    SameCall(actions, t) && LockedRun(c, l, actions).Some? && TakesStale(c, LockedRun(c, l, actions).value, t)
  }

  lemma OwnedByOther(actions: seq<LockedAction>, u: nat, t: nat)
    requires OwnedBy(actions, u) && u != t
    ensures OthersOnly(actions, t) && SameCall(actions, t)
  {}

  /** Another call comes and goes while this one streams. */
  lemma Interlude(c: Config, l: Locked, t: nat, run: string, later: int) returns (actions: seq<LockedAction>)
    requires l.holder == None && l.clock <= later && run != ""
    ensures LockedRun(c, l, actions).Some? && OthersOnly(actions, t) && SameCall(actions, t)
    ensures var l' := LockedRun(c, l, actions).value;
            && l'.holder == None && l'.clock == l'.read == later && l'.sys.threads == l.sys.threads
            && l'.sys.st == Enqueue(c, l.sys.st, ItemOf(run), later).state && SweeperAsBefore(l, l')
  {
    var u := NumberLeft(l.sys.threads.Keys + {t});
    actions := OneLogCall(c, l, u, run, later);
    OwnedByOther(actions, u, t);
  }

  /** The call streams its item and takes the lock again. */
  lemma StreamsAndRelocks(c: Config, l: Locked, t: nat)
    requires l.holder == None && t in l.sys.threads && l.sys.threads[t].Streaming?
    ensures var actions := [Do(StreamItem(t)), Relock(t)];
            && SameCall(actions, t) && LockedRun(c, l, actions).Some?
            && var l' := LockedRun(c, l, actions).value; var th := l.sys.threads[t];
               && l'.holder == Some(t) && l'.clock == l.clock && l'.read == l.read && l'.sys.st == l.sys.st
               && t in l'.sys.threads && l'.sys.threads[t] == Enqueuing(th.pendings, th.now)
  {
    var l1 := Go(c, l, Do(StreamItem(t)));
    assert [Do(StreamItem(t)), Relock(t)][1..] == [Relock(t)] && [Relock(t)][1..] == [];
    assert LockedRun(c, l1, [Relock(t)]) == LockedRun(c, Go(c, l1, Relock(t)), []);
  }

  lemma StaleAfterStream(c: Config, l: Locked, t: nat) returns (actions: seq<LockedAction>)
    requires l.holder == None && t in l.sys.threads && l.sys.threads[t].Streaming?
    requires l.sys.threads[t].pendings != [] && l.sys.threads[t].now <= l.clock
    ensures ComesToStale(c, l, t, actions)
  {
    var first := Interlude(c, l, t, "r", l.clock + 1);
    var l1 := LockedRun(c, l, first).value;
    StreamsAndRelocks(c, l1, t);
    LockedAppend(c, l, first, [Do(StreamItem(t)), Relock(t)]);
    actions := first + [Do(StreamItem(t)), Relock(t)];
  }

  /** From the first streamed item on, another call can read the clock. */
  lemma StaleSchedule(c: Config, l: Locked, t: nat) returns (actions: seq<LockedAction>)
    requires l.holder == Some(t) && t in l.sys.threads && l.sys.threads[t].Enqueuing? && l.sys.threads[t].now <= l.clock
    requires var th := l.sys.threads[t]; FirstStreamed(c, l.sys.st, th.pendings, th.now) + 1 < |th.pendings|
    ensures ComesToStale(c, l, t, actions)
  {
    var first := HoldUntilStream(c, l, t);
    var rest := StaleAfterStream(c, LockedRun(c, l, first).value, t);
    LockedAppend(c, l, first, rest);
    actions := first + rest;
  }

  /** A call waits for the lock, with these items. */
  ghost predicate AboutToRead(c: Config, l: Locked, t: nat, pendings: seq<Pending>, now: int) {
    && LockedReachable(c, l) && l.holder == None && l.clock <= now
    && t in l.sys.threads && l.sys.threads[t] == Waiting(pendings) && pendings != []
  }

  /** Whatever the other calls do, a call takes every item with the latest reading of
      any call if and only if, handled from the state in which it reads the clock,
      none of its items but the last is streamed. */
  lemma StaleReadingIff(c: Config, l: Locked, t: nat, pendings: seq<Pending>, now: int)
    requires AboutToRead(c, l, t, pendings, now)
    ensures var l1 := Go(c, l, Do(Acquire(t, now)));
            (exists actions :: ComesToStale(c, l1, t, actions)) <==> FirstStreamed(c, l.sys.st, pendings, now) + 1 < |pendings|
  {
    var l1 := Go(c, l, Do(Acquire(t, now)));
    var left := |pendings| - FirstStreamed(c, l.sys.st, pendings, now);
    if left > 1 {
      var actions := StaleSchedule(c, l1, t);
    }
    if actions :| ComesToStale(c, l1, t, actions) {
      ReachableClocks(c, l);
      GoClocks(c, l, Do(Acquire(t, now)));
      OutlookRun(c, l1, actions, t, left);
      RunClocks(c, l1, actions);
      assert ClockOk(LockedRun(c, l1, actions).value, t);
    }
  }

  /** So a call none of whose items is streamed moves no run's last activity back,
      whatever the other calls do. */
  lemma NoneStreamedNeverBack(c: Config, l: Locked, t: nat, pendings: seq<Pending>, now: int, actions: seq<LockedAction>, r: string)
    requires AboutToRead(c, l, t, pendings, now) && FirstStreamed(c, l.sys.st, pendings, now) == |pendings|
    requires SameCall(actions, t) && LockedRun(c, Go(c, l, Do(Acquire(t, now))), actions).Some?
    ensures var l' := LockedRun(c, Go(c, l, Do(Acquire(t, now))), actions).value;
            May(c, l', Do(TakeItem(t))) ==> !GoesBack(l'.sys.st, Go(c, l', Do(TakeItem(t))).sys.st, r)
  {
    var l1 := Go(c, l, Do(Acquire(t, now)));
    var l' := LockedRun(c, l1, actions).value;
    if May(c, l', Do(TakeItem(t))) && GoesBack(l'.sys.st, Go(c, l', Do(TakeItem(t))).sys.st, r) {
      OneStep(c, l, Do(Acquire(t, now)));
      LockedThen(c, l, [Do(Acquire(t, now))]);
      LockedThen(c, l1, actions);
      BackOnlyAfterStreaming(c, l', Do(TakeItem(t)), r);
      assert ComesToStale(c, l1, t, actions);
      StaleReadingIff(c, l, t, pendings, now);
    }
  }

  // ---- A sweep meanwhile ----

  lemma {:induction false} OrderOf(ids: set<string>) returns (order: seq<string>)
    ensures Distinct(order) && forall r :: r in order <==> r in ids
    decreases |ids|
  {
    if ids == {} {
      order := [];
    } else {
      var r :| r in ids;
      var rest := OrderOf(ids - {r});
      order := [r] + rest;
    }
  }

  /** A sweep that has read the clock is done with it. */
  lemma SweepDone(c: Config, l: Locked) returns (la: LockedAction)
    requires l.holder == None && l.sweep.Some?
    ensures May(c, l, la) && la.SweepAll?
    ensures var l' := Go(c, l, la);
            l'.sweep == None && l'.sys.st == Without(l.sys.st, IdleRuns(c, l.sys.st, l.sweep.value))
              && l'.holder == None && l'.phase == l.phase && l'.clock == l.clock && l'.sys.threads == l.sys.threads
  {
    var order := OrderOf(IdleRuns(c, l.sys.st, l.sweep.value));
    la := SweepAll(order, l.sweep.value);
    assert IdSet(order) == IdleRuns(c, l.sys.st, l.sweep.value);
  }

  /** What a sweep leaves as it was. */
  ghost predicate OnlyFlushed(l: Locked, l': Locked) {
    && l'.holder == None && l'.phase == l.phase && l'.sys.threads == l.sys.threads && l'.clock >= l.clock
    && l'.sys.st.truncated == l.sys.st.truncated && l'.sys.st.runs.Keys <= l.sys.st.runs.Keys
  }

  /** A sweep that is under way, if there is one. */
  lemma SweeperFree(c: Config, l: Locked, t: nat) returns (actions: seq<LockedAction>)
    requires l.holder == None
    ensures LockedRun(c, l, actions).Some? && OthersOnly(actions, t)
    ensures var l' := LockedRun(c, l, actions).value; OnlyFlushed(l, l') && l'.sweep == None
  {
    actions := [];
    if l.sweep.Some? {
      var la := SweepDone(c, l);
      OneStep(c, l, la);
      actions := [la];
    }
  }

  /** The run is closed, by a sweep late enough if it is open. */
  lemma Cleared(c: Config, l: Locked, t: nat, r: string) returns (actions: seq<LockedAction>)
    requires l.holder == None && (r in l.sys.st.runs ==> l.phase.Running?)
    ensures LockedRun(c, l, actions).Some? && OthersOnly(actions, t)
    ensures var l' := LockedRun(c, l, actions).value;
            OnlyFlushed(l, l') && r !in l'.sys.st.runs && (r !in l.sys.st.runs ==> l' == l)
  {
    actions := [];
    if r in l.sys.st.runs {
      var first := SweeperFree(c, l, t);
      var l1 := LockedRun(c, l, first).value;
      var due := if r in l1.sys.st.runs then l1.sys.st.runs[r].lastActivity + c.idleTimeout else l1.clock;
      var tick := Tick(if due < l1.clock then l1.clock else due);
      LockedSnoc(c, l, first, tick);
      var l2 := Go(c, l1, tick);
      var sweep := SweepDone(c, l2);
      LockedSnoc(c, l, first + [tick], sweep);
      actions := first + [tick] + [sweep];
    }
  }

  // ---- The next item behind a streamed one ----

  /** Other threads act, the call takes the lock again, and taking its next item moves
      the last activity of the item's run back. */
  ghost predicate NextGoesBack(c: Config, l: Locked, t: nat, actions: seq<LockedAction>) {
    && (forall la <- actions :: la.Do? ==> ThreadOf(la.action) != Some(t))
    && LockedRun(c, l, actions).Some?
    && var l' := LockedRun(c, l, actions).value;
       May(c, l', Do(TakeItem(t)))
         && GoesBack(l'.sys.st, Go(c, l', Do(TakeItem(t))).sys.st, l'.sys.threads[t].pendings[0].runID)
  }

  lemma OtherStepKeeps(c: Config, l: Locked, t: nat, la: LockedAction)
    requires t in l.sys.threads && May(c, l, la) && (la.Do? ==> ThreadOf(la.action) != Some(t))
    ensures var l' := Go(c, l, la);
            t in l'.sys.threads && l'.sys.threads[t] == l.sys.threads[t] && l.sys.st.truncated <= l'.sys.st.truncated
  {
    if la.Do? { StepTruncates(c, l.sys, la.action); }
  }

  lemma StepTruncates(c: Config, s: Sys, a: Action)
    requires Enabled(c, s, a)
    ensures s.st.truncated <= Next(c, s, a).st.truncated
  {}

  lemma {:induction false} OthersKeep(c: Config, l: Locked, t: nat, actions: seq<LockedAction>)
    requires t in l.sys.threads && LockedRun(c, l, actions).Some?
    requires forall la <- actions :: la.Do? ==> ThreadOf(la.action) != Some(t)
    ensures var l' := LockedRun(c, l, actions).value;
            t in l'.sys.threads && l'.sys.threads[t] == l.sys.threads[t] && l.sys.st.truncated <= l'.sys.st.truncated
    decreases |actions|
  {
    if actions != [] {
      OtherStepKeeps(c, l, t, actions[0]);
      OthersKeep(c, Go(c, l, actions[0]), t, actions[1..]);
    }
  }

  /** The run is swept if it is open, and opened again by another call. */
  lemma Reopened(c: Config, l: Locked, t: nat, r: string, least: int) returns (actions: seq<LockedAction>)
    requires c.maxItems >= 2 && l.holder == None && r !in l.sys.st.truncated && r != ""
    requires r in l.sys.st.runs ==> l.phase.Running?
    ensures LockedRun(c, l, actions).Some? && OthersOnly(actions, t)
    ensures var l' := LockedRun(c, l, actions).value;
            && l'.holder == None && l'.sys.threads == l.sys.threads
            && r in l'.sys.st.runs && r !in l'.sys.st.truncated && |l'.sys.st.runs[r].items| == 1
            && l'.sys.st.runs[r].lastActivity >= least
            && (r !in l.sys.st.runs && l.clock <= least ==> l'.sys.st.runs[r].lastActivity == least)
  {
    var first := Cleared(c, l, t, r);
    var l1 := LockedRun(c, l, first).value;
    var later := if l1.clock < least then least else l1.clock;
    var second := Interlude(c, l1, t, r, later);
    LockedAppend(c, l, first, second);
    actions := first + second;
  }

  lemma TakesReopened(c: Config, l: Locked, t: nat)
    requires c.maxItems >= 2 && May(c, l, Do(TakeItem(t)))
    requires var p := l.sys.threads[t].pendings[0];
             && p.runID in l.sys.st.runs && p.runID !in l.sys.st.truncated && |l.sys.st.runs[p.runID].items| == 1
             && !EndsRun(p.item) && l.sys.threads[t].now < l.sys.st.runs[p.runID].lastActivity
    ensures var p, l' := l.sys.threads[t].pendings[0], Go(c, l, Do(TakeItem(t)));
            && GoesBack(l.sys.st, l'.sys.st, p.runID) && l'.sys.st.runs[p.runID].lastActivity == l.sys.threads[t].now
  {
    ArriveItems(c, l.sys.st, l.sys.threads[t].pendings[0], l.sys.threads[t].now);
  }

  lemma BackSchedule(c: Config, l: Locked, t: nat, least: int) returns (actions: seq<LockedAction>)
    requires c.maxItems >= 2 && l.holder == None && t in l.sys.threads && l.sys.threads[t].Enqueuing? && l.sys.threads[t].pendings != []
    requires var p := l.sys.threads[t].pendings[0]; p.runID !in l.sys.st.truncated && p.runID != "" && !EndsRun(p.item)
    requires l.sys.threads[t].now < least && (l.sys.threads[t].pendings[0].runID in l.sys.st.runs ==> l.phase.Running?)
    ensures NextGoesBack(c, l, t, actions)
    ensures var r, l' := l.sys.threads[t].pendings[0].runID, LockedRun(c, l, actions).value;
            && r in l'.sys.st.runs && r in Go(c, l', Do(TakeItem(t))).sys.st.runs
            && Go(c, l', Do(TakeItem(t))).sys.st.runs[r].lastActivity == l.sys.threads[t].now
            && (r !in l.sys.st.runs && l.clock <= least ==> l'.sys.st.runs[r].lastActivity == least)
  {
    var r := l.sys.threads[t].pendings[0].runID;
    var first := Reopened(c, l, t, r, least);
    var l1 := LockedRun(c, l, first).value;
    LockedSnoc(c, l, first, Relock(t));
    TakesReopened(c, Go(c, l1, Relock(t)), t);
    actions := first + [Relock(t)];
  }

  // ---- Items have runs ----

  ghost predicate Named(pendings: seq<Pending>) {
    forall p <- pendings :: p.runID != ""
  }

  lemma {:induction false} PendingPointsNamed(name: string, kind: MetricKind, resourceAttrs: seq<KeyValue>, dps: seq<DataPoint>, resourceRun: string)
    ensures Named(PendingPoints(name, kind, resourceAttrs, dps, resourceRun))
  {
    if dps != [] { PendingPointsNamed(name, kind, resourceAttrs, dps[..|dps| - 1], resourceRun); }
  }

  lemma {:induction false} PendingMetricsNamed(es: seq<Entry<Metric>>)
    ensures Named(PendingMetrics(es))
  {
    if es != [] {
      var last := es[|es| - 1];
      PendingMetricsNamed(es[..|es| - 1]);
      if last.record.data.Points? {
        PendingPointsNamed(last.record.name, last.record.data.kind, MetricAttrs(last), last.record.data.points, MetricRun(last));
      }
      assert Named(PendingEntry(last));
    }
  }

  lemma {:induction false} PendingLogsNamed(es: seq<Entry<LogRecord>>)
    ensures Named(PendingLogs(es))
  {
    if es != [] { PendingLogsNamed(es[..|es| - 1]); }
  }

  ghost predicate AllNamed(s: Sys) {
    forall t <- s.threads :: Named(s.threads[t].pendings)
  }

  lemma NextNamed(c: Config, s: Sys, a: Action)
    requires AllNamed(s) && Enabled(c, s, a)
    ensures AllNamed(Next(c, s, a))
  {
    match a
    case BeginMetrics(_, req) => PendingMetricsNamed(Entries(req));
    case BeginLogs(_, req) => PendingLogsNamed(Entries(req));
    case _ =>
  }

  lemma {:induction false} RunNamed(c: Config, s: Sys, actions: seq<Action>)
    requires AllNamed(s) && Run(c, s, actions).Some?
    ensures AllNamed(Run(c, s, actions).value)
    decreases |actions|
  {
    if actions != [] {
      NextNamed(c, s, actions[0]);
      RunNamed(c, Next(c, s, actions[0]), actions[1..]);
    }
  }

  lemma ReachableNamed(c: Config, s: Sys)
    requires Reachable(c, s)
    ensures AllNamed(s)
  {
    var actions :| Run(c, INITIAL, actions) == Some(s);
    RunNamed(c, INITIAL, actions);
  }

  /** A call that has streamed an item and is to take the lock again. */
  ghost predicate BetweenHolds(c: Config, l: Locked, t: nat) {
    && Configured(c) && LockedReachable(c, l) && l.holder == None
    && t in l.sys.threads && l.sys.threads[t].Enqueuing? && l.sys.threads[t].pendings != []
  }

  lemma NextRunIsNamed(c: Config, l: Locked, t: nat)
    requires BetweenHolds(c, l, t)
    ensures l.sys.threads[t].pendings[0].runID != ""
  {
    LockedIsReachable(c, l);
    ReachableNamed(c, l.sys);
    assert l.sys.threads[t].pendings[0] in l.sys.threads[t].pendings;
  }

  lemma NextBackOnlyIf(c: Config, l: Locked, t: nat, actions: seq<LockedAction>)
    requires BetweenHolds(c, l, t) && NextGoesBack(c, l, t, actions)
    ensures var p := l.sys.threads[t].pendings[0];
            c.maxItems >= 2 && p.runID !in l.sys.st.truncated && !EndsRun(p.item)
  {
    var l' := LockedRun(c, l, actions).value;
    OthersKeep(c, l, t, actions);
    LockedThen(c, l, actions);
    LockedIsReachable(c, l');
    LockInvariant(c, l'.sys, l.sys.threads[t].pendings[0].runID);
    ArriveItems(c, l'.sys.st, l.sys.threads[t].pendings[0], l.sys.threads[t].now);
  }

  /** Behind every streamed item, before Shutdown begins: other calls and sweeps can bring
      about that the next item moves its run's last activity back if and only if the
      item's run is not truncated, the item does not end it, and a buffer can hold two
      items. */
  lemma NextBackIff(c: Config, l: Locked, t: nat)
    requires BetweenHolds(c, l, t) && l.phase.Running?
    ensures var p := l.sys.threads[t].pendings[0];
            (exists actions :: NextGoesBack(c, l, t, actions))
              <==> c.maxItems >= 2 && p.runID !in l.sys.st.truncated && !EndsRun(p.item)
  {
    var p, now := l.sys.threads[t].pendings[0], l.sys.threads[t].now;
    if c.maxItems >= 2 && p.runID !in l.sys.st.truncated && !EndsRun(p.item) {
      NextRunIsNamed(c, l, t);
      var actions := BackSchedule(c, l, t, if now < l.clock then l.clock else now + 1);
    }
    if actions :| NextGoesBack(c, l, t, actions) {
      NextBackOnlyIf(c, l, t, actions);
    }
  }

  /** The call holds the lock until it has streamed its first item to be streamed. */
  lemma StreamsFirst(c: Config, l: Locked, t: nat) returns (actions: seq<LockedAction>)
    requires l.holder == Some(t) && t in l.sys.threads && l.sys.threads[t].Enqueuing?
    requires var th := l.sys.threads[t]; FirstStreamed(c, l.sys.st, th.pendings, th.now) < |th.pendings|
    ensures var th := l.sys.threads[t]; var k := FirstStreamed(c, l.sys.st, th.pendings, th.now);
            && SameCall(actions, t) && LockedRun(c, l, actions).Some?
            && var l' := LockedRun(c, l, actions).value;
               && l'.holder == None && t in l'.sys.threads && l'.sys.threads[t] == Enqueuing(th.pendings[k + 1..], th.now)
               && SweeperAsBefore(l, l') && l'.sys.st == StateAfter(c, l.sys.st, th.pendings, th.now, k + 1)
  {
    var hold := HoldUntilStream(c, l, t);
    var l1 := LockedRun(c, l, hold).value;
    LockedSnoc(c, l, hold, Do(StreamItem(t)));
    actions := hold + [Do(StreamItem(t))];
  }

  // ---- A schedule ----

  /** The run q is filled, one log record a call, all at one reading of the clock. */
  lemma {:induction false} FillQ(c: Config, clock: int, k: nat) returns (l: Locked)
    requires Configured(c) && k <= c.maxItems
    ensures LockedReachable(c, l) && l.holder == None && l.clock == clock && l.sys.threads == map[]
    ensures l.sys.st.truncated == {} && l.sys.st.traceToRun == map[] && l.sys.st.runs.Keys <= {"q"} && |OpenItems(l.sys.st, "q")| == k
  {
    if k == 0 {
      l := Begun(clock);
      assert LockedRun(c, Begun(clock), []) == Some(l);
    } else {
      var m := FillQ(c, clock, k - 1);
      var actions := OneLogCall(c, m, 0, "q", clock);
      LockedThen(c, m, actions);
      l := LockedRun(c, m, actions).value;
      ArriveItems(c, m.sys.st, ItemOf("q"), clock);
    }
  }

  /** One record more truncates it. */
  lemma TruncateQ(c: Config, clock: int) returns (l: Locked)
    requires Configured(c)
    ensures LockedReachable(c, l) && l.holder == None && l.clock == clock && l.sys.threads == map[]
    ensures l.sys.st == State(map[], map[], {"q"})
  {
    var m := FillQ(c, clock, c.maxItems);
    var actions := OneLogCall(c, m, 0, "q", clock);
    LockedThen(c, m, actions);
    l := LockedRun(c, m, actions).value;
    ArriveItems(c, m.sys.st, ItemOf("q"), clock);
    assert m.sys.st.runs - {"q"} == map[] && WithoutRun(map[], "q") == map[];
  }

  /** A request with a record of the truncated run and one of another. */
  const TWO_LOGS: Request<LogRecord> := OneScope(None, [LogOf("q"), LogOf("r")])

  lemma BothPending(e: Entry<LogRecord>, f: Entry<LogRecord>)
    requires LogRun(e) != "" && LogRun(f) != ""
    ensures KeptLogs([e, f]) == [] && PendingLogs([e, f]) == [LogPending(e), LogPending(f)]
  {
    LogsNext([], e);
    LogsNext([e], f);
    assert [] + [e] == [e] && [e] + [f] == [e, f];
    assert PendingLogs([e]) == [] + [LogPending(e)] == [LogPending(e)];
  }

  lemma TwoLogs()
    ensures KeptLogs(Entries(TWO_LOGS)) == [] && PendingLogs(Entries(TWO_LOGS)) == [ItemOf("q"), ItemOf("r")]
  {
    var key := Key(None, "", None, "");
    var e, f := Entry(key, LogOf("q")), Entry(key, LogOf("r"));
    OneScopeEntries(None, [LogOf("q"), LogOf("r")]);
    assert Entries(TWO_LOGS) == [e, f];
    NamedRun(e, "q");
    NamedRun(f, "r");
    BothPending(e, f);
  }

  lemma TwoLogsBegin(c: Config, l: Locked)
    requires l.sys.threads == map[]
    ensures var begin := Do(BeginLogs(1, TWO_LOGS));
            && May(c, l, begin)
            && var m := Go(c, l, begin);
               && m.sys.threads == map[1 := Forwarding([], [ItemOf("q"), ItemOf("r")])]
               && m.sys.st == l.sys.st && m.holder == l.holder && m.clock == l.clock
  {
    TwoLogs();
  }

  /** It begins and comes to wait for the lock. */
  lemma TwoLogsWait(c: Config, l: Locked) returns (l': Locked)
    requires LockedReachable(c, l) && l.sys.threads == map[]
    ensures LockedReachable(c, l') && l'.holder == l.holder && l'.clock == l.clock && l'.sys.st == l.sys.st
    ensures l'.sys.threads == map[1 := Waiting([ItemOf("q"), ItemOf("r")])]
  {
    var begin := Do(BeginLogs(1, TWO_LOGS));
    TwoLogsBegin(c, l);
    OneStep(c, l, begin);
    LockedThen(c, l, [begin]);
    var m := Go(c, l, begin);
    ForwardsNothing(c, m, 1, [ItemOf("q"), ItemOf("r")]);
    OneStep(c, m, Do(Forward(1)));
    LockedThen(c, m, [Do(Forward(1))]);
    l' := Go(c, m, Do(Forward(1)));
  }

  /** It reads the clock and takes the first item, which it has to stream. */
  lemma FirstTaken(c: Config, l: Locked, now: int) returns (l': Locked)
    requires LockedReachable(c, l) && l.holder == None && l.clock == now && l.sys.st == State(map[], map[], {"q"})
    requires l.sys.threads == map[1 := Waiting([ItemOf("q"), ItemOf("r")])]
    ensures LockedReachable(c, l') && l'.holder == None && l'.clock == now && l'.sys.st == l.sys.st
    ensures l'.sys.threads == map[1 := Streaming("q", ItemOf("q").item, [ItemOf("r")], now)]
  {
    var acquire, take := Do(Acquire(1, now)), Do(TakeItem(1));
    OneStep(c, l, acquire);
    LockedThen(c, l, [acquire]);
    var m := Go(c, l, acquire);
    OneStep(c, m, take);
    LockedThen(c, m, [take]);
    l' := Go(c, m, take);
    assert [ItemOf("q"), ItemOf("r")][1..] == [ItemOf("r")];
  }

  /** It has streamed the first item. */
  lemma TwoLogsStream(c: Config, earlier: int) returns (l: Locked)
    requires Configured(c)
    ensures LockedReachable(c, l) && l.holder == None && l.clock == earlier && l.sys.st == State(map[], map[], {"q"})
    ensures l.sys.threads == map[1 := Enqueuing([ItemOf("r")], earlier)]
  {
    var l0 := TruncateQ(c, earlier);
    var l1 := TwoLogsWait(c, l0);
    var l2 := FirstTaken(c, l1, earlier);
    var stream := Do(StreamItem(1));
    OneStep(c, l2, stream);
    LockedThen(c, l2, [stream]);
    l := Go(c, l2, stream);
  }

  /** For any two readings: a call with an item of a truncated run and one of another
      run reads the clock and streams the first; meanwhile another call for the
      second run reads the later time; then the second item takes the last activity
      of its run back to the earlier. */
  lemma ActivityCanGoBack(c: Config, earlier: int, later: int) returns (l: Locked)
    requires Configured(c) && c.maxItems >= 2 && earlier < later
    ensures LockedReachable(c, l) && May(c, l, Do(TakeItem(1))) && "r" in l.sys.st.runs
    ensures var l' := Go(c, l, Do(TakeItem(1)));
            && "r" in l'.sys.st.runs && l.sys.st.runs["r"].lastActivity == later
            && l'.sys.st.runs["r"].lastActivity == earlier
  {
    var l0 := TwoLogsStream(c, earlier);
    var actions := BackSchedule(c, l0, 1, later);
    OthersKeep(c, l0, 1, actions);
    LockedThen(c, l0, actions);
    l := LockedRun(c, l0, actions).value;
  }
}

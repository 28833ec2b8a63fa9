/** The two mutexes, the Once and the wait for the sweeper, line by line
    (internal/sink/runblock.go:98-101, 218-284; internal/sink/stdout.go:57-81).

    A thread is the list of what it still does with locks and lines; what it
    computes in between is left out, so any lines may be written. */
module LockOrder {
  import opened Basics

  datatype Instr =
    | LockMu | UnlockMu
    | WriteLines(lines: seq<string>)
    | EnterOnce | StopSweeper | Join | LeaveOnce

  // ---- What the threads run ----

  function Writes(blocks: seq<seq<string>>): seq<Instr> {
    if blocks == [] then [] else [WriteLines(blocks[0])] + Writes(blocks[1..])
  }

  /** A stretch under the sink's lock, with the blocks flushed in it. */
  function Locked(blocks: seq<seq<string>>): seq<Instr> {
    [LockMu] + Writes(blocks) + [UnlockMu]
  }

  /** A Consume call alternates between writes without the lock (bypass, streamed
      items) and stretches under it. */
  datatype Piece = Direct(lines: seq<string>) | Section(blocks: seq<seq<string>>)

  function Consume(pieces: seq<Piece>): seq<Instr> {
    if pieces == [] then []
    else (match pieces[0] case Direct(lines) => [WriteLines(lines)] case Section(blocks) => Locked(blocks))
         + Consume(pieces[1..])
  }

  function Shutdown(blocks: seq<seq<string>>): seq<Instr> {
    [EnterOnce, StopSweeper, Join] + Locked(blocks) + [LeaveOnce]
  }

  datatype Caller = Consumer(pieces: seq<Piece>) | Closer(blocks: seq<seq<string>>)

  function Program(c: Caller): seq<Instr> {
    match c
    case Consumer(pieces) => Consume(pieces)
    case Closer(blocks) => Shutdown(blocks)
  }

  // ---- Steps ----

  const SWEEPER: nat := 0

  /** The holder of the inner mutex, the lines of its call and how many are out. */
  datatype Writing = Writing(thread: nat, lines: seq<string>, written: nat)

  /** `calls` are the completed calls of writeLines, in order. */
  datatype Sys = Sys(
    todo: map<nat, seq<Instr>>, mu: Option<nat>, once: Option<nat>, writing: Option<Writing>,
    onceDone: bool, stopped: bool, exited: bool,
    out: seq<string>, calls: seq<seq<string>>)

  const INITIAL: Sys := Sys(map[SWEEPER := []], None, None, None, false, false, false, [], [])

  /** A caller starts, the ticker fires, the sweeper sees that it is to stop, a
      thread does the next thing on its list. */
  datatype Action = Start(t: nat, caller: Caller) | Tick(blocks: seq<seq<string>>) | Quit | Step(t: nat)

  predicate CanStep(s: Sys, t: nat) {
    t in s.todo && s.todo[t] != [] &&
    match s.todo[t][0]
    case LockMu => s.mu.None?
    case EnterOnce => s.once.None?
    case Join => s.exited
    case WriteLines(_) => s.writing.None? || s.writing.value.thread == t
    case _ => true
  }

  predicate Enabled(s: Sys, a: Action) {
    match a
    case Start(t, _) => t !in s.todo
    case Tick(_) => SWEEPER in s.todo && s.todo[SWEEPER] == [] && !s.exited
    case Quit => SWEEPER in s.todo && s.todo[SWEEPER] == [] && !s.exited && s.stopped
    case Step(t) => CanStep(s, t)
  }

  function Pop(s: Sys, t: nat): Sys
    requires t in s.todo && s.todo[t] != []
  {
    s.(todo := s.todo[t := s.todo[t][1..]])
  }

  function StepWrite(s: Sys, t: nat, lines: seq<string>): Sys
    requires t in s.todo && s.todo[t] != []
  {
    if s.writing.None? then s.(writing := Some(Writing(t, lines, 0)))
    else
      var k := s.writing.value.written;
      if k < |lines| then s.(out := s.out + [lines[k]], writing := Some(Writing(t, lines, k + 1)))
      else Pop(s, t).(writing := None, calls := s.calls + [lines])
  }

  function Next(s: Sys, a: Action): Sys
    requires Enabled(s, a)
  {
    match a
    case Start(t, caller) => s.(todo := s.todo[t := Program(caller)])
    case Tick(blocks) => s.(todo := s.todo[SWEEPER := Locked(blocks)])
    case Quit => s.(exited := true)
    case Step(t) =>
      match s.todo[t][0]
      case LockMu => Pop(s, t).(mu := Some(t))
      case UnlockMu => Pop(s, t).(mu := None)
      case WriteLines(lines) => StepWrite(s, t, lines)
      case EnterOnce =>
        if s.onceDone then s.(once := Some(t), todo := s.todo[t := [LeaveOnce]]) else Pop(s, t).(once := Some(t))
      case StopSweeper => Pop(s, t).(stopped := true)
      case Join => Pop(s, t)
      case LeaveOnce => Pop(s, t).(once := None, onceDone := true)
  }

  function Run(s: Sys, actions: seq<Action>): Option<Sys>
    decreases |actions|
  {
    if actions == [] then Some(s)
    else if Enabled(s, actions[0]) then Run(Next(s, actions[0]), actions[1..])
    else None
  }

  ghost predicate Reachable(s: Sys) {
    exists actions :: Run(INITIAL, actions) == Some(s)
  }

  // ---- The discipline ----

  /** The locks are taken in the order once, mu, inner mutex, each is given back, and
      nothing waits for the sweeper but what has told it to stop and holds no
      other lock than the Once. */
  predicate Disciplined(p: seq<Instr>, holdsMu: bool, holdsOnce: bool, stopped: bool)
    decreases |p|
  {
    if p == [] then !holdsMu && !holdsOnce
    else
      match p[0]
      case LockMu => !holdsMu && Disciplined(p[1..], true, holdsOnce, stopped)
      case UnlockMu => holdsMu && Disciplined(p[1..], false, holdsOnce, stopped)
      case WriteLines(_) => Disciplined(p[1..], holdsMu, holdsOnce, stopped)
      case EnterOnce => !holdsMu && !holdsOnce && Disciplined(p[1..], false, true, stopped)
      case StopSweeper => !holdsMu && holdsOnce && Disciplined(p[1..], false, true, true)
      case Join => !holdsMu && holdsOnce && stopped && Disciplined(p[1..], false, true, stopped)
      case LeaveOnce => !holdsMu && holdsOnce && Disciplined(p[1..], false, false, stopped)
  }

  /** The sweeper uses the two mutexes only. */
  predicate MutexOnly(p: seq<Instr>) {
    forall i <- p :: i.LockMu? || i.UnlockMu? || i.WriteLines?
  }

  lemma WriteFirst(lines: seq<string>, tail: seq<Instr>, holdsMu: bool, holdsOnce: bool, stopped: bool)
    requires Disciplined(tail, holdsMu, holdsOnce, stopped)
    ensures Disciplined([WriteLines(lines)] + tail, holdsMu, holdsOnce, stopped)
  {}

  lemma {:induction false} WritesDisciplined(blocks: seq<seq<string>>, rest: seq<Instr>, holdsMu: bool, holdsOnce: bool, stopped: bool)
    requires Disciplined(rest, holdsMu, holdsOnce, stopped)
    ensures Disciplined(Writes(blocks) + rest, holdsMu, holdsOnce, stopped)
  {
    if blocks == [] {
      assert [] + rest == rest;
    } else {
      var p, tail := Writes(blocks) + rest, Writes(blocks[1..]) + rest;
      WritesDisciplined(blocks[1..], rest, holdsMu, holdsOnce, stopped);
      assert p == [WriteLines(blocks[0])] + tail;
      WriteFirst(blocks[0], tail, holdsMu, holdsOnce, stopped);
    }
  }

  lemma LockedDisciplined(blocks: seq<seq<string>>, rest: seq<Instr>, holdsOnce: bool, stopped: bool)
    requires Disciplined(rest, false, holdsOnce, stopped)
    ensures Disciplined(Locked(blocks) + rest, false, holdsOnce, stopped)
  {
    var tail := [UnlockMu] + rest;
    assert tail[1..] == rest;
    WritesDisciplined(blocks, tail, true, holdsOnce, stopped);
    assert (Locked(blocks) + rest)[1..] == Writes(blocks) + tail;
  }

  lemma {:induction false} ConsumeDisciplined(pieces: seq<Piece>, stopped: bool)
    ensures Disciplined(Consume(pieces), false, false, stopped)
  {
    if pieces != [] {
      var rest := Consume(pieces[1..]);
      ConsumeDisciplined(pieces[1..], stopped);
      match pieces[0]
      case Direct(lines) => assert ([WriteLines(lines)] + rest)[1..] == rest;
      case Section(blocks) => LockedDisciplined(blocks, rest, false, stopped);
    }
  }

  lemma ShutdownDisciplined(blocks: seq<seq<string>>, stopped: bool)
    ensures Disciplined(Shutdown(blocks), false, false, stopped)
  {
    var p, rest := Shutdown(blocks), Locked(blocks) + [LeaveOnce];
    assert [LeaveOnce][1..] == [];
    LockedDisciplined(blocks, [LeaveOnce], true, true);
    assert p[1..][1..][1..] == rest;
    assert Disciplined(p[1..][1..], false, true, true);
  }

  lemma {:induction false} WritesMutexOnly(blocks: seq<seq<string>>)
    ensures MutexOnly(Writes(blocks))
  {
    if blocks != [] { WritesMutexOnly(blocks[1..]); }
  }

  lemma {:induction false} StoppedStays(p: seq<Instr>, holdsMu: bool, holdsOnce: bool, stopped: bool)
    requires Disciplined(p, holdsMu, holdsOnce, stopped)
    ensures Disciplined(p, holdsMu, holdsOnce, true)
    decreases |p|
  {
    if p != [] {
      match p[0]
      case LockMu => StoppedStays(p[1..], true, holdsOnce, stopped);
      case UnlockMu => StoppedStays(p[1..], false, holdsOnce, stopped);
      case WriteLines(_) => StoppedStays(p[1..], holdsMu, holdsOnce, stopped);
      case EnterOnce => StoppedStays(p[1..], false, true, stopped);
      case StopSweeper =>
      case Join => StoppedStays(p[1..], false, true, stopped);
      case LeaveOnce => StoppedStays(p[1..], false, false, stopped);
    }
  }

  // ---- The invariant ----

  ghost predicate ThreadOk(s: Sys, t: nat)
    requires t in s.todo
  {
    Disciplined(s.todo[t], s.mu == Some(t), s.once == Some(t), s.stopped)
  }

  /** The holders are threads; whoever writes has its call at the head of its list;
      the sweeper stays out of the Once and exits only when told to. */
  ghost predicate HoldersOk(s: Sys) {
    && (s.mu.Some? ==> s.mu.value in s.todo)
    && (s.once.Some? ==> s.once.value in s.todo)
    && WriterOk(s) && SweeperOk(s)
  }

  ghost predicate WriterOk(s: Sys) {
    s.writing.Some? ==>
      var w := s.writing.value;
      w.thread in s.todo && s.todo[w.thread] != [] && s.todo[w.thread][0] == WriteLines(w.lines) && w.written <= |w.lines|
  }

  ghost predicate SweeperOk(s: Sys) {
    && SWEEPER in s.todo && MutexOnly(s.todo[SWEEPER]) && s.once != Some(SWEEPER)
    && (s.exited ==> s.stopped && s.todo[SWEEPER] == [])
  }

  ghost predicate Inv(s: Sys) {
    && (forall t <- s.todo :: ThreadOk(s, t))
    && HoldersOk(s)
    && s.out == Concat(s.calls) + Partial(s.writing)
  }

  /** What a call of writeLines has put out so far. */
  function Partial(writing: Option<Writing>): seq<string> {
    match writing
    case Some(w) => if w.written <= |w.lines| then w.lines[..w.written] else w.lines
    case None => []
  }

  /** A step moves one list, takes and gives locks for its own thread only. */
  ghost predicate Frame(s: Sys, s': Sys, t: nat) {
    && s'.todo.Keys == s.todo.Keys + {t} && (forall u <- s.todo :: u != t ==> s'.todo[u] == s.todo[u])
    && (forall u <- s.todo :: u != t ==> (s'.mu == Some(u) <==> s.mu == Some(u)) && (s'.once == Some(u) <==> s.once == Some(u)))
    && (s.stopped ==> s'.stopped)
  }

  /** The other threads do not notice a step, unless it closes the stop channel. */
  lemma OthersOk(s: Sys, s': Sys, t: nat)
    requires Inv(s) && t in s'.todo && ThreadOk(s', t)
    requires Frame(s, s', t)
    ensures forall u <- s'.todo :: ThreadOk(s', u)
  {
    forall u <- s'.todo ensures ThreadOk(s', u) {
      if u != t {
        assert ThreadOk(s, u);
        if s'.stopped { StoppedStays(s.todo[u], s.mu == Some(u), s.once == Some(u), s.stopped); }
      }
    }
  }

  lemma StartInv(s: Sys, t: nat, caller: Caller)
    requires Inv(s) && Enabled(s, Start(t, caller))
    ensures Inv(Next(s, Start(t, caller)))
  {
    var s' := Next(s, Start(t, caller));
    match caller {
      case Consumer(pieces) => ConsumeDisciplined(pieces, s.stopped);
      case Closer(blocks) => ShutdownDisciplined(blocks, s.stopped);
    }
    assert ThreadOk(s', t);
    OthersOk(s, s', t);
  }

  lemma TickInv(s: Sys, blocks: seq<seq<string>>)
    requires Inv(s) && Enabled(s, Tick(blocks))
    ensures Inv(Next(s, Tick(blocks)))
  {
    var s' := Next(s, Tick(blocks));
    assert ThreadOk(s, SWEEPER);
    assert Disciplined([], false, false, s.stopped);
    LockedDisciplined(blocks, [], false, s.stopped);
    assert Locked(blocks) + [] == Locked(blocks);
    WritesMutexOnly(blocks);
    assert ThreadOk(s', SWEEPER);
    OthersOk(s, s', SWEEPER);
  }

  lemma SteppedOk(s: Sys, t: nat)
    requires Inv(s) && CanStep(s, t)
    ensures ThreadOk(Next(s, Step(t)), t)
  {
    assert ThreadOk(s, t);
    assert [LeaveOnce][1..] == [];
  }

  lemma StepMovesOne(s: Sys, t: nat)
    requires CanStep(s, t)
    ensures var s' := Next(s, Step(t));
            && s'.todo.Keys == s.todo.Keys + {t} && (forall u <- s.todo :: u != t ==> s'.todo[u] == s.todo[u])
            && (s.stopped ==> s'.stopped)
  {}

  lemma StepFrame(s: Sys, t: nat)
    requires Inv(s) && CanStep(s, t)
    ensures Frame(s, Next(s, Step(t)), t)
  {
    StepMovesOne(s, t);
    assert ThreadOk(s, t);
  }

  lemma ThreadsStep(s: Sys, t: nat)
    requires Inv(s) && CanStep(s, t)
    ensures forall u <- Next(s, Step(t)).todo :: ThreadOk(Next(s, Step(t)), u)
  {
    SteppedOk(s, t);
    StepFrame(s, t);
    OthersOk(s, Next(s, Step(t)), t);
  }

  lemma WriterStep(s: Sys, t: nat)
    requires HoldersOk(s) && CanStep(s, t) && s.todo[t][0].WriteLines?
    ensures HoldersOk(Next(s, Step(t)))
  {
    assert forall i <- s.todo[t][1..] :: i in s.todo[t];
  }

  lemma LockerStep(s: Sys, t: nat)
    requires HoldersOk(s) && CanStep(s, t) && !s.todo[t][0].WriteLines?
    ensures HoldersOk(Next(s, Step(t)))
  {
    LockerKeepsSweeper(s, t);
    LockerKeepsWriter(s, t);
  }

  lemma LockerKeepsSweeper(s: Sys, t: nat)
    requires HoldersOk(s) && CanStep(s, t) && !s.todo[t][0].WriteLines?
    ensures SweeperOk(Next(s, Step(t)))
  {
    assert s.todo[t][0] in s.todo[t];
    assert forall i <- s.todo[t][1..] :: i in s.todo[t];
  }

  lemma LockerKeepsWriter(s: Sys, t: nat)
    requires HoldersOk(s) && CanStep(s, t) && !s.todo[t][0].WriteLines?
    ensures WriterOk(Next(s, Step(t)))
  {}

  lemma WriteText(s: Sys, t: nat, lines: seq<string>)
    requires Inv(s) && CanStep(s, t) && s.todo[t][0] == WriteLines(lines)
    ensures var s' := Next(s, Step(t)); s'.out == Concat(s'.calls) + Partial(s'.writing)
  {
    if s.writing.None? {
      assert lines[..0] == [];
    } else {
      var k := s.writing.value.written;
      if k < |lines| {
        assert lines[..k + 1] == lines[..k] + [lines[k]];
        Associative(Concat(s.calls), lines[..k], [lines[k]]);
      } else {
        ConcatAppend(s.calls, [lines]);
        assert Concat([lines]) == lines + Concat([lines][1..]) && lines[..k] == lines;
        assert lines + [] == lines && s.out + [] == s.out;
      }
    }
  }

  lemma NextInv(s: Sys, a: Action)
    requires Inv(s) && Enabled(s, a)
    ensures Inv(Next(s, a))
  {
    match a
    case Start(t, caller) => StartInv(s, t, caller);
    case Tick(blocks) => TickInv(s, blocks);
    case Quit => assert forall t <- s.todo :: ThreadOk(s, t) ==> ThreadOk(Next(s, a), t);
    case Step(t) =>
      ThreadsStep(s, t);
      if s.todo[t][0].WriteLines? {
        WriterStep(s, t);
        WriteText(s, t, s.todo[t][0].lines);
      } else {
        LockerStep(s, t);
      }
  }

  lemma {:induction false} RunInv(s: Sys, actions: seq<Action>)
    requires Inv(s) && Run(s, actions).Some?
    ensures Inv(Run(s, actions).value)
    decreases |actions|
  {
    if actions != [] {
      NextInv(s, actions[0]);
      RunInv(Next(s, actions[0]), actions[1..]);
    }
  }

  lemma ReachableInv(s: Sys)
    requires Reachable(s)
    ensures Inv(s)
  {
    var actions :| Run(INITIAL, actions) == Some(s);
    RunInv(INITIAL, actions);
  }

  /** The output is one completed call of writeLines after the other, then what the
      call under way has written: no line of another call comes between. */
  lemma CallsAreContiguous(s: Sys)
    requires Reachable(s)
    ensures s.out == Concat(s.calls) + Partial(s.writing)
  {
    ReachableInv(s);
  }

  // ---- Progress ----

  /** A thread that holds the innermost lock taken can go on. */
  lemma HolderSteps(s: Sys, t: nat)
    requires Inv(s) && t in s.todo && s.writing.None? && (s.mu == Some(t) || (s.mu.None? && s.once == Some(t)))
    ensures CanStep(s, t) || (s.mu.None? && s.stopped && !s.exited && s.todo[t] != [] && s.todo[t][0].Join?)
  {}

  /** The sweeper goes on, or out, when no mutex is taken. */
  lemma SweeperSteps(s: Sys)
    requires Inv(s) && s.writing.None? && s.mu.None? && s.stopped && !s.exited
    ensures Enabled(s, Quit) || CanStep(s, SWEEPER)
  {}

  lemma CallerSteps(s: Sys, t: nat)
    requires Inv(s) && t in s.todo && s.todo[t] != [] && s.writing.None? && s.mu.None? && s.once.None?
    ensures CanStep(s, t)
  {}

  /** While a caller is not done, or the sweeper is inside a sweep, some thread can
      step without a new caller or a tick: there is no deadlock. */
  lemma SomeoneCanStep(s: Sys, t: nat) returns (a: Action)
    requires Inv(s) && t in s.todo && s.todo[t] != []
    ensures Enabled(s, a) && (a.Step? || a.Quit?)
  {
    if s.writing.Some? {
      a := Step(s.writing.value.thread);
    } else if s.mu.Some? {
      HolderSteps(s, s.mu.value);
      a := Step(s.mu.value);
    } else if s.once.Some? {
      HolderSteps(s, s.once.value);
      if CanStep(s, s.once.value) {
        a := Step(s.once.value);
      } else {
        SweeperSteps(s);
        a := if CanStep(s, SWEEPER) then Step(SWEEPER) else Quit;
      }
    } else {
      CallerSteps(s, t);
      a := Step(t);
    }
  }

  lemma DeadlockFree(s: Sys, t: nat)
    requires Reachable(s) && t in s.todo && s.todo[t] != []
    ensures exists a :: Enabled(s, a) && (a.Step? || a.Quit?)
  {
    ReachableInv(s);
    var a := SomeoneCanStep(s, t);
  }

  // ---- Every call ends ----

  /** Steps that a list of instructions takes at most. */
  function Work(p: seq<Instr>): nat {
    if p == [] then 0 else (if p[0].WriteLines? then |p[0].lines| + 2 else 1) + Work(p[1..])
  }

  ghost function TotalWork(todo: map<nat, seq<Instr>>): nat
    decreases |todo|
  {
    if todo == map[] then 0
    else
      var t :| t in todo;
      Work(todo[t]) + TotalWork(todo - {t})
  }

  lemma {:induction false} TotalWorkWithout(todo: map<nat, seq<Instr>>, t: nat)
    requires t in todo
    ensures TotalWork(todo) == Work(todo[t]) + TotalWork(todo - {t})
    decreases |todo|
  {
    var u :| u in todo && TotalWork(todo) == Work(todo[u]) + TotalWork(todo - {u});
    if u != t {
      TotalWorkWithout(todo - {u}, t);
      TotalWorkWithout(todo - {t}, u);
      assert todo - {u} - {t} == todo - {t} - {u};
    }
  }

  lemma TotalWorkUpdate(todo: map<nat, seq<Instr>>, t: nat, p: seq<Instr>)
    requires t in todo
    ensures TotalWork(todo[t := p]) - TotalWork(todo) == Work(p) - Work(todo[t])
  {
    TotalWorkWithout(todo, t);
    TotalWorkWithout(todo[t := p], t);
    assert todo[t := p] - {t} == todo - {t};
  }

  /** Steps left: the call under way has taken the mutex and written some lines. */
  ghost function Left(s: Sys): int {
    TotalWork(s.todo) - (if s.writing.Some? then s.writing.value.written + 1 else 0) + (if s.exited then 0 else 1)
  }

  lemma LeftIsNat(s: Sys)
    requires Inv(s)
    ensures Left(s) >= 0
  {
    if s.writing.Some? {
      TotalWorkWithout(s.todo, s.writing.value.thread);
    }
  }

  lemma WorkOfLeave()
    ensures Work([LeaveOnce]) == 1
  {}

  /** Once entered, the Once is left again: there is something behind EnterOnce. */
  lemma EnterIsFollowed(s: Sys, t: nat)
    requires Inv(s) && CanStep(s, t) && s.todo[t][0].EnterOnce?
    ensures Work(s.todo[t]) >= 2
  {
    assert ThreadOk(s, t);
    assert Disciplined(s.todo[t][1..], false, true, s.stopped);
  }

  lemma WriteUsesWork(s: Sys, t: nat)
    requires Inv(s) && CanStep(s, t) && s.todo[t][0].WriteLines?
    ensures Left(Next(s, Step(t))) < Left(s)
  {
    TotalWorkUpdate(s.todo, t, s.todo[t][1..]);
  }

  lemma LockUsesWork(s: Sys, t: nat)
    requires Inv(s) && CanStep(s, t) && !s.todo[t][0].WriteLines?
    ensures Left(Next(s, Step(t))) < Left(s)
  {
    if s.todo[t][0].EnterOnce? { EnterIsFollowed(s, t); }
    WorkOfLeave();
    TotalWorkUpdate(s.todo, t, s.todo[t][1..]);
    TotalWorkUpdate(s.todo, t, [LeaveOnce]);
  }

  /** Every step that is not a new caller or a tick uses up work. */
  lemma StepUsesWork(s: Sys, a: Action)
    requires Inv(s) && Enabled(s, a) && (a.Step? || a.Quit?)
    ensures Left(Next(s, a)) < Left(s)
  {
    if a.Step? {
      if s.todo[a.t][0].WriteLines? { WriteUsesWork(s, a.t); } else { LockUsesWork(s, a.t); }
    }
  }

  ghost predicate AllDone(s: Sys) {
    forall t <- s.todo :: s.todo[t] == []
  }

  /** Without new callers and ticks the threads are done after as many steps as there
      is work left: every Consume call and every Shutdown returns. */
  lemma {:induction false} EveryCallEnds(s: Sys) returns (actions: seq<Action>)
    requires Inv(s)
    ensures (forall a <- actions :: a.Step? || a.Quit?) && Run(s, actions).Some? && AllDone(Run(s, actions).value)
    ensures |actions| <= Left(s)
    decreases Left(s)
  {
    LeftIsNat(s);
    if AllDone(s) {
      actions := [];
    } else {
      var t :| t in s.todo && s.todo[t] != [];
      var a := SomeoneCanStep(s, t);
      NextInv(s, a);
      StepUsesWork(s, a);
      LeftIsNat(Next(s, a));
      var rest := EveryCallEnds(Next(s, a));
      actions := [a] + rest;
      assert actions[1..] == rest;
    }
  }
}

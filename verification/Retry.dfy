/** The retry loop of the forwarding sinks (internal/sink/retry.go).

    Durations are nanoseconds, factors are reals. What the loop does not control
    comes from a script with one round per turn: whether the context has ended,
    what the operation returns, how long things take, the random sample. At the
    end of the script the context has ended. */
module Retry {
  import opened Basics

  /** An error chain as errors.As and errors.Is walk it. */
  datatype Error =
    | Plain(text: string)
    | ContextEnded
    | PermanentError(inner: Error)
    | Wrapped(text: string, inner: Error)

  predicate IsPermanent(e: Error) {
    match e
    case PermanentError(_) => true
    case Wrapped(_, inner) => IsPermanent(inner)
    case _ => false
  }

  predicate IsContextError(e: Error) {
    match e
    case ContextEnded => true
    case PermanentError(inner) => IsContextError(inner)
    case Wrapped(_, inner) => IsContextError(inner)
    case Plain(_) => false
  }

  /** The n-th error of the chain. */
  function Link(e: Error, n: nat): Option<Error> {
    if n == 0 then Some(e)
    else
      match e
      case PermanentError(inner) => Link(inner, n - 1)
      case Wrapped(_, inner) => Link(inner, n - 1)
      case _ => None
  }

  /** Somewhere in the chain there is a permanent error, or the end of the context. */
  ghost predicate ChainStops(e: Error) {
    exists n: nat :: Stops(Link(e, n))
  }

  predicate Stops(link: Option<Error>) {
    link.Some? && (link.value.PermanentError? || link.value.ContextEnded?)
  }

  /** Looking for the two along the chain finds them exactly when there is one. */
  lemma {:induction false} FoundIff(e: Error)
    ensures IsPermanent(e) || IsContextError(e) <==> ChainStops(e)
  {
    if e.PermanentError? || e.ContextEnded? {
      assert Stops(Link(e, 0));
    } else if e.Wrapped? {
      FoundIff(e.inner);
      if n: nat :| Stops(Link(e.inner, n)) { assert Link(e, n + 1) == Link(e.inner, n); }
      if n: nat :| Stops(Link(e, n)) { assert Link(e, n) == Link(e.inner, n - 1); }
    }
  }

  type Sample = x: real | 0.0 <= x < 1.0

  /** `opTime` is what has passed when the budget is first looked at, `gap` what
      passes until it is looked at again, `overshoot` by how much the timer is late. */
  datatype Round = Round(
    done: bool, result: Option<Error>, opTime: nat, gap: nat,
    sample: Sample, interrupted: bool, overshoot: nat)

  datatype RetryConfig = RetryConfig(initial: int, max: int, maxElapsed: int, multiplier: real, jitter: real)

  const MILLISECOND := 1_000_000
  const SECOND := 1000 * MILLISECOND

  /** defaultRetryConfig. */
  const DEFAULT := RetryConfig(500 * MILLISECOND, 10 * SECOND, 30 * SECOND, 2.0, 0.2)

  function Multiplier(r: RetryConfig): real {
    if r.multiplier <= 0.0 then 2.0 else r.multiplier
  }

  function Jitter(r: RetryConfig): (j: real)
    ensures 0.0 <= j <= 1.0
  {
    if r.jitter < 0.0 then 0.0 else if r.jitter > 1.0 then 1.0 else r.jitter
  }

  function FirstInterval(r: RetryConfig): (d: int)
    ensures d > 0
  {
    if r.initial <= 0 then 500 * MILLISECOND else r.initial
  }

  function MaxInterval(r: RetryConfig): (d: int)
    ensures d > 0
  {
    if r.max <= 0 then FirstInterval(r) else r.max
  }

  /** time.Duration(float64(d) * m). */
  function Scaled(d: nat, m: real): nat
    requires 0.0 <= m
  {
    Scales(d as real, m);
    (d as real * m).Floor
  }

  function Grown(r: RetryConfig, interval: nat): nat {
    var next := Scaled(interval, Multiplier(r));
    if next > MaxInterval(r) then MaxInterval(r) else next
  }

  lemma Scales(x: real, y: real)
    requires 0.0 <= x && 0.0 <= y
    ensures 0.0 <= x * y && 0 <= (x * y).Floor
  {}

  function Low(d: nat, j: real): real {
    d as real * (1.0 - j)
  }

  function High(d: nat, j: real): real {
    d as real * (1.0 + j)
  }

  /** A sample between the two, truncated to whole nanoseconds. */
  function JitterInterval(d: nat, j: real, sample: Sample): int {
    if j == 0.0 then d else Between(Low(d, j), High(d, j), sample).Floor
  }

  function Between(low: real, high: real, sample: Sample): real {
    low + sample * (high - low)
  }

  lemma BetweenRange(low: real, high: real, sample: Sample)
    requires low <= high
    ensures low == Between(low, high, 0.0) <= Between(low, high, sample) <= high
  {
    Scales(sample, high - low);
    Scales(1.0 - sample, high - low);
    assert sample * (high - low) + (1.0 - sample) * (high - low) == high - low;
  }

  lemma LowHigh(d: nat, j: real)
    requires 0.0 <= j <= 1.0
    ensures 0.0 <= Low(d, j) <= High(d, j) && Low(d, 0.0) == High(d, 0.0) == d as real
  {
    Scales(d as real, 1.0 - j);
    Scales(d as real, j);
    assert High(d, j) - Low(d, j) == 2.0 * (d as real * j);
  }

  lemma Floors(x: real, y: real)
    requires 0.0 <= x <= y
    ensures 0 <= x.Floor <= y.Floor
  {}

  lemma JitterRange(d: nat, j: real, sample: Sample)
    requires 0.0 <= j <= 1.0
    ensures 0 <= JitterInterval(d, j, 0.0) <= JitterInterval(d, j, sample)
    ensures JitterInterval(d, j, sample) as real <= High(d, j)
    ensures JitterInterval(d, j, 0.0) == Low(d, j).Floor
  {
    LowHigh(d, j);
    BetweenRange(Low(d, j), High(d, j), sample);
    Floors(Low(d, j), Between(Low(d, j), High(d, j), sample));
  }

  // ---- The loop ----

  datatype Cause = AtTop | Succeeded | GaveUp | OutOfBudget | InSleep

  /** The variables of the loop, and what it has done so far: the results of the
      calls, the intervals before jitter and the sleeps it asked for. */
  datatype Loop = Loop(
    attempts: nat, err: Option<Error>, interval: nat, elapsed: nat,
    calls: seq<Option<Error>>, intervals: seq<nat>, sleeps: seq<int>)

  datatype Exit = Exit(
    attempts: nat, err: Option<Error>, cause: Cause,
    calls: seq<Option<Error>>, intervals: seq<nat>, sleeps: seq<int>)

  function Begin(r: RetryConfig): Loop {
    Loop(0, None, FirstInterval(r), 0, [], [], [])
  }

  function Sleep(r: RetryConfig, s: Loop, round: Round): int {
    var sleep := JitterInterval(s.interval, Jitter(r), round.sample);
    var remaining := r.maxElapsed - (s.elapsed + round.opTime + round.gap);
    if r.maxElapsed > 0 && sleep > remaining then remaining else sleep
  }

  predicate BudgetSpent(r: RetryConfig, s: Loop, round: Round) {
    r.maxElapsed > 0 && s.elapsed + round.opTime + round.gap >= r.maxElapsed
  }

  predicate Retryable(result: Option<Error>) {
    result.Some? && !IsPermanent(result.value) && !IsContextError(result.value)
  }

  function Called(s: Loop, round: Round): Loop {
    s.(err := round.result, calls := s.calls + [round.result])
  }

  function Slept(r: RetryConfig, s: Loop, round: Round): Loop {
    s.(intervals := s.intervals + [s.interval], sleeps := s.sleeps + [Sleep(r, s, round)])
  }

  /** The next turn. */
  function After(r: RetryConfig, s: Loop, round: Round): Loop
    requires !BudgetSpent(r, s, round)
  {
    JitterRange(s.interval, Jitter(r), round.sample);
    Slept(r, Called(s, round), round).(
      attempts := s.attempts + 1, interval := Grown(r, s.interval),
      elapsed := s.elapsed + round.opTime + round.gap + Sleep(r, s, round) + round.overshoot)
  }

  /** A sleep never asks for more than is left of the budget. */
  lemma SleepFits(r: RetryConfig, s: Loop, round: Round)
    requires !BudgetSpent(r, s, round)
    ensures 0 <= Sleep(r, s, round)
    ensures r.maxElapsed > 0 ==> s.elapsed + round.opTime + round.gap + Sleep(r, s, round) <= r.maxElapsed
  {
    JitterRange(s.interval, Jitter(r), round.sample);
  }

  lemma AfterIs(r: RetryConfig, s: Loop, round: Round, sleep: int, next: nat)
    requires !BudgetSpent(r, s, round) && sleep == Sleep(r, s, round) && next == Grown(r, s.interval)
    ensures s.elapsed + round.opTime + round.gap + sleep + round.overshoot >= 0
    ensures After(r, s, round)
         == Loop(s.attempts + 1, round.result, next, s.elapsed + round.opTime + round.gap + sleep + round.overshoot,
                 s.calls + [round.result], s.intervals + [s.interval], s.sleeps + [sleep])
  {
    SleepFits(r, s, round);
  }

  function Leave(s: Loop, err: Option<Error>, cause: Cause): Exit {
    Exit(s.attempts, err, cause, s.calls, s.intervals, s.sleeps)
  }

  function Execute(r: RetryConfig, script: seq<Round>, s: Loop): Exit
    decreases |script|
  {
    if script == [] || script[0].done then Leave(s, if s.err.None? then Some(ContextEnded) else s.err, AtTop)
    else
      var round := script[0];
      if round.result.None? then Leave(Called(s, round), None, Succeeded)
      else if !Retryable(round.result) then Leave(Called(s, round), round.result, GaveUp)
      else if BudgetSpent(r, s, round) then Leave(Called(s, round), round.result, OutOfBudget)
      else if round.interrupted then Leave(Slept(r, Called(s, round), round), Some(ContextEnded), InSleep)
      else Execute(r, script[1..], After(r, s, round))
  }

  /** The loop goes round once more. */
  predicate Continues(r: RetryConfig, script: seq<Round>, s: Loop) {
    script != [] && !script[0].done && Retryable(script[0].result) && !BudgetSpent(r, s, script[0]) && !script[0].interrupted
  }

  /** Do, as run from its beginning. */
  function Result(r: RetryConfig, script: seq<Round>): Exit {
    Execute(r, script, Begin(r))
  }

  /** One turn, from the i-th round on. */
  lemma Turn(r: RetryConfig, script: seq<Round>, i: nat, s: Loop)
    requires i < |script|
    ensures var round, e := script[i], Execute(r, script[i..], s);
            if round.done then e == Leave(s, if s.err.None? then Some(ContextEnded) else s.err, AtTop)
            else if round.result.None? then e == Leave(Called(s, round), None, Succeeded)
            else if !Retryable(round.result) then e == Leave(Called(s, round), round.result, GaveUp)
            else if BudgetSpent(r, s, round) then e == Leave(Called(s, round), round.result, OutOfBudget)
            else if round.interrupted then e == Leave(Slept(r, Called(s, round), round), Some(ContextEnded), InSleep)
            else e == Execute(r, script[i + 1..], After(r, s, round))
  {}

  /** The first lines of Do: factors and intervals that make sense. */
  method Defaults(r: RetryConfig) returns (mult: real, jitter: real, interval: int, maxInterval: int)
    ensures mult == Multiplier(r) && jitter == Jitter(r) && interval == FirstInterval(r) && maxInterval == MaxInterval(r)
  {
    mult := r.multiplier;
    if mult <= 0.0 { mult := 2.0; }
    jitter := r.jitter;
    if jitter < 0.0 { jitter := 0.0; }
    if jitter > 1.0 { jitter := 1.0; }
    interval := r.initial;
    if interval <= 0 { interval := 500 * MILLISECOND; }
    maxInterval := r.max;
    if maxInterval <= 0 { maxInterval := interval; }
  }

  /** The jittered interval, cut to what is left of the budget. */
  method NextSleep(r: RetryConfig, jitter: real, interval: nat, elapsed: nat, round: Round, ghost s: Loop) returns (spent: bool, sleep: int)
    requires jitter == Jitter(r) && interval == s.interval && elapsed == s.elapsed
    ensures spent == BudgetSpent(r, s, round) && sleep == Sleep(r, s, round)
  {
    sleep := JitterInterval(interval, jitter, round.sample);
    spent := false;
    if r.maxElapsed > 0 {
      var remaining := r.maxElapsed - (elapsed + round.opTime + round.gap);
      spent := remaining <= 0;
      if sleep > remaining { sleep := remaining; }
    }
  }

  /** Do returns the attempts and the error; the rest of the Exit is what it did. */
  method Do(r: RetryConfig, script: seq<Round>) returns (e: Exit)
    ensures e == Result(r, script)
  {
    var mult, jitter, first, maxInterval := Defaults(r);
    var interval: nat := first;
    var attempts: nat, err: Option<Error>, elapsed: nat := 0, None, 0;
    var calls, intervals, sleeps := [], [], [];
    var i := 0;
    while true
      invariant i <= |script|
      invariant Result(r, script) == Execute(r, script[i..], Loop(attempts, err, interval, elapsed, calls, intervals, sleeps))
      decreases |script| - i
    {
      if i == |script| || script[i].done {
        if err.None? { err := Some(ContextEnded); }
        return Exit(attempts, err, AtTop, calls, intervals, sleeps);
      }
      var round := script[i];
      ghost var s := Loop(attempts, err, interval, elapsed, calls, intervals, sleeps);
      Turn(r, script, i, s);
      err := round.result;
      calls := calls + [err];
      if err.None? { return Exit(attempts, err, Succeeded, calls, intervals, sleeps); }
      if IsPermanent(err.value) || IsContextError(err.value) {
        return Exit(attempts, err, GaveUp, calls, intervals, sleeps);
      }
      if r.maxElapsed > 0 && elapsed + round.opTime >= r.maxElapsed {
        return Exit(attempts, err, OutOfBudget, calls, intervals, sleeps);
      }
      var spent, sleep := NextSleep(r, jitter, interval, elapsed, round, s);
      if spent { return Exit(attempts, err, OutOfBudget, calls, intervals, sleeps); }
      intervals, sleeps := intervals + [interval], sleeps + [sleep];
      if round.interrupted {
        return Exit(attempts, Some(ContextEnded), InSleep, calls, intervals, sleeps);
      }
      elapsed := elapsed + round.opTime + round.gap + sleep + round.overshoot;
      attempts := attempts + 1;
      var next := Scaled(interval, mult);
      if next > maxInterval { next := maxInterval; }
      interval := next;
      AfterIs(r, s, round, sleep, interval);
      i := i + 1;
    }
  }

  // ---- The budget ----

  function Total(sleeps: seq<int>): int {
    if sleeps == [] then 0 else Total(sleeps[..|sleeps| - 1]) + sleeps[|sleeps| - 1]
  }

  ghost predicate WithinBudget(r: RetryConfig, sleeps: seq<int>) {
    (forall d <- sleeps :: 0 <= d) && Total(sleeps) <= r.maxElapsed
  }

  lemma TotalSnoc(sleeps: seq<int>, d: int)
    ensures Total(sleeps + [d]) == Total(sleeps) + d
  {}

  /** So far. */
  ghost predicate FitsBudget(r: RetryConfig, s: Loop) {
    WithinBudget(r, s.sleeps) && Total(s.sleeps) <= s.elapsed
  }

  lemma NextWithin(r: RetryConfig, sleeps: seq<int>, d: int)
    requires WithinBudget(r, sleeps) && 0 <= d && Total(sleeps) + d <= r.maxElapsed
    ensures WithinBudget(r, sleeps + [d])
  {}

  lemma NextFits(r: RetryConfig, s: Loop, round: Round)
    requires r.maxElapsed > 0 && FitsBudget(r, s) && !BudgetSpent(r, s, round)
    ensures WithinBudget(r, s.sleeps + [Sleep(r, s, round)]) && FitsBudget(r, After(r, s, round))
  {
    var d := Sleep(r, s, round);
    SleepFits(r, s, round);
    NextWithin(r, s.sleeps, d);
    TotalSnoc(s.sleeps, d);
    AfterIs(r, s, round, d, Grown(r, s.interval));
  }

  /** The sleeps asked for when the loop ends in this turn. */
  lemma LastSleeps(r: RetryConfig, script: seq<Round>, s: Loop)
    requires !Continues(r, script, s)
    ensures var sleeps := Execute(r, script, s).sleeps;
            sleeps == s.sleeps || (script != [] && !BudgetSpent(r, s, script[0]) && sleeps == s.sleeps + [Sleep(r, s, script[0])])
  {}

  lemma {:induction false} SleepsWithin(r: RetryConfig, script: seq<Round>, s: Loop)
    requires r.maxElapsed > 0 && FitsBudget(r, s)
    ensures WithinBudget(r, Execute(r, script, s).sleeps)
    decreases |script|
  {
    if Continues(r, script, s) {
      NextFits(r, s, script[0]);
      SleepsWithin(r, script[1..], After(r, s, script[0]));
    } else {
      LastSleeps(r, script, s);
      if script != [] && !BudgetSpent(r, s, script[0]) { NextFits(r, s, script[0]); }
    }
  }

  /** Whatever the operation and the timers take, the sleeps asked for never add
      up to more than MaxElapsed. */
  lemma SleepBudget(r: RetryConfig, script: seq<Round>)
    requires r.maxElapsed > 0
    ensures var sleeps := Result(r, script).sleeps; Total(sleeps) <= r.maxElapsed && forall d <- sleeps :: 0 <= d
  {
    SleepsWithin(r, script, Begin(r));
  }

  // ---- The trace of calls ----

  function LastOf(calls: seq<Option<Error>>): Option<Error> {
    if calls == [] then None else calls[|calls| - 1]
  }

  /** A failure with neither a permanent error nor the end of the context in its chain. */
  ghost predicate WorthRetry(result: Option<Error>) {
    result.Some? && !ChainStops(result.value)
  }

  /** The first `n` calls failed in a way that is worth a retry. */
  ghost predicate AllWorthRetry(calls: seq<Option<Error>>, n: nat) {
    n <= |calls| && forall i :: 0 <= i < n ==> WorthRetry(calls[i])
  }

  ghost predicate TracedSoFar(s: Loop) {
    |s.calls| == |s.intervals| == |s.sleeps| == s.attempts && AllWorthRetry(s.calls, s.attempts) && s.err == LastOf(s.calls)
  }

  ghost predicate WellTraced(e: Exit) {
    && |e.calls| == e.attempts + (if e.cause.AtTop? then 0 else 1)
    && |e.intervals| == |e.sleeps| == e.attempts + (if e.cause.InSleep? then 1 else 0)
    && AllWorthRetry(e.calls, e.attempts)
    && var last := LastOf(e.calls);
       match e.cause
       case AtTop => e.err == if e.calls == [] then Some(ContextEnded) else last
       case Succeeded => last == None == e.err
       case GaveUp => last.Some? && ChainStops(last.value) && e.err == last
       case OutOfBudget => WorthRetry(last) && e.err == last
       case InSleep => WorthRetry(last) && e.err == Some(ContextEnded)
  }

  lemma {:induction false} ExecuteTraced(r: RetryConfig, script: seq<Round>, s: Loop)
    requires TracedSoFar(s)
    ensures WellTraced(Execute(r, script, s))
    decreases |script|
  {
    if script != [] && script[0].result.Some? { FoundIff(script[0].result.value); }
    if Continues(r, script, s) {
      ExecuteTraced(r, script[1..], After(r, s, script[0]));
    }
  }

  /** Only a failure without a permanent error and without the end of the context in
      its chain is followed by another call. There is one call more
      than retries, except when the context is found ended at the top of the
      loop: then there are as many. The error returned is the last one of the
      operation, or the context's. */
  lemma RetryTrace(r: RetryConfig, script: seq<Round>)
    ensures WellTraced(Result(r, script))
  {
    ExecuteTraced(r, script, Begin(r));
  }

  /** A failure with a permanent error or the end of the context in its chain is the last
      call, and is returned; the loop gives up for no other reason. */
  lemma PermanentIsFinal(r: RetryConfig, script: seq<Round>, i: nat)
    requires i < |Result(r, script).calls|
    ensures var e := Result(r, script);
            && (e.calls[i].Some? && ChainStops(e.calls[i].value) ==>
                  i == |e.calls| - 1 && e.cause == GaveUp && e.err == e.calls[i] && |e.sleeps| == i)
            && (e.cause == GaveUp && i == |e.calls| - 1 ==> e.calls[i].Some? && ChainStops(e.calls[i].value))
  {
    RetryTrace(r, script);
  }

  // ---- The time that counts ----

  /** The time the first `n` turns take: operation, look at the budget, sleep, late timer. */
  function Spent(script: seq<Round>, sleeps: seq<int>, n: nat): int
    requires n <= |script| && n <= |sleeps|
  {
    if n == 0 then 0
    else Spent(script, sleeps, n - 1) + script[n - 1].opTime + script[n - 1].gap + sleeps[n - 1] + script[n - 1].overshoot
  }

  lemma {:induction false} SpentBefore(script: seq<Round>, sleeps: seq<int>, more: seq<int>, n: nat)
    requires n <= |script| && n <= |sleeps| && sleeps <= more
    ensures Spent(script, more, n) == Spent(script, sleeps, n)
  {
    if n > 0 { SpentBefore(script, sleeps, more, n - 1); }
  }

  /** A sleep is asked for while there is time left, and for no more than that; the loop
      stops for want of time when none is left. */
  ghost predicate BudgetKept(r: RetryConfig, script: seq<Round>, e: Exit) {
    && |e.sleeps| <= |script|
    && (forall i :: 0 <= i < |e.sleeps| ==> SleepKept(r, script, e.sleeps, i))
    && (e.cause.OutOfBudget? ==>
          var n := |e.sleeps|;
          n < |script| && r.maxElapsed > 0 && Spent(script, e.sleeps, n) + script[n].opTime + script[n].gap >= r.maxElapsed)
  }

  predicate SleepKept(r: RetryConfig, script: seq<Round>, sleeps: seq<int>, i: nat)
    requires i < |sleeps| <= |script|
  {
    var before := Spent(script, sleeps, i) + script[i].opTime + script[i].gap;
    r.maxElapsed > 0 ==> before < r.maxElapsed && before + sleeps[i] <= r.maxElapsed
  }

  ghost predicate KeptSoFar(r: RetryConfig, script: seq<Round>, s: Loop) {
    && |s.sleeps| <= |script| && s.elapsed == Spent(script, s.sleeps, |s.sleeps|)
    && forall i :: 0 <= i < |s.sleeps| ==> SleepKept(r, script, s.sleeps, i)
  }

  lemma NextSleepKept(r: RetryConfig, script: seq<Round>, s: Loop, d: int)
    requires KeptSoFar(r, script, s) && |s.sleeps| < |script| && !BudgetSpent(r, s, script[|s.sleeps|])
    requires d == Sleep(r, s, script[|s.sleeps|])
    ensures forall i :: 0 <= i <= |s.sleeps| ==> SleepKept(r, script, s.sleeps + [d], i)
    ensures Spent(script, s.sleeps + [d], |s.sleeps|) == s.elapsed
  {
    var n, more := |s.sleeps|, s.sleeps + [d];
    SleepFits(r, s, script[n]);
    forall i | 0 <= i <= n ensures SleepKept(r, script, more, i) {
      SpentBefore(script, s.sleeps, more, i);
      if i < n { assert SleepKept(r, script, s.sleeps, i) && more[i] == s.sleeps[i]; }
    }
    SpentBefore(script, s.sleeps, more, n);
  }

  lemma {:induction false} ExecuteKeeps(r: RetryConfig, script: seq<Round>, s: Loop)
    requires KeptSoFar(r, script, s)
    ensures BudgetKept(r, script, Execute(r, script[|s.sleeps|..], s))
    decreases |script| - |s.sleeps|
  {
    var n := |s.sleeps|;
    var rest := script[n..];
    if rest != [] {
      var round := script[n];
      assert rest[0] == round && rest[1..] == script[n + 1..];
      if !BudgetSpent(r, s, round) { NextSleepKept(r, script, s, Sleep(r, s, round)); }
      if Continues(r, rest, s) {
        AfterIs(r, s, round, Sleep(r, s, round), Grown(r, s.interval));
        ExecuteKeeps(r, script, After(r, s, round));
      }
    }
  }

  /** Everything that takes time counts against the budget: what the operation takes, the
      sleeps and the lateness of their timers. */
  lemma TimeCounts(r: RetryConfig, script: seq<Round>)
    ensures BudgetKept(r, script, Result(r, script))
  {
    assert script[0..] == script;
    ExecuteKeeps(r, script, Begin(r));
  }

  // ---- Defaults ----

  lemma {:induction false} SameFactors(r: RetryConfig, q: RetryConfig, script: seq<Round>, s: Loop)
    requires Multiplier(r) == Multiplier(q) && Jitter(r) == Jitter(q) && MaxInterval(r) == MaxInterval(q) && r.maxElapsed == q.maxElapsed
    ensures Execute(r, script, s) == Execute(q, script, s)
    decreases |script|
  {
    if Continues(r, script, s) {
      assert After(r, s, script[0]) == After(q, s, script[0]);
      SameFactors(r, q, script[1..], After(r, s, script[0]));
    }
  }

  /** With everything filled in that does not make sense. */
  function Filled(r: RetryConfig): RetryConfig {
    var initial := if r.initial <= 0 then 500_000_000 else r.initial;
    RetryConfig(initial, if r.max <= 0 then initial else r.max, r.maxElapsed,
                if r.multiplier <= 0.0 then 2.0 else r.multiplier,
                if r.jitter < 0.0 then 0.0 else if r.jitter > 1.0 then 1.0 else r.jitter)
  }

  /** A configuration does what it does with 500ms for no first interval, the first
      interval for no Max, doubling for no multiplier, and jitter cut to 0 to 1. */
  lemma DefaultsFilled(r: RetryConfig, script: seq<Round>)
    ensures Result(r, script) == Result(Filled(r), script)
  {
    SameFactors(r, Filled(r), script, Begin(r));
  }

  lemma {:induction false} CallsGrow(r: RetryConfig, script: seq<Round>, s: Loop)
    ensures |Execute(r, script, s).calls| >= |s.calls|
    decreases |script|
  {
    if Continues(r, script, s) {
      CallsGrow(r, script[1..], After(r, s, script[0]));
    }
  }

  /** The operation is called at least once, as the comment has it, exactly when the
      context has not ended before the call. */
  lemma CalledAtLeastOnceIff(r: RetryConfig, script: seq<Round>)
    ensures Result(r, script).calls != [] <==> script != [] && !script[0].done
    ensures Result(r, script).calls == [] ==> Result(r, script).err == Some(ContextEnded) && Result(r, script).attempts == 0
  {
    if Continues(r, script, Begin(r)) {
      CallsGrow(r, script[1..], After(r, Begin(r), script[0]));
    }
  }

  // ---- Intervals ----

  /** The interval before the k-th sleep. */
  function IntervalAt(r: RetryConfig, k: nat): nat {
    if k == 0 then FirstInterval(r) else Grown(r, IntervalAt(r, k - 1))
  }

  ghost predicate OnSchedule(r: RetryConfig, intervals: seq<nat>) {
    forall i :: 0 <= i < |intervals| ==> intervals[i] == IntervalAt(r, i)
  }

  lemma {:induction false} IntervalsFrom(r: RetryConfig, script: seq<Round>, s: Loop)
    requires s.interval == IntervalAt(r, s.attempts) && |s.intervals| == s.attempts && OnSchedule(r, s.intervals)
    ensures OnSchedule(r, Execute(r, script, s).intervals)
    decreases |script|
  {
    if Continues(r, script, s) {
      IntervalsFrom(r, script[1..], After(r, s, script[0]));
    }
  }

  function Power(k: nat): nat {
    if k == 0 then 1 else 2 * Power(k - 1)
  }

  lemma Doubles(d: nat)
    ensures Scaled(d, 2.0) == 2 * d
  {}

  lemma PowerNext(d: int, k: nat)
    requires k > 0
    ensures d * Power(k) == 2 * (d * Power(k - 1))
  {}

  lemma {:induction false} DoublingInterval(r: RetryConfig, k: nat)
    requires 0 < r.initial <= r.max && Multiplier(r) == 2.0
    ensures IntervalAt(r, k) == (if r.initial * Power(k) <= r.max then r.initial * Power(k) else r.max)
    ensures 0 < r.initial * Power(k)
  {
    if k > 0 {
      DoublingInterval(r, k - 1);
      Doubles(IntervalAt(r, k - 1));
      PowerNext(r.initial, k);
    }
  }

  /** With an initial interval within the cap and doubling, the k-th interval is
      min(initial * 2^k, max). */
  lemma IntervalFormula(r: RetryConfig, script: seq<Round>, k: nat)
    requires 0 < r.initial <= r.max && Multiplier(r) == 2.0
    requires k < |Result(r, script).intervals|
    ensures Result(r, script).intervals[k] == if r.initial * Power(k) <= r.max then r.initial * Power(k) else r.max
  {
    IntervalsFrom(r, script, Begin(r));
    DoublingInterval(r, k);
  }

  lemma {:induction false} LaterIntervalsCapped(r: RetryConfig, k: nat)
    ensures k > 0 ==> IntervalAt(r, k) <= MaxInterval(r)
  {}

  /** A round in which everything is immediate and the operation fails. */
  function Failing(sample: Sample): Round {
    Round(false, Some(Plain("unavailable")), 0, 0, sample, false, 0)
  }

  /** Max caps every interval exactly when it caps the first one, which the code
      takes as configured. */
  lemma IntervalsCappedIff(r: RetryConfig)
    ensures (forall script, k :: 0 <= k < |Result(r, script).intervals| ==> Result(r, script).intervals[k] <= MaxInterval(r))
       <==> FirstInterval(r) <= MaxInterval(r)
  {
    if FirstInterval(r) <= MaxInterval(r) {
      forall script, k | 0 <= k < |Result(r, script).intervals| ensures Result(r, script).intervals[k] <= MaxInterval(r) {
        IntervalsFrom(r, script, Begin(r));
        LaterIntervalsCapped(r, k);
      }
    } else {
      OneRound(r, 0.0);
      assert Result(r, [Failing(0.0)]).intervals[0] == FirstInterval(r);
    }
  }

  lemma OneRound(r: RetryConfig, sample: Sample)
    ensures Result(r, [Failing(sample)]).sleeps == [Sleep(r, Begin(r), Failing(sample))]
    ensures Result(r, [Failing(sample)]).intervals == [FirstInterval(r)]
  {
    var script := [Failing(sample)];
    var s := After(r, Begin(r), Failing(sample));
    assert Continues(r, script, Begin(r)) && script[1..] == [];
    assert Result(r, script) == Execute(r, [], s) == Leave(s, s.err, AtTop);
  }

  ghost predicate SleepsUpTo(m: int, sleeps: seq<int>) {
    forall d <- sleeps :: d <= m
  }

  lemma Fraction(a: real, b: real)
    requires 0.0 < a < b
    ensures 0.0 < a / b < 1.0 && (a / b) * b == a
  {
    var q := a / b;
    assert q * b == a;
    Distribute(q, b);
    if q >= 1.0 {
      Scales(q - 1.0, b);
    } else if q <= 0.0 {
      Scales(-q, b);
    }
  }

  lemma Distribute(x: real, y: real)
    ensures x * y == y + (x - 1.0) * y == y - (1.0 - x) * y == -((-x) * y)
  {}

  lemma Enlarges(d: nat, m: real)
    requires m >= 1.0
    ensures Scaled(d, m) >= d
  {}

  // ---- Termination ----

  /** The shortest k-th sleep the jitter allows, and the sum of the first n of them. */
  function LeastSleep(r: RetryConfig, k: nat): nat {
    JitterRange(IntervalAt(r, k), Jitter(r), 0.0);
    JitterInterval(IntervalAt(r, k), Jitter(r), 0.0)
  }

  function LeastTotal(r: RetryConfig, n: nat): nat {
    if n == 0 then 0 else LeastTotal(r, n - 1) + LeastSleep(r, n - 1)
  }

  lemma LeastTotalNext(r: RetryConfig, n: nat)
    ensures LeastTotal(r, n + 1) == LeastTotal(r, n) + LeastSleep(r, n)
  {}

  lemma {:induction false} LeastTotalGrows(r: RetryConfig, m: nat, n: nat)
    requires m <= n
    ensures LeastTotal(r, m) <= LeastTotal(r, n)
  {
    if m < n { LeastTotalGrows(r, m, n - 1); }
  }

  /** As much time has passed as the shortest sleeps take, or all there is. */
  ghost predicate Slow(r: RetryConfig, s: Loop) {
    s.interval == IntervalAt(r, s.attempts) && (s.elapsed >= LeastTotal(r, s.attempts) || s.elapsed >= r.maxElapsed)
  }

  lemma NextSlow(r: RetryConfig, s: Loop, round: Round)
    requires r.maxElapsed > 0 && Slow(r, s) && !BudgetSpent(r, s, round)
    ensures s.elapsed >= LeastTotal(r, s.attempts) && Slow(r, After(r, s, round))
  {
    JitterRange(s.interval, Jitter(r), round.sample);
  }

  lemma {:induction false} AttemptsAtMost(r: RetryConfig, script: seq<Round>, s: Loop, n: nat)
    requires r.maxElapsed > 0 && LeastTotal(r, n) >= r.maxElapsed && s.attempts <= n && Slow(r, s)
    ensures Execute(r, script, s).attempts <= n
    decreases |script|
  {
    if Continues(r, script, s) {
      NextSlow(r, s, script[0]);
      AttemptsAtMost(r, script[1..], After(r, s, script[0]), n);
    }
  }

  /** Immediate failures and the shortest sleeps: one round leads to the next, unless it is the last. */
  lemma NextWorst(r: RetryConfig, s: Loop, n: nat)
    requires r.maxElapsed <= 0 || LeastTotal(r, n) < r.maxElapsed
    requires s.attempts <= n && s.interval == IntervalAt(r, s.attempts) && s.elapsed == LeastTotal(r, s.attempts)
    ensures !BudgetSpent(r, s, Failing(0.0))
    ensures var s' := After(r, s, Failing(0.0));
            && s'.attempts == s.attempts + 1 && s'.interval == IntervalAt(r, s'.attempts)
            && (s.attempts < n ==> s'.elapsed == LeastTotal(r, s'.attempts))
  {
    LeastTotalGrows(r, s.attempts, n);
    AfterIs(r, s, Failing(0.0), Sleep(r, s, Failing(0.0)), Grown(r, s.interval));
    LeastTotalNext(r, s.attempts);
    if s.attempts < n { LeastTotalGrows(r, s.attempts + 1, n); }
  }

  lemma {:induction false} WorstCase(r: RetryConfig, s: Loop, m: nat, n: nat)
    requires r.maxElapsed <= 0 || LeastTotal(r, n) < r.maxElapsed
    requires s.attempts + m == n + 1 && s.interval == IntervalAt(r, s.attempts)
    requires m > 0 ==> s.elapsed == LeastTotal(r, s.attempts)
    ensures Execute(r, Repeat(Failing(0.0), m), s).attempts == n + 1
    decreases m
  {
    if m > 0 {
      var script := Repeat(Failing(0.0), m);
      NextWorst(r, s, n);
      assert Continues(r, script, s);
      assert script[1..] == Repeat(Failing(0.0), m - 1);
      WorstCase(r, After(r, s, Failing(0.0)), m - 1, n);
    }
  }

  /** There are never more than `n` retries, whatever happens, exactly when there is
      a budget and the n shortest sleeps exhaust it. */
  lemma AttemptsBoundedIff(r: RetryConfig, n: nat)
    ensures (forall script :: Result(r, script).attempts <= n) <==> r.maxElapsed > 0 && LeastTotal(r, n) >= r.maxElapsed
  {
    if r.maxElapsed > 0 && LeastTotal(r, n) >= r.maxElapsed {
      forall script ensures Result(r, script).attempts <= n {
        AttemptsAtMost(r, script, Begin(r), n);
      }
    } else {
      WorstCase(r, Begin(r), n + 1, n);
      assert Result(r, Repeat(Failing(0.0), n + 1)).attempts == n + 1;
    }
  }

  // ---- Sleeps and the cap ----

  /** Some sample takes the interval above `m`. */
  predicate Over(d: nat, j: real, m: int) {
    if j == 0.0 then d > m else High(d, j) > m as real + 1.0
  }

  /** With immediate failures and the shortest sleeps the budget lasts for a k-th sleep. */
  predicate Attempted(r: RetryConfig, k: nat) {
    r.maxElapsed <= 0 || LeastTotal(r, k) < r.maxElapsed
  }

  /** A k-th sleep can be asked for that is longer than Max: jitter can take the interval
      above it, and more than Max is left of the budget. */
  predicate CanExceed(r: RetryConfig, k: nat) {
    && Attempted(r, k) && Over(IntervalAt(r, k), Jitter(r), MaxInterval(r))
    && (r.maxElapsed <= 0 || r.maxElapsed - LeastTotal(r, k) > MaxInterval(r))
  }

  lemma FloorAbove(x: real, m: int)
    requires x >= m as real + 1.0
    ensures x.Floor > m
  {}

  lemma FloorBelow(x: real, m: int)
    requires x < m as real + 1.0
    ensures x.Floor <= m
  {}

  lemma Overshooting(d: nat, j: real, m: nat) returns (sample: Sample)
    requires 0.0 <= j <= 1.0 && Over(d, j, m)
    ensures JitterInterval(d, j, sample) > m
  {
    LowHigh(d, j);
    var low, high, goal := Low(d, j), High(d, j), m as real + 1.0;
    if j == 0.0 || low >= goal {
      sample := 0.0;
      BetweenRange(low, high, sample);
      if j != 0.0 { FloorAbove(low, m); }
    } else {
      Fraction(goal - low, high - low);
      sample := (goal - low) / (high - low);
      assert Between(low, high, sample) == goal;
      FloorAbove(goal, m);
    }
  }

  lemma BelowHigh(low: real, high: real, sample: Sample)
    requires low < high
    ensures Between(low, high, sample) < high
  {
    Distribute(sample, high - low);
    Strict(1.0 - sample, high - low);
  }

  lemma Strict(x: real, y: real)
    requires 0.0 < x && 0.0 < y
    ensures 0.0 < x * y
  {}

  lemma NotOver(d: nat, j: real, m: nat, sample: Sample)
    requires 0.0 <= j <= 1.0 && !Over(d, j, m)
    ensures JitterInterval(d, j, sample) <= m
  {
    LowHigh(d, j);
    if j != 0.0 {
      var x := Between(Low(d, j), High(d, j), sample);
      BetweenRange(Low(d, j), High(d, j), sample);
      if Low(d, j) < High(d, j) {
        BelowHigh(Low(d, j), High(d, j), sample);
      } else {
        LevelIsZero(d, j);
      }
      FloorBelow(x, m);
    }
  }

  lemma LevelIsZero(d: nat, j: real)
    requires 0.0 < j <= 1.0 && Low(d, j) >= High(d, j)
    ensures High(d, j) == 0.0
  {
    if d > 0 { Strict(d as real, j); }
    assert High(d, j) - Low(d, j) == 2.0 * (d as real * j);
  }

  /** Immediate failures, the shortest sleeps, and then one with this sample. */
  function Late(rounds: nat, sample: Sample): seq<Round> {
    Repeat(Failing(0.0), rounds) + [Failing(sample)]
  }

  /** The sleep then asked for. */
  function LateSleep(r: RetryConfig, k: nat, sample: Sample): int {
    var d := JitterInterval(IntervalAt(r, k), Jitter(r), sample);
    if r.maxElapsed > 0 && d > r.maxElapsed - LeastTotal(r, k) then r.maxElapsed - LeastTotal(r, k) else d
  }

  lemma LastRound(r: RetryConfig, s: Loop, sample: Sample)
    requires !BudgetSpent(r, s, Failing(sample))
    ensures Execute(r, [Failing(sample)], s).sleeps == s.sleeps + [Sleep(r, s, Failing(sample))]
  {
    var s' := After(r, s, Failing(sample));
    assert Continues(r, [Failing(sample)], s) && [Failing(sample)][1..] == [];
    assert Execute(r, [Failing(sample)], s) == Execute(r, [], s') == Leave(s', s'.err, AtTop);
  }

  lemma {:induction false} LateSleeps(r: RetryConfig, s: Loop, k: nat, sample: Sample)
    requires Attempted(r, k) && s.attempts <= k && |s.sleeps| == s.attempts
    requires s.interval == IntervalAt(r, s.attempts) && s.elapsed == LeastTotal(r, s.attempts)
    ensures var sleeps := Execute(r, Late(k - s.attempts, sample), s).sleeps;
            |sleeps| == k + 1 && sleeps[k] == LateSleep(r, k, sample)
    decreases k - s.attempts
  {
    var script := Late(k - s.attempts, sample);
    if s.attempts == k {
      assert script == [Failing(sample)];
      LastRound(r, s, sample);
    } else {
      NextWorst(r, s, k);
      assert script[0] == Failing(0.0) && script[1..] == Late(k - s.attempts - 1, sample);
      assert Continues(r, script, s);
      LateSleeps(r, After(r, s, Failing(0.0)), k, sample);
    }
  }

  lemma ExceedingScript(r: RetryConfig, k: nat) returns (script: seq<Round>)
    requires CanExceed(r, k)
    ensures !SleepsUpTo(MaxInterval(r), Result(r, script).sleeps)
  {
    var sample := Overshooting(IntervalAt(r, k), Jitter(r), MaxInterval(r));
    script := Late(k, sample);
    LateSleeps(r, Begin(r), k, sample);
    var sleeps := Result(r, script).sleeps;
    assert sleeps[k] in sleeps;
  }

  /** As much time has passed as the shortest sleeps take. */
  ghost predicate Paced(r: RetryConfig, s: Loop) {
    s.interval == IntervalAt(r, s.attempts) && (r.maxElapsed > 0 ==> Slow(r, s))
  }

  lemma PacedSleep(r: RetryConfig, s: Loop, round: Round)
    requires Paced(r, s) && !BudgetSpent(r, s, round) && !CanExceed(r, s.attempts)
    ensures Sleep(r, s, round) <= MaxInterval(r)
  {
    if Over(s.interval, Jitter(r), MaxInterval(r)) {
      assert r.maxElapsed > 0;
      NextSlow(r, s, round);
    } else {
      NotOver(s.interval, Jitter(r), MaxInterval(r), round.sample);
    }
  }

  lemma NextPaced(r: RetryConfig, s: Loop, round: Round)
    requires Paced(r, s) && !BudgetSpent(r, s, round)
    ensures Paced(r, After(r, s, round))
  {
    AfterIs(r, s, round, Sleep(r, s, round), Grown(r, s.interval));
    if r.maxElapsed > 0 { NextSlow(r, s, round); }
  }

  lemma {:induction false} SleepsStayCapped(r: RetryConfig, script: seq<Round>, s: Loop)
    requires (forall k: nat :: !CanExceed(r, k)) && Paced(r, s) && SleepsUpTo(MaxInterval(r), s.sleeps)
    ensures SleepsUpTo(MaxInterval(r), Execute(r, script, s).sleeps)
    decreases |script|
  {
    if script != [] && !BudgetSpent(r, s, script[0]) { PacedSleep(r, s, script[0]); }
    if Continues(r, script, s) {
      NextPaced(r, s, script[0]);
      SleepsStayCapped(r, script[1..], After(r, s, script[0]));
    } else {
      LastSleeps(r, script, s);
    }
  }

  /** Jitter comes behind the cap. No sleep of any execution is longer than Max if and
      only if there is no k for which the budget lasts, at its longest, for a k-th
      sleep with more than Max left and jitter can take the k-th interval above Max. */
  lemma SleepsCappedIff(r: RetryConfig)
    ensures (forall script :: SleepsUpTo(MaxInterval(r), Result(r, script).sleeps)) <==> (forall k: nat :: !CanExceed(r, k))
  {
    if forall k: nat :: !CanExceed(r, k) {
      forall script ensures SleepsUpTo(MaxInterval(r), Result(r, script).sleeps) {
        SleepsStayCapped(r, script, Begin(r));
      }
    } else {
      var k: nat :| CanExceed(r, k);
      var script := ExceedingScript(r, k);
    }
  }

  // ---- Bounds ----

  lemma {:induction false} IntervalsAtLeast(r: RetryConfig, k: nat, low: nat)
    requires Multiplier(r) >= 1.0 && low <= FirstInterval(r) && low <= MaxInterval(r)
    ensures IntervalAt(r, k) >= low
  {
    if k > 0 {
      IntervalsAtLeast(r, k - 1, low);
      Enlarges(IntervalAt(r, k - 1), Multiplier(r));
    }
  }

  lemma LowAtLeast(d: nat, low: nat, j: real)
    requires low <= d && j <= 1.0 && Low(low, j) >= 1.0
    ensures Low(d, j) >= 1.0 && Low(d, j).Floor >= 1
  {}

  lemma LeastSleepAtLeast(r: RetryConfig, k: nat, low: nat)
    requires Multiplier(r) >= 1.0 && low <= FirstInterval(r) && low <= MaxInterval(r)
    requires Low(low, Jitter(r)) >= 1.0
    ensures LeastSleep(r, k) >= 1
  {
    IntervalsAtLeast(r, k, low);
    JitterRange(IntervalAt(r, k), Jitter(r), 0.0);
    LowAtLeast(IntervalAt(r, k), low, Jitter(r));
  }

  lemma {:induction false} LeastTotalAtLeast(r: RetryConfig, n: nat)
    requires forall k: nat :: LeastSleep(r, k) >= 1
    ensures LeastTotal(r, n) >= n
  {
    if n > 0 {
      LeastTotalAtLeast(r, n - 1);
    }
  }

  /** With a budget, a multiplier of at least one and jitter that leaves a
      nanosecond of the smallest interval, the loop ends. */
  lemma Terminates(r: RetryConfig, script: seq<Round>)
    requires r.maxElapsed > 0 && Multiplier(r) >= 1.0
    requires Low(FirstInterval(r), Jitter(r)) >= 1.0 && Low(MaxInterval(r), Jitter(r)) >= 1.0
    ensures Result(r, script).attempts <= r.maxElapsed
  {
    var low := if FirstInterval(r) < MaxInterval(r) then FirstInterval(r) else MaxInterval(r);
    forall k: nat ensures LeastSleep(r, k) >= 1 {
      LeastSleepAtLeast(r, k, low);
    }
    LeastTotalAtLeast(r, r.maxElapsed);
    AttemptsBoundedIff(r, r.maxElapsed);
  }

  lemma {:induction false} FullJitterTakesNoTime(r: RetryConfig, n: nat)
    requires r.jitter >= 1.0
    ensures LeastTotal(r, n) == 0
  {
    if n > 0 {
      FullJitterTakesNoTime(r, n - 1);
      var d := IntervalAt(r, n - 1);
      JitterRange(d, 1.0, 0.0);
      assert Low(d, 1.0) == 0.0;
    }
  }

  /** Full jitter allows any number of retries within the budget. */
  lemma FullJitterUnbounded(r: RetryConfig, n: nat)
    requires r.jitter >= 1.0
    ensures exists script :: Result(r, script).attempts > n
  {
    FullJitterTakesNoTime(r, n);
    AttemptsBoundedIff(r, n);
  }

  /** `total` in tenths, `d` in whole milliseconds: a fifth of the interval may be missing. */
  lemma DefaultNext(k: nat, total: nat, d: nat)
    requires LeastTotal(DEFAULT, k) == total * (MILLISECOND / 10)
    requires d == (if 500 * Power(k) <= 10000 then 500 * Power(k) else 10000)
    ensures LeastTotal(DEFAULT, k + 1) == (total + 8 * d) * (MILLISECOND / 10)
  {
    DoublingInterval(DEFAULT, k);
    assert IntervalAt(DEFAULT, k) == d * MILLISECOND;
    JitterRange(d * MILLISECOND, 0.2, 0.0);
    assert Low(d * MILLISECOND, 0.2) == (d * 800_000) as real;
    LeastTotalNext(DEFAULT, k);
  }

  /** The default configuration makes at most 8 retries, and 8 can happen. */
  lemma DefaultRetriesAtMostEight()
    ensures forall script :: Result(DEFAULT, script).attempts <= 8
    ensures exists script :: Result(DEFAULT, script).attempts == 8
  {
    assert Power(1) == 2 && Power(2) == 4;
    assert Power(3) == 8 && Power(4) == 16;
    assert Power(5) == 32 && Power(6) == 64 && Power(7) == 128;
    DefaultNext(0, 0, 500);
    DefaultNext(1, 4000, 1000);
    DefaultNext(2, 12000, 2000);
    DefaultNext(3, 28000, 4000);
    DefaultNext(4, 60000, 8000);
    DefaultNext(5, 124000, 10000);
    DefaultNext(6, 204000, 10000);
    DefaultNext(7, 284000, 10000);
    AttemptsBoundedIff(DEFAULT, 8);
    AttemptsBoundedIff(DEFAULT, 7);
  }

  lemma DefaultFive()
    ensures LeastTotal(DEFAULT, 5) == 12400 * MILLISECOND && IntervalAt(DEFAULT, 5) == 10 * SECOND
  {
    assert Power(1) == 2 && Power(2) == 4;
    assert Power(3) == 8 && Power(4) == 16 && Power(5) == 32;
    DefaultNext(0, 0, 500);
    DefaultNext(1, 4000, 1000);
    DefaultNext(2, 12000, 2000);
    DefaultNext(3, 28000, 4000);
    DefaultNext(4, 60000, 8000);
    DoublingInterval(DEFAULT, 5);
  }

  /** The default configuration can ask for a sleep of 11 seconds, with Max at 10. */
  lemma DefaultExceedsMax()
    ensures exists script :: 11 * SECOND in Result(DEFAULT, script).sleeps
    ensures MaxInterval(DEFAULT) == 10 * SECOND && exists k: nat :: CanExceed(DEFAULT, k)
  {
    DefaultFive();
    assert High(10 * SECOND, 0.2) == (12 * SECOND) as real && Low(10 * SECOND, 0.2) == (8 * SECOND) as real;
    assert CanExceed(DEFAULT, 5);
    assert JitterInterval(10 * SECOND, 0.2, 0.75) == 11 * SECOND;
    LateSleeps(DEFAULT, Begin(DEFAULT), 5, 0.75);
    var sleeps := Result(DEFAULT, Late(5, 0.75)).sleeps;
    assert sleeps[5] in sleeps;
  }
}

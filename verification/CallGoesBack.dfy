/** For which calls a last activity can go back, over all executions of the call
    (internal/sink/runblock.go:324-345, 407-423, 498-533). */
module CallGoesBack {
  import opened Basics
  import opened Bucketing
  import opened RunBlockState
  import opened Interleaving
  import opened Guarantees
  import opened LockedSteps
  import opened LastActivity

  /** Whether one of these items can be taken for the run with a reading that is older
      than what others have left there, if only items of this run are buffered.
      `held` is the number of items in the run's buffer if others have not had the
      lock since the call took its last item of the run; without it others have it now. */
  predicate Exposes(c: Config, pendings: seq<Pending>, run: string, held: Option<nat>)
    decreases |pendings|
  {
    if pendings == [] then false
    else
      var rest, ends := pendings[1..], EndsRun(pendings[0].item);
      if pendings[0].runID != run then Exposes(c, rest, run, None)
      else if held.None? then !ends || Exposes(c, rest, run, Some(0))
      else held.value < c.maxItems && Exposes(c, rest, run, Some(if ends then 0 else held.value + 1))
  }

  /** The call streams an item, and behind it there is such an item of a run that is not
      truncated by then. */
  ghost predicate ExposedBehind(c: Config, st: State, pendings: seq<Pending>, now: int) {
    var k := FirstStreamed(c, st, pendings, now);
    k < |pendings|
      && var left, truncated := pendings[k + 1..], StateAfter(c, st, pendings, now, k + 1).truncated;
         exists run :: run !in truncated && Exposes(c, left, run, None)
  }

  /** Others and the call itself act, and then its next item moves its run back. */
  ghost predicate ComesBack(c: Config, l: Locked, t: nat, actions: seq<LockedAction>) {
    && SameCall(actions, t) && LockedRun(c, l, actions).Some?
    && var l' := LockedRun(c, l, actions).value;
       May(c, l', Do(TakeItem(t)))
         && GoesBack(l'.sys.st, Go(c, l', Do(TakeItem(t))).sys.st, l'.sys.threads[t].pendings[0].runID)
  }

  // ---- Only then ----

  /** The run has only what the call has put there in this hold of the lock. */
  ghost predicate OwnBuffer(l: Locked, t: nat, run: string)
    requires t in l.sys.threads && !l.sys.threads[t].Sorting? && !l.sys.threads[t].Forwarding? && !l.sys.threads[t].Waiting?
  {
    l.holder == Some(t) && (run in l.sys.st.runs ==> l.sys.st.runs[run].lastActivity == l.sys.threads[t].now)
  }

  /** The call, having streamed, can move the run back with none of its items. */
  ghost predicate Settled(c: Config, l: Locked, t: nat, run: string)
    requires t in l.sys.threads && (l.sys.threads[t].Enqueuing? || l.sys.threads[t].Streaming?)
  {
    var pendings := l.sys.threads[t].pendings;
    run in l.sys.st.truncated || !Exposes(c, pendings, run, None)
      || (OwnBuffer(l, t, run) && !Exposes(c, pendings, run, Some(|OpenItems(l.sys.st, run)|)))
  }

  ghost predicate NeverBack(c: Config, l: Locked, t: nat) {
    t in l.sys.threads ==>
      var th := l.sys.threads[t];
      if t in l.streamed then (th.Enqueuing? || th.Streaming?) && forall run :: Settled(c, l, t, run)
      else th.Enqueuing? && !ExposedBehind(c, l.sys.st, th.pendings, th.now)
  }

  lemma TruncatedGrows(c: Config, l: Locked, la: LockedAction)
    requires May(c, l, la)
    ensures l.sys.st.truncated <= Go(c, l, la).sys.st.truncated
  {
    if la.Do? { StepTruncates(c, l.sys, la.action); }
  }

  lemma OtherLeavesThread(c: Config, l: Locked, la: LockedAction, t: nat)
    requires May(c, l, la) && t in l.sys.threads && Actor(la) != Some(t)
    ensures var l' := Go(c, l, la);
            && t in l'.sys.threads && l'.sys.threads[t] == l.sys.threads[t]
            && (t in l'.streamed <==> t in l.streamed)
            && (l.holder == Some(t) ==> l'.holder == Some(t))
  {}

  lemma NeverBackOther(c: Config, l: Locked, la: LockedAction, t: nat)
    requires ClocksOk(l) && May(c, l, la) && NeverBack(c, l, t) && t in l.sys.threads && Actor(la) != Some(t)
    ensures NeverBack(c, Go(c, l, la), t)
  {
    var l' := Go(c, l, la);
    assert ClockOk(l, t);
    OtherLeavesThread(c, l, la, t);
    TruncatedGrows(c, l, la);
    if l.holder == Some(t) { HeldStateStays(c, l, la, t); }
    if t in l.streamed {
      forall run ensures Settled(c, l', t, run) { assert Settled(c, l, t, run); }
    }
  }

  /** Before the call has streamed: the item it takes is not streamed, or is the first. */
  lemma TakeBeforeStream(c: Config, l: Locked, t: nat)
    requires May(c, l, Do(TakeItem(t))) && NeverBack(c, l, t) && t !in l.streamed
    ensures NeverBack(c, Go(c, l, Do(TakeItem(t))), t)
  {
    var th, l' := l.sys.threads[t], Go(c, l, Do(TakeItem(t)));
    var r := Enqueue(c, l.sys.st, th.pendings[0], th.now);
    var k := FirstStreamed(c, l.sys.st, th.pendings, th.now);
    if r.stream {
      assert th.pendings[k + 1..] == th.pendings[1..];
      assert StateAfter(c, l.sys.st, th.pendings, th.now, 1) == r.state;
      forall run ensures Settled(c, l', t, run) {}
    } else if k < |th.pendings| {
      assert th.pendings[1..][k - 1 + 1..] == th.pendings[k + 1..];
    }
  }

  /** Afterwards: for each run nothing is exposed by what is left. */
  lemma TakeSettled(c: Config, l: Locked, t: nat, run: string)
    requires May(c, l, Do(TakeItem(t))) && Settled(c, l, t, run)
    ensures Settled(c, Go(c, l, Do(TakeItem(t))), t, run)
  {
    var p, now, n := l.sys.threads[t].pendings[0], l.sys.threads[t].now, |OpenItems(l.sys.st, run)|;
    StepTruncates(c, l.sys, TakeItem(t));
    ArriveItems(c, l.sys.st, p, now);
    if run !in l.sys.st.truncated && p.runID == run && !Exposes(c, l.sys.threads[t].pendings, run, None) {
      assert EndsRun(p.item);
    }
  }

  lemma TakeAfterStream(c: Config, l: Locked, t: nat)
    requires May(c, l, Do(TakeItem(t))) && NeverBack(c, l, t) && t in l.streamed
    ensures NeverBack(c, Go(c, l, Do(TakeItem(t))), t)
  {
    var l' := Go(c, l, Do(TakeItem(t)));
    forall run ensures Settled(c, l', t, run) {
      assert Settled(c, l, t, run);
      TakeSettled(c, l, t, run);
    }
  }

  lemma NeverBackOwn(c: Config, l: Locked, la: LockedAction, t: nat)
    requires ClocksOk(l) && May(c, l, la) && NeverBack(c, l, t) && t in l.sys.threads && Actor(la) == Some(t)
    ensures NeverBack(c, Go(c, l, la), t)
  {
    var l' := Go(c, l, la);
    assert ClockOk(l, t);
    if la.Do? && la.action.TakeItem? {
      if t in l.streamed { TakeAfterStream(c, l, t); } else { TakeBeforeStream(c, l, t); }
    } else if t in l'.sys.threads {
      forall run ensures Settled(c, l', t, run) { assert Settled(c, l, t, run); }
    }
  }

  lemma {:induction false} NeverBackRun(c: Config, l: Locked, actions: seq<LockedAction>, t: nat)
    requires ClocksOk(l) && NeverBack(c, l, t) && SameCall(actions, t) && LockedRun(c, l, actions).Some?
    ensures NeverBack(c, LockedRun(c, l, actions).value, t)
    decreases |actions|
  {
    if actions != [] {
      var la := actions[0];
      GoClocks(c, l, la);
      if t !in l.sys.threads {
        OutlookAbsent(c, l, la, t, 0);
      } else if Actor(la) == Some(t) {
        NeverBackOwn(c, l, la, t);
      } else {
        NeverBackOther(c, l, la, t);
      }
      NeverBackRun(c, Go(c, l, la), actions[1..], t);
    }
  }

  /** What the invariant is for. */
  lemma NeverBackMeans(c: Config, l: Locked, t: nat)
    requires ClocksOk(l) && NeverBack(c, l, t) && May(c, l, Do(TakeItem(t)))
    ensures !GoesBack(l.sys.st, Go(c, l, Do(TakeItem(t))).sys.st, l.sys.threads[t].pendings[0].runID)
  {
    var p := l.sys.threads[t].pendings[0];
    assert ClockOk(l, t);
    if t in l.streamed { assert Settled(c, l, t, p.runID); }
  }

  lemma OneItemIsEnough(c: Config, st: State, p: Pending, now: int)
    requires c.maxItems < 2 && (p.runID in st.runs ==> st.runs[p.runID].items != [])
    ensures !GoesBack(st, Enqueue(c, st, p, now).state, p.runID)
  {
    ArriveItems(c, st, p, now);
  }

  lemma OpenHoldsItems(c: Config, l: Locked, run: string)
    requires Configured(c) && LockedReachable(c, l)
    ensures run in l.sys.st.runs ==> l.sys.st.runs[run].items != []
  {
    LockedIsReachable(c, l);
    if run in l.sys.st.runs { LockInvariant(c, l.sys, run); }
  }

  lemma NoneWithOneItem(c: Config, l: Locked, t: nat)
    requires Configured(c) && c.maxItems < 2 && LockedReachable(c, l) && May(c, l, Do(TakeItem(t)))
    ensures !GoesBack(l.sys.st, Go(c, l, Do(TakeItem(t))).sys.st, l.sys.threads[t].pendings[0].runID)
  {
    var p := l.sys.threads[t].pendings[0];
    OpenHoldsItems(c, l, p.runID);
    OneItemIsEnough(c, l.sys.st, p, l.sys.threads[t].now);
  }

  // ---- Then ----

  /** The run of an item is filled by other calls until it overflows. */
  lemma {:induction false} Overflown(c: Config, l: Locked, t: nat, run: string) returns (actions: seq<LockedAction>)
    requires l.holder == None && run != ""
    ensures LockedRun(c, l, actions).Some? && OthersOnly(actions, t)
    ensures var l' := LockedRun(c, l, actions).value;
            l'.holder == None && l'.sys.threads == l.sys.threads && l'.phase == l.phase
              && l'.sys.st.truncated == l.sys.st.truncated + {run}
    decreases run !in l.sys.st.truncated, c.maxItems - |OpenItems(l.sys.st, run)|
  {
    if run in l.sys.st.truncated {
      actions := [];
    } else {
      ArriveItems(c, l.sys.st, ItemOf(run), l.clock);
      var first := Interlude(c, l, t, run, l.clock);
      var l1 := LockedRun(c, l, first).value;
      var rest := Overflown(c, l1, t, run);
      LockedAppend(c, l, first, rest);
      actions := first + rest;
    }
  }

  /** Items of other runs are streamed. */
  predicate OthersStream(truncated: set<string>, pendings: seq<Pending>, run: string) {
    forall p <- pendings :: p.runID == run || p.runID in truncated
  }

  /** What others have done to streamed items' runs. */
  ghost predicate Filled(l: Locked, l': Locked, run: string) {
    && l'.holder == None && l'.sys.threads == l.sys.threads && l'.phase == l.phase
    && (run in l'.sys.st.truncated <==> run in l.sys.st.truncated) && l.sys.st.truncated <= l'.sys.st.truncated
  }

  lemma OtherOverflown(c: Config, l: Locked, t: nat, other: string, run: string) returns (actions: seq<LockedAction>)
    requires l.holder == None && other != ""
    ensures LockedRun(c, l, actions).Some? && OthersOnly(actions, t)
    ensures var l' := LockedRun(c, l, actions).value;
            Filled(l, l', run) && (other == run || other in l'.sys.st.truncated)
  {
    if other == run { actions := []; } else { actions := Overflown(c, l, t, other); }
  }

  lemma OthersStreamFirst(truncated: set<string>, pendings: seq<Pending>, run: string)
    requires pendings != [] && OthersStream(truncated, pendings[1..], run) && (pendings[0].runID == run || pendings[0].runID in truncated)
    ensures OthersStream(truncated, pendings, run)
  {
    assert pendings == [pendings[0]] + pendings[1..];
  }

  lemma {:induction false} OthersOverflown(c: Config, l: Locked, t: nat, pendings: seq<Pending>, run: string) returns (actions: seq<LockedAction>)
    requires l.holder == None && Named(pendings)
    ensures LockedRun(c, l, actions).Some? && OthersOnly(actions, t)
    ensures var l' := LockedRun(c, l, actions).value; Filled(l, l', run) && OthersStream(l'.sys.st.truncated, pendings, run)
    decreases |pendings|
  {
    if pendings == [] {
      actions := [];
    } else {
      var first := OtherOverflown(c, l, t, pendings[0].runID, run);
      var l1 := LockedRun(c, l, first).value;
      var rest := OthersOverflown(c, l1, t, pendings[1..], run);
      LockedAppend(c, l, first, rest);
      actions := first + rest;
      OthersStreamFirst(LockedRun(c, l1, rest).value.sys.st.truncated, pendings, run);
    }
  }

  lemma ComesBackThen(c: Config, l: Locked, t: nat, first: seq<LockedAction>, rest: seq<LockedAction>)
    requires SameCall(first, t) && LockedRun(c, l, first).Some? && ComesBack(c, LockedRun(c, l, first).value, t, rest)
    ensures ComesBack(c, l, t, first + rest)
  {
    LockedAppend(c, l, first, rest);
  }

  lemma OthersAreSame(actions: seq<LockedAction>, t: nat)
    requires OthersOnly(actions, t)
    ensures SameCall(actions, t)
  {}

  /** The call is between two items, with the lock or without, and its items of other
      runs will be streamed. */
  ghost predicate Playing(c: Config, l: Locked, t: nat, run: string) {
    && c.maxItems >= 2 && l.phase.Running? && t in l.sys.threads && l.sys.threads[t].Enqueuing?
    && run != "" && run !in l.sys.st.truncated && OthersStream(l.sys.st.truncated, l.sys.threads[t].pendings, run)
  }

  /** The next item is streamed. */
  lemma StreamsNext(c: Config, l: Locked, t: nat, run: string) returns (actions: seq<LockedAction>)
    requires Playing(c, l, t, run) && l.holder == Some(t)
    requires l.sys.threads[t].pendings != [] && l.sys.threads[t].pendings[0].runID != run
    ensures SameCall(actions, t) && LockedRun(c, l, actions).Some?
    ensures var l' := LockedRun(c, l, actions).value;
            Playing(c, l', t, run) && l'.holder == None && l'.sys.threads[t].pendings == l.sys.threads[t].pendings[1..]
  {
    var take, stream := Do(TakeItem(t)), Do(StreamItem(t));
    OneStep(c, l, take);
    LockedSnoc(c, l, [take], stream);
    actions := [take] + [stream];
  }

  /** The next item of the run is taken into its buffer or ends it. */
  lemma TakesNext(c: Config, l: Locked, t: nat, run: string) returns (l': Locked)
    requires Playing(c, l, t, run) && l.holder == Some(t)
    requires l.sys.threads[t].pendings != [] && l.sys.threads[t].pendings[0].runID == run
    requires |OpenItems(l.sys.st, run)| < c.maxItems
    ensures May(c, l, Do(TakeItem(t))) && l' == Go(c, l, Do(TakeItem(t)))
    ensures Playing(c, l', t, run) && l'.holder == Some(t) && l'.sys.threads[t].pendings == l.sys.threads[t].pendings[1..]
    ensures |OpenItems(l'.sys.st, run)| == if EndsRun(l.sys.threads[t].pendings[0].item) then 0 else |OpenItems(l.sys.st, run)| + 1
  {
    l' := Go(c, l, Do(TakeItem(t)));
    ArriveItems(c, l.sys.st, l.sys.threads[t].pendings[0], l.sys.threads[t].now);
  }

  lemma {:induction false} BackFromHold(c: Config, l: Locked, t: nat, run: string) returns (actions: seq<LockedAction>)
    requires Playing(c, l, t, run) && l.holder == Some(t)
    requires Exposes(c, l.sys.threads[t].pendings, run, Some(|OpenItems(l.sys.st, run)|))
    ensures ComesBack(c, l, t, actions)
    decreases |l.sys.threads[t].pendings|
  {
    var first;
    var rest;
    if l.sys.threads[t].pendings[0].runID == run {
      first := [Do(TakeItem(t))];
      var l1 := TakesNext(c, l, t, run);
      OneStep(c, l, Do(TakeItem(t)));
      rest := BackFromHold(c, l1, t, run);
    } else {
      first := StreamsNext(c, l, t, run);
      rest := BackFromGap(c, LockedRun(c, l, first).value, t, run);
    }
    ComesBackThen(c, l, t, first, rest);
    actions := first + rest;
  }

  lemma {:induction false} BackFromGap(c: Config, l: Locked, t: nat, run: string) returns (actions: seq<LockedAction>)
    requires Playing(c, l, t, run) && l.holder == None && Exposes(c, l.sys.threads[t].pendings, run, None)
    ensures ComesBack(c, l, t, actions)
    decreases |l.sys.threads[t].pendings|
  {
    var p, now := l.sys.threads[t].pendings[0], l.sys.threads[t].now;
    if p.runID == run && !EndsRun(p.item) {
      actions := BackSchedule(c, l, t, if now < l.clock then l.clock else now + 1);
    } else {
      var first := GapToHold(c, l, t, run);
      var l1 := LockedRun(c, l, first).value;
      var second, rest;
      if p.runID == run {
        var l2 := TakesNext(c, l1, t, run);
        second := [Do(TakeItem(t))];
        OneStep(c, l1, Do(TakeItem(t)));
        rest := BackFromHold(c, l2, t, run);
      } else {
        second := StreamsNext(c, l1, t, run);
        rest := BackFromGap(c, LockedRun(c, l1, second).value, t, run);
      }
      ComesBackThen(c, l1, t, second, rest);
      ComesBackThen(c, l, t, first, second + rest);
      actions := first + (second + rest);
    }
  }

  /** The run is swept if it is open, and the call takes the lock again. */
  lemma GapToHold(c: Config, l: Locked, t: nat, run: string) returns (actions: seq<LockedAction>)
    requires Playing(c, l, t, run) && l.holder == None
    ensures SameCall(actions, t) && LockedRun(c, l, actions).Some?
    ensures var l' := LockedRun(c, l, actions).value;
            && Playing(c, l', t, run) && l'.holder == Some(t) && l'.sys.threads[t] == l.sys.threads[t]
            && OpenItems(l'.sys.st, run) == []
  {
    var first := Cleared(c, l, t, run);
    OthersAreSame(first, t);
    LockedSnoc(c, l, first, Relock(t));
    actions := first + [Relock(t)];
  }

  lemma BackSchedulable(c: Config, l: Locked, t: nat, run: string) returns (actions: seq<LockedAction>)
    requires Configured(c) && c.maxItems >= 2 && LockedReachable(c, l) && l.holder == None && l.phase.Running?
    requires t in l.sys.threads && l.sys.threads[t].Enqueuing?
    requires run !in l.sys.st.truncated && Exposes(c, l.sys.threads[t].pendings, run, None)
    ensures ComesBack(c, l, t, actions)
  {
    var pendings := l.sys.threads[t].pendings;
    LockedIsReachable(c, l);
    ReachableNamed(c, l.sys);
    ExposesNamed(c, pendings, run, None);
    var first := OthersOverflown(c, l, t, pendings, run);
    OthersAreSame(first, t);
    var rest := BackFromGap(c, LockedRun(c, l, first).value, t, run);
    ComesBackThen(c, l, t, first, rest);
    actions := first + rest;
  }

  lemma {:induction false} ExposesNamed(c: Config, pendings: seq<Pending>, run: string, held: Option<nat>)
    requires Named(pendings) && Exposes(c, pendings, run, held)
    ensures run != ""
    decreases |pendings|
  {
    if pendings[0].runID != run { ExposesNamed(c, pendings[1..], run, None); }
  }

  // ---- The condition ----

  /** The item stays in the run's buffer, and it is the first of all or behind an item of
      another run. */
  predicate Opens(pendings: seq<Pending>, run: string, j: nat) {
    j < |pendings| && pendings[j].runID == run && !EndsRun(pendings[j].item) && (j == 0 || pendings[j - 1].runID != run)
  }

  /** From `from` on there are `n` items in a row that stay in the run's buffer, and then one
      more of the run. */
  predicate TooMany(pendings: seq<Pending>, run: string, from: nat, n: int) {
    && 0 <= n && from + n < |pendings| && pendings[from + n].runID == run
    && forall m :: from <= m < from + n ==> pendings[m].runID == run && !EndsRun(pendings[m].item)
  }

  /** The item ends the run, and the items right behind it overflow its new buffer. */
  predicate Overfills(c: Config, pendings: seq<Pending>, run: string, i: nat) {
    i < |pendings| && pendings[i].runID == run && EndsRun(pendings[i].item) && TooMany(pendings, run, i + 1, c.maxItems)
  }

  ghost predicate OpensInTime(c: Config, pendings: seq<Pending>, run: string, j: nat) {
    Opens(pendings, run, j) && forall i: nat :: i < j ==> !Overfills(c, pendings, run, i)
  }

  /** With so many items in the buffer at the start, if others cannot have it. */
  ghost predicate OpensFrom(c: Config, pendings: seq<Pending>, run: string, held: Option<nat>, j: nat)
    requires held.Some? ==> held.value <= c.maxItems
  {
    OpensInTime(c, pendings, run, j) && (held.Some? ==> j > 0 && !TooMany(pendings, run, 0, c.maxItems - held.value))
  }

  lemma TooManyBehind(p: Pending, rest: seq<Pending>, run: string, from: nat, n: int)
    ensures TooMany([p] + rest, run, from + 1, n) <==> TooMany(rest, run, from, n)
  {
    var all := [p] + rest;
    assert forall m :: 0 <= m < |rest| ==> all[m + 1] == rest[m];
    if TooMany(all, run, from + 1, n) {
      forall m | from <= m < from + n ensures rest[m].runID == run && !EndsRun(rest[m].item) { assert all[m + 1] == rest[m]; }
    }
    if TooMany(rest, run, from, n) {
      forall m | from + 1 <= m < from + 1 + n ensures all[m].runID == run && !EndsRun(all[m].item) { assert all[m] == rest[m - 1]; }
    }
  }

  lemma TooManyNext(p: Pending, rest: seq<Pending>, run: string, n: nat)
    ensures TooMany([p] + rest, run, 0, n + 1) <==> p.runID == run && !EndsRun(p.item) && TooMany(rest, run, 0, n)
  {
    var all := [p] + rest;
    TooManyBehind(p, rest, run, 0, n);
    assert TooMany(all, run, 0, n + 1) <==> all[0].runID == run && !EndsRun(all[0].item) && TooMany(all, run, 1, n);
  }

  lemma OpensBehind(c: Config, p: Pending, rest: seq<Pending>, run: string, j: nat)
    ensures OpensInTime(c, [p] + rest, run, j + 1)
       <==> !Overfills(c, [p] + rest, run, 0) && OpensInTime(c, rest, run, j) && (j == 0 ==> p.runID != run)
  {
    var all := [p] + rest;
    forall i: nat ensures Overfills(c, all, run, i + 1) <==> Overfills(c, rest, run, i) {
      TooManyBehind(p, rest, run, i + 1, c.maxItems);
    }
    if OpensInTime(c, all, run, j + 1) {
      forall i: nat | i < j ensures !Overfills(c, rest, run, i) { assert !Overfills(c, all, run, i + 1); }
    }
    if !Overfills(c, all, run, 0) && OpensInTime(c, rest, run, j) {
      forall i: nat | i < j + 1 ensures !Overfills(c, all, run, i) {
        if i > 0 { assert !Overfills(c, rest, run, i - 1) && Overfills(c, all, run, i - 1 + 1) == Overfills(c, rest, run, i - 1); }
      }
    }
  }

  /** What is held once the item has been taken. */
  function HeldAfter(p: Pending, run: string, held: Option<nat>): Option<nat> {
    if p.runID != run then None else if EndsRun(p.item) || held.None? then Some(0) else Some(held.value + 1)
  }

  lemma OpensStep(c: Config, p: Pending, rest: seq<Pending>, run: string, held: Option<nat>, j: nat)
    requires (held.Some? ==> held.value <= c.maxItems) && c.maxItems > 0
    requires p.runID == run && held.None? ==> EndsRun(p.item)
    ensures p.runID == run && held == Some(c.maxItems) ==> !OpensFrom(c, [p] + rest, run, held, j)
    ensures !OpensFrom(c, [p] + rest, run, held, 0)
    ensures !(p.runID == run && held == Some(c.maxItems)) ==>
              (OpensFrom(c, [p] + rest, run, held, j + 1) <==> OpensFrom(c, rest, run, HeldAfter(p, run, held), j))
  {
    OpensBehind(c, p, rest, run, j);
    TooManyBehind(p, rest, run, 0, c.maxItems);
    if held.Some? && held.value < c.maxItems { TooManyNext(p, rest, run, c.maxItems - held.value - 1); }
  }

  lemma {:induction false} ExposesIff(c: Config, pendings: seq<Pending>, run: string, held: Option<nat>)
    requires (held.Some? ==> held.value <= c.maxItems) && c.maxItems > 0
    ensures Exposes(c, pendings, run, held) <==> exists j: nat :: OpensFrom(c, pendings, run, held, j)
    decreases |pendings|
  {
    if pendings != [] {
      var p, rest := pendings[0], pendings[1..];
      assert pendings == [p] + rest;
      if p.runID == run && held.None? && !EndsRun(p.item) {
        assert OpensFrom(c, pendings, run, held, 0);
      } else if p.runID == run && held == Some(c.maxItems) {
        forall j: nat ensures !OpensFrom(c, pendings, run, held, j) { OpensStep(c, p, rest, run, held, j); }
      } else {
        var after := HeldAfter(p, run, held);
        ExposesIff(c, rest, run, after);
        OpensStep(c, p, rest, run, held, 0);
        if j: nat :| OpensFrom(c, rest, run, after, j) {
          OpensStep(c, p, rest, run, held, j);
        }
        if j: nat :| OpensFrom(c, pendings, run, held, j) {
          OpensStep(c, p, rest, run, held, j - 1);
        }
      }
    }
  }

  // ---- For the call ----

  /** The call streams an item, and behind it an item opens a turn of a run not truncated
      by then, with no end of the run in between that is followed by more items of
      the run in a row than a buffer holds. */
  ghost predicate BackAhead(c: Config, st: State, pendings: seq<Pending>, now: int) {
    var k := FirstStreamed(c, st, pendings, now);
    k < |pendings|
      && var left, truncated := pendings[k + 1..], StateAfter(c, st, pendings, now, k + 1).truncated;
         exists run, j: nat :: run !in truncated && OpensInTime(c, left, run, j)
  }

  lemma BackAheadExposes(c: Config, st: State, pendings: seq<Pending>, now: int)
    requires c.maxItems > 0
    ensures BackAhead(c, st, pendings, now) <==> ExposedBehind(c, st, pendings, now)
  {
    var k := FirstStreamed(c, st, pendings, now);
    if k < |pendings| {
      var left, truncated := pendings[k + 1..], StateAfter(c, st, pendings, now, k + 1).truncated;
      if run, j: nat :| run !in truncated && OpensInTime(c, left, run, j) {
        assert OpensFrom(c, left, run, None, j);
        ExposesIff(c, left, run, None);
      }
      if run :| run !in truncated && Exposes(c, left, run, None) {
        ExposesIff(c, left, run, None);
        var j: nat :| OpensFrom(c, left, run, None, j);
        assert OpensInTime(c, left, run, j);
      }
    }
  }

  /** Without the last clause the condition would not be exact: here a turn of the run
      opens at the last item, but its run has overflowed in the hold before. */
  lemma OverfilledNeverBack(c: Config, end: Pending, item: Pending, other: Pending, j: nat, run: string)
    requires c.maxItems > 0 && end.runID == item.runID != other.runID
    requires EndsRun(end.item) && !EndsRun(item.item) && EndsRun(other.item)
    ensures var left := [end] + Repeat(item, c.maxItems + 1) + [other, item];
            Opens(left, item.runID, |left| - 1) && !OpensInTime(c, left, run, j)
  {
    var n := c.maxItems;
    var left := [end] + Repeat(item, n + 1) + [other, item];
    assert forall m :: 1 <= m < n + 2 ==> left[m] == item;
    assert left[0] == end && left[n + 2] == other && left[n + 3] == item;
    assert TooMany(left, item.runID, 1, n);
    assert Overfills(c, left, item.runID, 0);
  }

  lemma CallReads(c: Config, l: Locked, t: nat, pendings: seq<Pending>, now: int) returns (l': Locked)
    requires AboutToRead(c, l, t, pendings, now)
    ensures l' == Go(c, l, Do(Acquire(t, now))) && LockedReachable(c, l')
    ensures l'.holder == Some(t) && l'.phase == l.phase && l'.sys.st == l.sys.st
    ensures t in l'.sys.threads && l'.sys.threads[t] == Enqueuing(pendings, now)
  {
    var acquire := Do(Acquire(t, now));
    l' := Go(c, l, acquire);
    OneStep(c, l, acquire);
    LockedThen(c, l, [acquire]);
  }

  /** It has streamed its first item to be streamed, and has `left` still to do. */
  ghost predicate Leaves(l: Locked, t: nat, left: seq<Pending>, truncated: set<string>, phase: Phase) {
    && l.holder == None && l.phase == phase && t in l.sys.threads && l.sys.threads[t].Enqueuing?
    && l.sys.threads[t].pendings == left && l.sys.st.truncated == truncated
  }

  lemma HoldLeaves(c: Config, l: Locked, t: nat) returns (actions: seq<LockedAction>)
    requires l.holder == Some(t) && t in l.sys.threads && l.sys.threads[t].Enqueuing?
    requires var th := l.sys.threads[t]; FirstStreamed(c, l.sys.st, th.pendings, th.now) < |th.pendings|
    ensures SameCall(actions, t) && LockedRun(c, l, actions).Some?
    ensures var th := l.sys.threads[t]; var k := FirstStreamed(c, l.sys.st, th.pendings, th.now);
            Leaves(LockedRun(c, l, actions).value, t, th.pendings[k + 1..],
                   StateAfter(c, l.sys.st, th.pendings, th.now, k + 1).truncated, l.phase)
  {
    actions := StreamsFirst(c, l, t);
  }

  lemma BackFromLeft(c: Config, l: Locked, t: nat, first: seq<LockedAction>, run: string) returns (actions: seq<LockedAction>)
    requires Configured(c) && c.maxItems >= 2 && LockedReachable(c, l) && SameCall(first, t) && LockedRun(c, l, first).Some?
    requires var l' := LockedRun(c, l, first).value;
             && l'.holder == None && l'.phase.Running? && t in l'.sys.threads && l'.sys.threads[t].Enqueuing?
             && run !in l'.sys.st.truncated && Exposes(c, l'.sys.threads[t].pendings, run, None)
    ensures ComesBack(c, l, t, actions)
  {
    LockedThen(c, l, first);
    var rest := BackSchedulable(c, LockedRun(c, l, first).value, t, run);
    ComesBackThen(c, l, t, first, rest);
    actions := first + rest;
  }

  /** For this run. */
  predicate ExposedAs(c: Config, st: State, pendings: seq<Pending>, now: int, run: string) {
    var k := FirstStreamed(c, st, pendings, now);
    k < |pendings| && run !in StateAfter(c, st, pendings, now, k + 1).truncated && Exposes(c, pendings[k + 1..], run, None)
  }

  lemma ExposedRun(c: Config, st: State, pendings: seq<Pending>, now: int) returns (run: string)
    requires ExposedBehind(c, st, pendings, now)
    ensures ExposedAs(c, st, pendings, now, run)
  {
    var k := FirstStreamed(c, st, pendings, now);
    var left, truncated := pendings[k + 1..], StateAfter(c, st, pendings, now, k + 1).truncated;
    run :| run !in truncated && Exposes(c, left, run, None);
  }

  lemma HoldComesBack(c: Config, l: Locked, t: nat, run: string) returns (actions: seq<LockedAction>)
    requires Configured(c) && c.maxItems >= 2 && LockedReachable(c, l) && l.phase.Running?
    requires l.holder == Some(t) && t in l.sys.threads && l.sys.threads[t].Enqueuing?
    requires var th := l.sys.threads[t]; var k := FirstStreamed(c, l.sys.st, th.pendings, th.now);
             && k < |th.pendings| && run !in StateAfter(c, l.sys.st, th.pendings, th.now, k + 1).truncated
             && Exposes(c, th.pendings[k + 1..], run, None)
    ensures ComesBack(c, l, t, actions)
  {
    var first := HoldLeaves(c, l, t);
    actions := BackFromLeft(c, l, t, first, run);
  }

  lemma HoldExposed(c: Config, l: Locked, t: nat, run: string) returns (actions: seq<LockedAction>)
    requires Configured(c) && c.maxItems >= 2 && LockedReachable(c, l) && l.phase.Running?
    requires l.holder == Some(t) && t in l.sys.threads && l.sys.threads[t].Enqueuing?
    requires ExposedAs(c, l.sys.st, l.sys.threads[t].pendings, l.sys.threads[t].now, run)
    ensures ComesBack(c, l, t, actions)
  {
    actions := HoldComesBack(c, l, t, run);
  }

  lemma CallComesBack(c: Config, l: Locked, t: nat, pendings: seq<Pending>, now: int) returns (actions: seq<LockedAction>)
    requires Configured(c) && AboutToRead(c, l, t, pendings, now) && l.phase.Running?
    requires c.maxItems >= 2 && ExposedBehind(c, l.sys.st, pendings, now)
    ensures ComesBack(c, Go(c, l, Do(Acquire(t, now))), t, actions)
  {
    var run := ExposedRun(c, l.sys.st, pendings, now);
    var l1 := CallReads(c, l, t, pendings, now);
    actions := HoldExposed(c, l1, t, run);
  }

  /** For a call that reads the clock before Shutdown begins: some execution of it moves a
      last activity back if and only if a buffer can hold two items and the call has
      such items. */
  lemma CallGoesBackIff(c: Config, l: Locked, t: nat, pendings: seq<Pending>, now: int)
    requires Configured(c) && AboutToRead(c, l, t, pendings, now) && l.phase.Running?
    ensures var l1 := Go(c, l, Do(Acquire(t, now)));
            (exists actions :: ComesBack(c, l1, t, actions)) <==> c.maxItems >= 2 && BackAhead(c, l.sys.st, pendings, now)
  {
    var l1 := Go(c, l, Do(Acquire(t, now)));
    BackAheadExposes(c, l.sys.st, pendings, now);
    if c.maxItems >= 2 && ExposedBehind(c, l.sys.st, pendings, now) {
      var actions := CallComesBack(c, l, t, pendings, now);
    }
    if actions :| ComesBack(c, l1, t, actions) {
      CallGoesBackOnlyIf(c, l, t, pendings, now, actions);
    }
  }

  /** This half also while the sink is shut down and afterwards, when no sweep empties a
      full buffer any more. */
  lemma CallGoesBackOnlyIf(c: Config, l: Locked, t: nat, pendings: seq<Pending>, now: int, actions: seq<LockedAction>)
    requires Configured(c) && AboutToRead(c, l, t, pendings, now)
    requires ComesBack(c, Go(c, l, Do(Acquire(t, now))), t, actions)
    ensures c.maxItems >= 2 && BackAhead(c, l.sys.st, pendings, now)
  {
    var l1 := Go(c, l, Do(Acquire(t, now)));
    var l2 := LockedRun(c, l1, actions).value;
    OneStep(c, l, Do(Acquire(t, now)));
    LockedThen(c, l, [Do(Acquire(t, now))]);
    LockedThen(c, l1, actions);
    if c.maxItems < 2 { NoneWithOneItem(c, l2, t); }
    BackAheadExposes(c, l.sys.st, pendings, now);
    if !ExposedBehind(c, l.sys.st, pendings, now) {
      ReachableClocks(c, l1);
      NeverBackRun(c, l1, actions, t);
      ReachableClocks(c, l2);
      NeverBackMeans(c, l2, t);
    }
  }
}

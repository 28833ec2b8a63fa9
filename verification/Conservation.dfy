/** Buffering refines line mode: whatever the interleaving, no line is lost,
    duplicated or altered. */
module Conservation {
  import opened Basics
  import opened Otlp
  import opened LineFormat
  import opened RunBlockFormat
  import opened Regroup
  import opened Bucketing
  import opened RunBlockState
  import opened History
  import opened Interleaving

  /** The lines a request in flight has yet to deliver. */
  function ThreadBag(p: Printer, th: Thread): multiset<string> {
    match th
    case Sorting(rest, kept, pendings) =>
      BagOf(SpanBagger(p), rest) + (BagOf(SpanBagger(p), kept) + PendingBag(p, pendings))
    case Forwarding(lines, pendings) => Bag(lines) + PendingBag(p, pendings)
    case Waiting(pendings) => PendingBag(p, pendings)
    case Enqueuing(pendings, _) => PendingBag(p, pendings)
    case Streaming(_, it, pendings, _) => multiset{ItemLine(p, it)} + PendingBag(p, pendings)
  }

  function ThreadShares(p: Printer, threads: map<nat, Thread>): map<nat, multiset<string>> {
    map t <- threads :: ThreadBag(p, threads[t])
  }

  ghost function InFlight(p: Printer, threads: map<nat, Thread>): multiset<string> {
    SumOver(ThreadShares(p, threads))
  }

  lemma InFlightWithout(p: Printer, threads: map<nat, Thread>, t: nat)
    ensures InFlight(p, threads)
         == (if t in threads then ThreadBag(p, threads[t]) else multiset{}) + InFlight(p, threads - {t})
  {
    SumWithout(ThreadShares(p, threads), t);
    assert ThreadShares(p, threads) - {t} == ThreadShares(p, threads - {t});
  }

  lemma InFlightUpdate(p: Printer, threads: map<nat, Thread>, t: nat, th: Thread)
    ensures InFlight(p, threads[t := th]) == ThreadBag(p, th) + InFlight(p, threads - {t})
  {
    InFlightWithout(p, threads[t := th], t);
    assert threads[t := th] - {t} == threads - {t};
  }

  /** Line mode's lines are on the output, in an open buffer, in flight, or were
      given up by a request whose bypass write failed. */
  ghost predicate Balanced(c: Config, s: Sys)
    requires Listing(c.visit)
  {
    s.submitted == Sum4(Bag(Text(c, s.out)), OpenBag(c.printer, s.st.runs), InFlight(c.printer, s.threads), s.lost)
  }

  function Sum4(w: multiset<string>, o: multiset<string>, f: multiset<string>, l: multiset<string>): multiset<string> {
    ((w + o) + f) + l
  }

  lemma Begun(w: multiset<string>, o: multiset<string>, f: multiset<string>, l: multiset<string>, d: multiset<string>)
    ensures Sum4(w, o, d + f, l) == Sum4(w, o, f, l) + d
  {}

  lemma Delivered(w: multiset<string>, o: multiset<string>, f: multiset<string>, l: multiset<string>,
                  d: multiset<string>, rest: multiset<string>)
    ensures Sum4(w + d, o, rest + f, l) == Sum4(w, o, (d + rest) + f, l)
  {}

  lemma Emptied(w: multiset<string>, o: multiset<string>, f: multiset<string>, l: multiset<string>,
                d: multiset<string>, o': multiset<string>)
    requires d + o' == o
    ensures Sum4(w + d, o', f, l) == Sum4(w, o, f, l)
  {}

  lemma GivenUp(w: multiset<string>, o: multiset<string>, f: multiset<string>, l: multiset<string>,
                d: multiset<string>, x: multiset<string>, y: multiset<string>)
    ensures Sum4(w + d, o, f, l + (x + y)) == Sum4(w, o, ((d + x) + y) + f, l)
  {}

  lemma Taken(w: multiset<string>, o: multiset<string>, f: multiset<string>, l: multiset<string>,
              line: multiset<string>, rest: multiset<string>,
              d: multiset<string>, due: multiset<string>, o': multiset<string>)
    requires (d + due) + o' == o + line
    ensures Sum4(w + d, o', (due + rest) + f, l) == Sum4(w, o, (line + rest) + f, l)
  {
    forall x ensures Sum4(w + d, o', (due + rest) + f, l)[x] == Sum4(w, o, (line + rest) + f, l)[x] {
      assert ((d + due) + o')[x] == (o + line)[x];
    }
  }

  lemma BeginSubmits(c: Config, s: Sys, a: Action, t: nat)
    requires Configured(c) && Enabled(c, s, a)
    requires (a.BeginMetrics? || a.BeginLogs? || a.BeginTraces?) && a.t == t
    ensures Next(c, s, a).submitted == s.submitted + ThreadBag(c.printer, Next(c, s, a).threads[t])
  {
    var p := c.printer;
    match a
    case BeginMetrics(_, req) => MetricsSplit(p, Entries(req));
    case BeginLogs(_, req) => LogsSplit(p, Entries(req));
    case BeginTraces(_, req) => SpansBag(p, Entries(req));
  }

  /** A request enters with exactly the lines line mode would write for it. */
  lemma BeginBalanced(c: Config, s: Sys, a: Action, t: nat)
    requires Configured(c) && Balanced(c, s) && Enabled(c, s, a)
    requires (a.BeginMetrics? || a.BeginLogs? || a.BeginTraces?) && a.t == t
    ensures Balanced(c, Next(c, s, a))
  {
    var p, s' := c.printer, Next(c, s, a);
    var th := s'.threads[t];
    InFlightUpdate(p, s.threads, t, th);
    assert s.threads - {t} == s.threads;
    Begun(Bag(Text(c, s.out)), OpenBag(p, s.st.runs), InFlight(p, s.threads), s.lost, ThreadBag(p, th));
    BeginSubmits(c, s, a, t);
  }

  /** A thread moves on, having put `written` on the output. */
  lemma MoveBalanced(c: Config, s: Sys, s': Sys, t: nat, e: Option<Emission>, written: multiset<string>)
    requires Configured(c) && Balanced(c, s) && t in s.threads && t in s'.threads
    requires s'.threads == s.threads[t := s'.threads[t]] && s'.out == Write(s.out, e)
    requires s'.st.runs == s.st.runs && s'.lost == s.lost && s'.submitted == s.submitted
    requires written == if e.Some? then Bag(Lines(c, e.value)) else multiset{}
    requires ThreadBag(c.printer, s.threads[t]) == written + ThreadBag(c.printer, s'.threads[t])
    ensures Balanced(c, s')
  {
    var p := c.printer;
    InFlightWithout(p, s.threads, t);
    InFlightUpdate(p, s.threads, t, s'.threads[t]);
    WriteBag(c, s.out, e);
    Delivered(Bag(Text(c, s.out)), OpenBag(p, s.st.runs), InFlight(p, s.threads - {t}), s.lost,
              written, ThreadBag(p, s'.threads[t]));
  }

  lemma WriteBag(c: Config, out: seq<Emission>, e: Option<Emission>)
    requires Listing(c.visit)
    ensures Bag(Text(c, Write(out, e))) == Bag(Text(c, out)) + (if e.Some? then Bag(Lines(c, e.value)) else multiset{})
  {
    if e.Some? { TextNext(c, out, e.value); }
  }

  /** A line moves from what is left to one of the other two. */
  lemma MovesOver(line: multiset<string>, rest: multiset<string>, kept: multiset<string>, pending: multiset<string>)
    ensures (line + rest) + (kept + pending) == multiset{} + (rest + ((kept + line) + pending))
    ensures (line + rest) + (kept + pending) == multiset{} + (rest + (kept + (pending + line)))
  {}

  lemma SortSpanBag(c: Config, s: Sys, t: nat)
    requires Configured(c) && Enabled(c, s, SortSpan(t))
    ensures ThreadBag(c.printer, s.threads[t]) == multiset{} + ThreadBag(c.printer, Next(c, s, SortSpan(t)).threads[t])
  {
    var p, th := c.printer, s.threads[t];
    var f, e := SpanBagger(p), th.rest[0];
    assert f(e) == multiset{SpanLine(p, e.record)};
    assert BagOf(f, th.rest) == f(e) + BagOf(f, th.rest[1..]);
    MovesOver(f(e), BagOf(f, th.rest[1..]), BagOf(f, th.kept), PendingBag(p, th.pendings));
    BagOfSnocTo(f, th.kept, e);
    PendingBagSnoc(p, th.pendings, SpanPending(s.st.traceToRun, e.record));
  }

  function WrittenBag(c: Config, e: Option<Emission>): multiset<string>
    requires Listing(c.visit)
  {
    if e.Some? then Bag(Lines(c, e.value)) else multiset{}
  }

  /** A thread takes a line into its hands: what is written, due to be streamed and
      buffered afterwards makes up for what was buffered and the line. */
  lemma TakenBalanced(c: Config, s: Sys, s': Sys, t: nat, e: Option<Emission>,
                      line: multiset<string>, rest: multiset<string>, written: multiset<string>, due: multiset<string>)
    requires Configured(c) && Balanced(c, s) && t in s.threads && t in s'.threads
    requires s'.threads == s.threads[t := s'.threads[t]] && s'.out == Write(s.out, e)
    requires s'.lost == s.lost && s'.submitted == s.submitted
    requires written == WrittenBag(c, e)
    requires ThreadBag(c.printer, s.threads[t]) == line + rest && ThreadBag(c.printer, s'.threads[t]) == due + rest
    requires (written + due) + OpenBag(c.printer, s'.st.runs) == OpenBag(c.printer, s.st.runs) + line
    ensures Balanced(c, s')
  {
    InFlightWithout(c.printer, s.threads, t);
    InFlightUpdate(c.printer, s.threads, t, s'.threads[t]);
    WriteBag(c, s.out, e);
    Taken(Bag(Text(c, s.out)), OpenBag(c.printer, s.st.runs), InFlight(c.printer, s.threads - {t}), s.lost,
          line, rest, written, due, OpenBag(c.printer, s'.st.runs));
  }

  function DueBag(p: Printer, r: Result, it: RunBlockItem): multiset<string> {
    if r.stream then multiset{ItemLine(p, it)} else multiset{}
  }

  lemma BagBeforeTake(p: Printer, pendings: seq<Pending>, now: int)
    requires pendings != []
    ensures ThreadBag(p, Enqueuing(pendings, now)) == multiset{ItemLine(p, pendings[0].item)} + PendingBag(p, pendings[1..])
  {}

  lemma BagAfterTake(p: Printer, th: Thread, r: Result, run: string, it: RunBlockItem, rest: seq<Pending>, now: int)
    requires th == if r.stream then Streaming(run, it, rest, now) else Enqueuing(rest, now)
    ensures ThreadBag(p, th) == DueBag(p, r, it) + PendingBag(p, rest)
  {
    assert multiset{} + PendingBag(p, rest) == PendingBag(p, rest);
  }

  /** What the thread has in its hands before and after. */
  lemma TakeItemBags(c: Config, s: Sys, t: nat)
    requires Enabled(c, s, TakeItem(t))
    ensures var p, th := c.printer, s.threads[t];
            var item, rest := th.pendings[0].item, PendingBag(p, th.pendings[1..]);
            && ThreadBag(p, th) == multiset{ItemLine(p, item)} + rest
            && t in TakeNext(c, s, t).threads
            && ThreadBag(p, TakeNext(c, s, t).threads[t]) == DueBag(p, Enqueue(c, s.st, th.pendings[0], th.now), item) + rest
  {
    var th := s.threads[t];
    BagBeforeTake(c.printer, th.pendings, th.now);
    BagAfterTake(c.printer, TakeNext(c, s, t).threads[t], Enqueue(c, s.st, th.pendings[0], th.now),
                 th.pendings[0].runID, th.pendings[0].item, th.pendings[1..], th.now);
  }

  lemma EnqueueBags(c: Config, st: State, p: Pending, now: int)
    requires Configured(c)
    ensures var r := Enqueue(c, st, p, now);
            (WrittenBag(c, r.block) + DueBag(c.printer, r, p.item)) + OpenBag(c.printer, r.state.runs)
              == OpenBag(c.printer, st.runs) + multiset{ItemLine(c.printer, p.item)}
  {
    EnqueueConserves(c, st, p, now);
  }

  lemma TakeItemBalanced(c: Config, s: Sys, t: nat)
    requires Configured(c) && StateOk(c, s.st) && Balanced(c, s) && Enabled(c, s, TakeItem(t))
    ensures Balanced(c, TakeNext(c, s, t))
  {
    var p, th := c.printer, s.threads[t];
    var item, r := th.pendings[0].item, Enqueue(c, s.st, th.pendings[0], th.now);
    TakeItemBags(c, s, t);
    EnqueueBags(c, s.st, th.pendings[0], th.now);
    TakenBalanced(c, s, TakeNext(c, s, t), t, r.block,
                  multiset{ItemLine(p, item)}, PendingBag(p, th.pendings[1..]), WrittenBag(c, r.block), DueBag(p, r, item));
  }

  lemma FailBalanced(c: Config, s: Sys, t: nat, k: nat)
    requires Configured(c) && Balanced(c, s) && Enabled(c, s, ForwardFails(t, k))
    ensures Balanced(c, Next(c, s, ForwardFails(t, k)))
  {
    var p, th := c.printer, s.threads[t];
    InFlightWithout(p, s.threads, t);
    assert th.lines == th.lines[..k] + th.lines[k..];
    BagAppend(th.lines[..k], th.lines[k..]);
    WriteBag(c, s.out, Passed(th.lines[..k]));
    GivenUp(Bag(Text(c, s.out)), OpenBag(p, s.st.runs), InFlight(p, s.threads - {t}), s.lost,
            Bag(th.lines[..k]), Bag(th.lines[k..]), PendingBag(p, th.pendings));
  }

  lemma FlushBalanced(c: Config, s: Sys, r: string, reason: FlushReason)
    requires Configured(c) && StateOk(c, s.st) && Balanced(c, s) && r in s.st.runs && (reason.Idle? || reason.Shutdown?)
    ensures Balanced(c, FlushRun(c, s, r, reason))
  {
    var p, e := c.printer, FlushOpen(s.st, r, reason);
    FlushConserves(c, s.st, r, reason);
    WriteBag(c, s.out, Some(e));
    Emptied(Bag(Text(c, s.out)), OpenBag(p, s.st.runs), InFlight(p, s.threads), s.lost, Bag(Lines(c, e)),
            OpenBag(p, Flushed(s.st, r, reason).runs));
  }

  lemma EndSortingBalanced(c: Config, s: Sys, t: nat)
    requires Configured(c) && Balanced(c, s) && Enabled(c, s, EndSorting(t))
    ensures Balanced(c, Next(c, s, EndSorting(t)))
  {
    var th := s.threads[t];
    SpansBag(c.printer, Entries(Regrouped(th.kept)));
    RegroupedBag(SpanBagger(c.printer), th.kept);
    MoveBalanced(c, s, Next(c, s, EndSorting(t)), t, None, multiset{});
  }

  lemma StreamingBag(c: Config, run: string, it: RunBlockItem, pendings: seq<Pending>, now: int)
    requires Configured(c)
    ensures ThreadBag(c.printer, Streaming(run, it, pendings, now))
         == Bag(Lines(c, Streamed(run, it))) + ThreadBag(c.printer, Enqueuing(pendings, now))
  {
    StreamedBag(c, Streamed(run, it));
  }

  lemma StreamBalanced(c: Config, s: Sys, t: nat)
    requires Configured(c) && Balanced(c, s) && Enabled(c, s, StreamItem(t))
    ensures Balanced(c, Next(c, s, StreamItem(t)))
  {
    var th := s.threads[t];
    var e := Streamed(th.runID, th.item);
    StreamingBag(c, th.runID, th.item, th.pendings, th.now);
    MoveBalanced(c, s, Next(c, s, StreamItem(t)), t, Some(e), Bag(Lines(c, e)));
  }

  lemma SortSpanBalanced(c: Config, s: Sys, t: nat)
    requires Configured(c) && Balanced(c, s) && Enabled(c, s, SortSpan(t))
    ensures Balanced(c, Next(c, s, SortSpan(t)))
  {
    SortSpanBag(c, s, t);
    MoveBalanced(c, s, Next(c, s, SortSpan(t)), t, None, multiset{});
  }

  lemma ForwardBalanced(c: Config, s: Sys, t: nat)
    requires Configured(c) && Balanced(c, s) && Enabled(c, s, Forward(t))
    ensures Balanced(c, Next(c, s, Forward(t)))
  {
    MoveBalanced(c, s, Next(c, s, Forward(t)), t, Passed(s.threads[t].lines), Bag(s.threads[t].lines));
  }

  lemma AcquireBalanced(c: Config, s: Sys, t: nat, now: int)
    requires Configured(c) && Balanced(c, s) && Enabled(c, s, Acquire(t, now))
    ensures Balanced(c, Next(c, s, Acquire(t, now)))
  {
    MoveBalanced(c, s, Next(c, s, Acquire(t, now)), t, None, multiset{});
  }

  lemma ReturnBalanced(c: Config, s: Sys, t: nat)
    requires Configured(c) && Balanced(c, s) && Enabled(c, s, Return(t))
    ensures Balanced(c, Next(c, s, Return(t)))
  {
    InFlightWithout(c.printer, s.threads, t);
  }

  lemma NextBalanced(c: Config, s: Sys, a: Action)
    requires Configured(c) && Safe(c, s) && Balanced(c, s) && Enabled(c, s, a)
    ensures Balanced(c, Next(c, s, a))
  {
    match a
    case BeginMetrics(t, _) => BeginBalanced(c, s, a, t);
    case BeginLogs(t, _) => BeginBalanced(c, s, a, t);
    case BeginTraces(t, _) => BeginBalanced(c, s, a, t);
    case SortSpan(t) => SortSpanBalanced(c, s, t);
    case EndSorting(t) => EndSortingBalanced(c, s, t);
    case Forward(t) => ForwardBalanced(c, s, t);
    case ForwardFails(t, k) => FailBalanced(c, s, t, k);
    case Acquire(t, now) => AcquireBalanced(c, s, t, now);
    case TakeItem(t) => TakeItemBalanced(c, s, t);
    case StreamItem(t) => StreamBalanced(c, s, t);
    case Return(t) => ReturnBalanced(c, s, t);
    case SweepRun(r, _) => FlushBalanced(c, s, r, Idle);
    case ShutdownRun(r) => FlushBalanced(c, s, r, Shutdown);
  }

  lemma {:induction false} RunBalanced(c: Config, s: Sys, actions: seq<Action>)
    requires Configured(c) && Safe(c, s) && Balanced(c, s) && Run(c, s, actions).Some?
    ensures Balanced(c, Run(c, s, actions).value)
    decreases |actions|
  {
    if actions != [] {
      NextSafe(c, s, actions[0]);
      NextBalanced(c, s, actions[0]);
      RunBalanced(c, Next(c, s, actions[0]), actions[1..]);
    }
  }

  lemma InitiallyBalanced(c: Config)
    requires Configured(c)
    ensures Safe(c, INITIAL) && Balanced(c, INITIAL)
  {}

  /** In every reachable state each line of line mode is on the output, in an open
      buffer, in flight, or was given up by a request whose bypass write failed. */
  lemma LinesConserved(c: Config, s: Sys)
    requires Configured(c) && Reachable(c, s)
    ensures Balanced(c, s)
  {
    var actions :| Run(c, INITIAL, actions) == Some(s);
    InitiallyBalanced(c);
    RunBalanced(c, INITIAL, actions);
  }

  /** Buffering refines line mode: when no call is in flight, no run is open and no
      bypass write has failed, the output without banners, warnings and
      indentation is a permutation of what line mode writes for the same requests. */
  lemma BufferingRefinesLineMode(c: Config, s: Sys)
    requires Configured(c) && Reachable(c, s)
    requires s.threads == map[] && s.st.runs == map[] && s.lost == multiset{}
    ensures Bag(Text(c, s.out)) == s.submitted
  {
    LinesConserved(c, s);
    assert OpenShares(c.printer, map[]) == map[] && ThreadShares(c.printer, map[]) == map[];
  }
}

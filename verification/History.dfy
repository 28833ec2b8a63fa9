/** Counting over histories: what a sequence of writes holds of each run, which
    runs it has declared truncated, and how many lines are where. */
module History {
  import opened Basics
  import opened LineFormat
  import opened RunBlockFormat
  import opened Bucketing
  import opened RunBlockState

  // ---- Sums over maps ----

  /** The sum of all values. */
  ghost function SumOver<K(!new)>(m: map<K, multiset<string>>): multiset<string>
    decreases |m|
  {
    if m == map[] then multiset{}
    else
      var k :| k in m;
      m[k] + SumOver(m - {k})
  }

  lemma {:induction false} SumRemove<K(!new)>(m: map<K, multiset<string>>, k: K)
    requires k in m
    ensures SumOver(m) == m[k] + SumOver(m - {k})
    decreases |m|
  {
    var j :| j in m && SumOver(m) == m[j] + SumOver(m - {j});
    if j != k {
      SumRemove(m - {j}, k);
      SumRemove(m - {k}, j);
      assert m - {j} - {k} == m - {k} - {j};
      Swap(m[j], m[k], SumOver(m - {j} - {k}));
    }
  }

  lemma Swap(a: multiset<string>, b: multiset<string>, c: multiset<string>)
    ensures a + (b + c) == b + (a + c)
  {}

  lemma SumWithout<K(!new)>(m: map<K, multiset<string>>, k: K)
    ensures SumOver(m) == (if k in m then m[k] else multiset{}) + SumOver(m - {k})
  {
    if k in m { SumRemove(m, k); } else { assert m - {k} == m; }
  }

  // ---- Open buffers ----

  function OpenShares(p: Printer, runs: map<string, Buffer>): map<string, multiset<string>> {
    map r <- runs :: ItemBag(p, runs[r].items)
  }

  /** The lines of all open buffers. */
  ghost function OpenBag(p: Printer, runs: map<string, Buffer>): multiset<string> {
    SumOver(OpenShares(p, runs))
  }

  lemma OpenBagWithout(p: Printer, runs: map<string, Buffer>, r: string)
    ensures OpenBag(p, runs) == (if r in runs then ItemBag(p, runs[r].items) else multiset{}) + OpenBag(p, runs - {r})
  {
    SumWithout(OpenShares(p, runs), r);
    assert OpenShares(p, runs) - {r} == OpenShares(p, runs - {r});
  }

  lemma OpenBagUpdate(p: Printer, runs: map<string, Buffer>, r: string, b: Buffer)
    ensures OpenBag(p, runs[r := b]) == ItemBag(p, b.items) + OpenBag(p, runs - {r})
  {
    OpenBagWithout(p, runs[r := b], r);
    assert runs[r := b] - {r} == runs - {r};
  }

  // ---- Writes ----

  /** What a write sequence put on the output. */
  function Text(c: Config, out: seq<Emission>): seq<string>
    requires Listing(c.visit)
  {
    if out == [] then [] else Text(c, out[..|out| - 1]) + Lines(c, out[|out| - 1])
  }

  function BlockPart(e: Emission, runID: string): seq<RunBlockItem> {
    if e.Block? && e.runID == runID then e.buffer.items else []
  }

  /** The items of a run's blocks, one block after the other. */
  function BlockItems(out: seq<Emission>, runID: string): seq<RunBlockItem> {
    if out == [] then [] else BlockItems(out[..|out| - 1], runID) + BlockPart(out[|out| - 1], runID)
  }

  function TruncatedBy(e: Emission): set<string> {
    if e.Block? && e.reason.Overflow? then {e.runID} else {}
  }

  /** The runs a truncation warning has been written for. */
  function TruncatedIn(out: seq<Emission>): set<string> {
    if out == [] then {} else TruncatedIn(out[..|out| - 1]) + TruncatedBy(out[|out| - 1])
  }

  /** What may be written once these runs are truncated: blocks of others only,
      single items of these only. */
  predicate Follows(e: Emission, truncated: set<string>) {
    match e
    case Passthrough(_) => true
    case Block(r, _, _, _) => r !in truncated
    case Streamed(r, _) => r in truncated
  }

  ghost predicate WritesOk(c: Config, out: seq<Emission>) {
    out == [] ||
    (WritesOk(c, out[..|out| - 1]) && EmissionOk(c, out[|out| - 1])
      && Follows(out[|out| - 1], TruncatedIn(out[..|out| - 1])))
  }

  function Write(out: seq<Emission>, e: Option<Emission>): seq<Emission> {
    if e.Some? then out + [e.value] else out
  }

  lemma TextNext(c: Config, out: seq<Emission>, e: Emission)
    requires Listing(c.visit)
    ensures Text(c, out + [e]) == Text(c, out) + Lines(c, e)
    ensures Bag(Text(c, out + [e])) == Bag(Text(c, out)) + Bag(Lines(c, e))
  {
    assert (out + [e])[..|out|] == out;
    BagAppend(Text(c, out), Lines(c, e));
  }

  /** A streamed item counts for itself. */
  lemma StreamedBag(c: Config, e: Emission)
    requires Configured(c) && e.Streamed?
    ensures Bag(Lines(c, e)) == multiset{ItemLine(c.printer, e.item)}
  {
    ItemLineIsPlain(c.printer, e.item);
    BagOfLine(ItemLine(c.printer, e.item));
  }

  /** The footer or, on overflow, the warning in its place. */
  function LastLine(c: Config, b: Buffer, reason: FlushReason): string {
    if reason.Overflow? then TruncationWarning(b.runID, |b.items|)
    else FooterLine(c.printer, FooterFor(b, reason), SortByTime(b.items))
  }

  lemma LinesOfBlock(c: Config, b: Buffer, reason: FlushReason)
    requires Configured(c)
    ensures var sorted := SortByTime(b.items);
            BlockLines(c, b, reason)
              == [HeaderLine(c.printer, HeaderFor(b), b.items)] + Body(c.printer, DepthsFor(c.mode, c.visit, sorted), sorted)
                 + [LastLine(c, b, reason)]
  {}

  /** A banner or a warning counts for nothing. */
  lemma BannersCountNothing(p: Printer, h: Header, items: seq<RunBlockItem>, f: Footer, sorted: seq<RunBlockItem>, runID: string)
    ensures Bag([HeaderLine(p, h, items)]) == Bag([FooterLine(p, f, sorted)]) == Bag([TruncationWarning(runID, |items|)]) == multiset{}
  {
    SingletonBags(p, h, items, f, sorted);
    BannersAreNoItems(p, h, f, "", "", runID, |items|);
    assert [TruncationWarning(runID, |items|)][1..] == [];
  }

  /** A block counts for its items. */
  lemma BlockLinesBag(c: Config, b: Buffer, reason: FlushReason)
    requires Configured(c)
    ensures Bag(BlockLines(c, b, reason)) == ItemBag(c.printer, b.items)
  {
    var f, sorted := FooterFor(b, reason), SortByTime(b.items);
    var body := Body(c.printer, DepthsFor(c.mode, c.visit, sorted), sorted);
    var first := [HeaderLine(c.printer, HeaderFor(b), b.items)];
    var last := [if reason.Overflow? then TruncationWarning(b.runID, |b.items|) else FooterLine(c.printer, f, sorted)];
    LinesOfBlock(c, b, reason);
    BlockContents(c.printer, c.mode, c.visit, HeaderFor(b), b.items, f);
    BannersCountNothing(c.printer, HeaderFor(b), b.items, f, sorted, b.runID);
    BagAppend(first, body);
    BagAppend(first + body, last);
  }

  // ---- One locked step ----

  /** Per run, the item lands in the open buffer or in the block written, at the end
      of what was there; a rejected item lands in neither. */
  lemma EnqueueAppends(c: Config, s: State, p: Pending, now: int, runID: string)
    ensures var r := Enqueue(c, s, p, now);
            var written := if r.block.Some? then BlockPart(r.block.value, runID) else [];
            var arrived := if runID == p.runID && !r.stream then [p.item] else [];
            written + OpenItems(r.state, runID) == OpenItems(s, runID) + arrived
  {
    if runID == p.runID && runID !in s.truncated {
      ArriveItems(c, s, p, now);
    } else {
      assert OpenItems(s, runID) + [] == OpenItems(s, runID);
    }
  }

  /** What one step writes and leaves to be streamed. */
  function StepBag(c: Config, r: Result, it: RunBlockItem): multiset<string>
    requires Listing(c.visit)
  {
    (if r.block.Some? then Bag(Lines(c, r.block.value)) else multiset{})
      + (if r.stream then multiset{ItemLine(c.printer, it)} else multiset{})
  }

  lemma Arrange(o: multiset<string>, l: multiset<string>, r: multiset<string>)
    ensures (o + l) + r == (o + r) + l
    ensures (multiset{} + multiset{}) + ((o + l) + r) == (o + r) + l
    ensures ((o + l) + multiset{}) + r == (o + r) + l
    ensures (multiset{} + l) + (o + r) == (o + r) + l
  {}

  /** The run's own lines and the others', before and after the item. */
  lemma HeldAndOthers(c: Config, s: State, p: Pending, now: int) returns (held: multiset<string>, others: multiset<string>)
    ensures var b := Arrive(c, s, p, now); var line := multiset{ItemLine(c.printer, p.item)};
            && b.items == OpenItems(s, p.runID)
            && ItemBag(c.printer, b.items) == held && ItemBag(c.printer, b.items + [p.item]) == held + line
            && OpenBag(c.printer, s.runs) == held + others && OpenBag(c.printer, s.runs - {p.runID}) == others
  {
    ArriveItems(c, s, p, now);
    held, others := ItemBag(c.printer, OpenItems(s, p.runID)), OpenBag(c.printer, s.runs - {p.runID});
    OpenBagWithout(c.printer, s.runs, p.runID);
    assert [p.item][1..] == [];
    ItemBagAppend(c.printer, OpenItems(s, p.runID), [p.item]);
  }

  lemma OverflowConserves(c: Config, s: State, p: Pending, now: int)
    requires Configured(c) && p.runID !in s.truncated && |Arrive(c, s, p, now).items| >= c.maxItems
    ensures var r := Enqueue(c, s, p, now);
            StepBag(c, r, p.item) + OpenBag(c.printer, r.state.runs)
              == OpenBag(c.printer, s.runs) + multiset{ItemLine(c.printer, p.item)}
  {
    var held, others := HeldAndOthers(c, s, p, now);
    BlockLinesBag(c, Arrive(c, s, p, now), Overflow);
    assert StepBag(c, Enqueue(c, s, p, now), p.item) == held + multiset{ItemLine(c.printer, p.item)};
    Arrange(held, multiset{ItemLine(c.printer, p.item)}, others);
  }

  lemma EndConserves(c: Config, s: State, p: Pending, now: int)
    requires Configured(c) && p.runID !in s.truncated
    requires |Arrive(c, s, p, now).items| < c.maxItems && EndsRun(p.item)
    ensures var r := Enqueue(c, s, p, now);
            StepBag(c, r, p.item) + OpenBag(c.printer, r.state.runs)
              == OpenBag(c.printer, s.runs) + multiset{ItemLine(c.printer, p.item)}
  {
    var held, others := HeldAndOthers(c, s, p, now);
    var b, line := Arrive(c, s, p, now), multiset{ItemLine(c.printer, p.item)};
    var full := b.(items := b.items + [p.item], rootEnded := true);
    var r := Enqueue(c, s, p, now);
    assert r == Result(Flushed(s, p.runID, RootEnded), Some(Emission.Block(p.runID, full, [], RootEnded)), false);
    BlockLinesBag(c, full, RootEnded);
    assert StepBag(c, r, p.item) == (held + line) + multiset{};
    Arrange(held, line, others);
  }

  lemma GrowthConserves(c: Config, s: State, p: Pending, now: int)
    requires Configured(c) && p.runID !in s.truncated
    requires |Arrive(c, s, p, now).items| < c.maxItems && !EndsRun(p.item)
    ensures var r := Enqueue(c, s, p, now);
            StepBag(c, r, p.item) + OpenBag(c.printer, r.state.runs)
              == OpenBag(c.printer, s.runs) + multiset{ItemLine(c.printer, p.item)}
  {
    var held, others := HeldAndOthers(c, s, p, now);
    var b := Arrive(c, s, p, now);
    OpenBagUpdate(c.printer, s.runs, p.runID, b.(items := b.items + [p.item]));
    assert StepBag(c, Enqueue(c, s, p, now), p.item) == multiset{};
    Arrange(held, multiset{ItemLine(c.printer, p.item)}, others);
  }

  /** The arriving line is conserved: written, buffered or due to be streamed. */
  lemma EnqueueConserves(c: Config, s: State, p: Pending, now: int)
    requires Configured(c)
    ensures var r := Enqueue(c, s, p, now);
            StepBag(c, r, p.item) + OpenBag(c.printer, r.state.runs)
              == OpenBag(c.printer, s.runs) + multiset{ItemLine(c.printer, p.item)}
  {
    if p.runID in s.truncated {
      assert StepBag(c, Enqueue(c, s, p, now), p.item) == multiset{ItemLine(c.printer, p.item)};
    } else if |Arrive(c, s, p, now).items| >= c.maxItems {
      OverflowConserves(c, s, p, now);
    } else if EndsRun(p.item) {
      EndConserves(c, s, p, now);
    } else {
      GrowthConserves(c, s, p, now);
    }
  }

  lemma EnqueueFollows(c: Config, s: State, p: Pending, now: int)
    ensures var r := Enqueue(c, s, p, now);
            && (r.block.Some? ==> r.block.value.Block? && Follows(r.block.value, s.truncated))
            && r.state.truncated == s.truncated + (if r.block.Some? then TruncatedBy(r.block.value) else {})
            && (r.stream ==> p.runID in r.state.truncated)
  {}

  lemma FlushConserves(c: Config, s: State, runID: string, reason: FlushReason)
    requires Configured(c) && runID in s.runs
    ensures var e := FlushOpen(s, runID, reason);
            Bag(Lines(c, e)) + OpenBag(c.printer, Flushed(s, runID, reason).runs) == OpenBag(c.printer, s.runs)
  {
    BlockLinesBag(c, s.runs[runID], reason);
    OpenBagWithout(c.printer, s.runs, runID);
  }

  lemma FlushFollows(c: Config, s: State, runID: string, reason: FlushReason, r: string)
    requires StateOk(c, s) && runID in s.runs && (reason.Idle? || reason.Shutdown?)
    ensures var e := FlushOpen(s, runID, reason); var s' := Flushed(s, runID, reason);
            && Follows(e, s.truncated) && TruncatedBy(e) == {} && s'.truncated == s.truncated
            && BlockPart(e, r) + OpenItems(s', r) == OpenItems(s, r)
  {}
}

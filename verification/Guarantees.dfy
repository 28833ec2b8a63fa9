/** What holds in every reachable state of the concurrent sink. */
module Guarantees {
  import opened Basics
  import opened LineFormat
  import opened RunBlockFormat
  import opened RunBlockState
  import opened History
  import opened Interleaving

  lemma ReachableSafe(c: Config, s: Sys)
    requires Configured(c) && Reachable(c, s)
    ensures Safe(c, s)
  {
    var actions :| Run(c, INITIAL, actions) == Some(s);
    RunSafe(c, INITIAL, actions);
  }

  /** Whenever the lock is free: no run is both open and truncated; an open buffer
      is filed under its own id, holds 1 to MaxItems items, and is neither ended
      nor has an outcome. */
  lemma LockInvariant(c: Config, s: Sys, r: string)
    requires Configured(c) && Reachable(c, s) && r in s.st.runs
    ensures var b := s.st.runs[r];
            && r !in s.st.truncated && b.runID == r && 1 <= |b.items| <= c.maxItems
            && !b.rootEnded && b.outcome == "" && forall it <- b.items :: !EndsRun(it)
  {
    ReachableSafe(c, s);
    OpenBufferIsUndecided(c, s.st, r);
  }

  /** For every run the accepted items, in the order the lock admitted them, are the
      run's blocks one after the other and then its open buffer: each item is in
      one place, and blocks are consecutive segments. */
  lemma HistoryIsBlocks(c: Config, s: Sys, r: string)
    requires Configured(c) && Reachable(c, s)
    ensures Accepted(s.arrivals, r) == BlockItems(s.out, r) + OpenItems(s.st, r)
  {
    var actions :| Run(c, INITIAL, actions) == Some(s);
    RunHistory(c, INITIAL, actions, r);
  }

  // ---- Truncation ----

  lemma {:induction false} WritesAt(c: Config, out: seq<Emission>, i: nat)
    requires WritesOk(c, out) && i < |out|
    ensures WritesOk(c, out[..i]) && EmissionOk(c, out[i]) && Follows(out[i], TruncatedIn(out[..i]))
  {
    if i < |out| - 1 {
      WritesAt(c, out[..|out| - 1], i);
      assert out[..|out| - 1][..i] == out[..i];
    }
  }

  predicate OverflowOf(e: Emission, r: string) {
    e.Block? && e.runID == r && e.reason.Overflow?
  }

  lemma {:induction false} TruncatedBefore(out: seq<Emission>, r: string)
    ensures r in TruncatedIn(out) <==> exists i :: 0 <= i < |out| && OverflowOf(out[i], r)
  {
    if out != [] {
      var init, last := out[..|out| - 1], out[|out| - 1];
      TruncatedBefore(init, r);
      assert forall i :: 0 <= i < |init| ==> init[i] == out[i];
      if OverflowOf(last, r) { assert OverflowOf(out[|out| - 1], r); }
    }
  }

  /** Once a run has overflowed it is never buffered again. After the write with the
      warning, which shows exactly MaxItems items, there is no further block of
      the run, so neither a second warning nor another header; and nothing of the
      run was streamed before it. */
  lemma TruncationIsFinal(c: Config, s: Sys, r: string, i: nat)
    requires Configured(c) && Reachable(c, s) && i < |s.out| && OverflowOf(s.out[i], r)
    ensures |s.out[i].buffer.items| == c.maxItems && r in s.st.truncated && r !in s.st.runs
    ensures forall j :: i < j < |s.out| ==> !(s.out[j].Block? && s.out[j].runID == r)
    ensures forall j :: 0 <= j < |s.out| && s.out[j].Streamed? && s.out[j].runID == r ==> i < j
  {
    ReachableSafe(c, s);
    WritesAt(c, s.out, i);
    TruncatedBefore(s.out, r);
    forall j | i < j < |s.out| ensures !(s.out[j].Block? && s.out[j].runID == r) {
      WritesAt(c, s.out, j);
      assert OverflowOf(s.out[..j][i], r);
      TruncatedBefore(s.out[..j], r);
    }
    forall j | 0 <= j < |s.out| && s.out[j].Streamed? && s.out[j].runID == r ensures i < j {
      StreamedAfterOverflow(c, s.out, r, j);
      var k :| 0 <= k < j && OverflowOf(s.out[k], r);
      WritesAt(c, s.out, i);
      if k < i {
        assert OverflowOf(s.out[..i][k], r);
        TruncatedBefore(s.out[..i], r);
      }
    }
  }

  /** An item is streamed only behind the warning of its run. */
  lemma StreamedAfterOverflow(c: Config, out: seq<Emission>, r: string, j: nat)
    requires WritesOk(c, out) && j < |out| && out[j].Streamed? && out[j].runID == r
    ensures exists k :: 0 <= k < j && OverflowOf(out[k], r)
  {
    WritesAt(c, out, j);
    TruncatedBefore(out[..j], r);
    var k :| 0 <= k < |out[..j]| && OverflowOf(out[..j][k], r);
    assert OverflowOf(out[k], r);
  }

  // ---- The warning in the text ----

  lemma PrefixStrip(a: string, b: string, c: string)
    requires a + b == a + c
    ensures b == c
  {
    assert (a + b)[|a|..] == b && (a + c)[|a|..] == c;
  }

  lemma SuffixStrip(a: string, b: string, c: string)
    requires a + c == b + c
    ensures a == b
  {
    assert |a| == |b|;
    assert (a + c)[..|a|] == a && (b + c)[..|b|] == b;
  }

  /** A warning names one run: with the count fixed it tells the run. */
  lemma WarningNamesRun(r: string, q: string, n: nat)
    requires TruncationWarning(r, n) == TruncationWarning(q, n)
    ensures r == q
  {
    var tail := " truncated at " + Decimal(n) + " items";
    assert TruncationWarning(r, n) == "[WARN] run " + (r + tail);
    assert TruncationWarning(q, n) == "[WARN] run " + (q + tail);
    PrefixStrip("[WARN] run ", r + tail, q + tail);
    SuffixStrip(r, q, tail);
  }

  lemma {:induction false} BodyIsItems(p: Printer, depths: map<string, nat>, items: seq<RunBlockItem>)
    requires Sane(p)
    ensures AllItems(Body(p, depths, items))
  {
    if items != [] {
      RenderItemShape(p, items[0], DepthOf(depths, items[0]));
      BodyIsItems(p, depths, items[1..]);
    }
  }

  lemma NoWarning(lines: seq<string>, r: string, n: nat)
    requires forall l <- lines :: IsItemLine(l) || "=== " <= l
    ensures multiset(lines)[TruncationWarning(r, n)] == 0
  {
    var w := TruncationWarning(r, n);
    assert w[1] == 'W' && w[0] == '[';
    assert METRIC_TAG[1] == 'M' && EVENT_TAG[1] == 'E' && LOG_TAG[1] == 'L' && TRACE_TAG[1] == 'T';
    assert !IsItemLine(w) && !("=== " <= w);
    assert w !in lines;
  }

  /** One write contains the warning of `r` once if it is the overflow block of `r`,
      else not at all. */
  lemma WarningsInWrite(c: Config, e: Emission, r: string)
    requires Configured(c) && EmissionOk(c, e)
    ensures multiset(Lines(c, e))[TruncationWarning(r, c.maxItems)] == if OverflowOf(e, r) then 1 else 0
  {
    match e
    case Passthrough(lines) => NoWarning(lines, r, c.maxItems);
    case Streamed(_, it) =>
      ItemLineIsPlain(c.printer, it);
      NoWarning(Lines(c, e), r, c.maxItems);
    case Block(_, _, _, _) => WarningsInBlock(c, e, r);
  }

  lemma WarningsInBlock(c: Config, e: Emission, r: string)
    requires Configured(c) && e.Block? && EmissionOk(c, e)
    ensures multiset(Lines(c, e))[TruncationWarning(r, c.maxItems)] == if OverflowOf(e, r) then 1 else 0
  {
    var b, n := e.buffer, c.maxItems;
    var sorted := SortByTime(b.items);
    var body := Body(c.printer, DepthsFor(c.mode, c.visit, sorted), sorted);
    var init := [HeaderLine(c.printer, HeaderFor(b), b.items)] + body;
    LinesOfBlock(c, b, e.reason);
    BodyIsItems(c.printer, DepthsFor(c.mode, c.visit, sorted), sorted);
    NoWarning(init, r, n);
    if e.reason.Overflow? {
      FoldedPlain(c.printer, e.runID, b.items + e.rejected);
      if b.runID != r && TruncationWarning(b.runID, n) == TruncationWarning(r, n) {
        WarningNamesRun(b.runID, r, n);
      }
    } else {
      NoWarning([FooterLine(c.printer, FooterFor(b, e.reason), sorted)], r, n);
    }
  }

  lemma {:induction false} WarningsInText(c: Config, out: seq<Emission>, r: string)
    requires Configured(c) && WritesOk(c, out)
    ensures multiset(Text(c, out))[TruncationWarning(r, c.maxItems)] == if r in TruncatedIn(out) then 1 else 0
  {
    if out != [] {
      WarningsInText(c, out[..|out| - 1], r);
      WarningsInWrite(c, out[|out| - 1], r);
    }
  }

  /** The output shows exactly one warning for each truncated run and none for any other. */
  lemma OneWarningPerTruncatedRun(c: Config, s: Sys, r: string)
    requires Configured(c) && Reachable(c, s)
    ensures multiset(Text(c, s.out))[TruncationWarning(r, c.maxItems)] == if r in s.st.truncated then 1 else 0
  {
    ReachableSafe(c, s);
    WarningsInText(c, s.out, r);
  }
}

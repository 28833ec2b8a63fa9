/** Plain line mode, and the writer under the run-block sink (internal/sink/stdout.go). */
module StdoutSinks {
  import opened Otlp
  import opened LineFormat

  /** What a writer that accepts or fails each line in turn holds after writeLines,
      how many lines it has been offered, and whether all went through. */
  function Written(accepts: nat -> bool, out: seq<string>, offered: nat, lines: seq<string>): (seq<string>, nat, bool)
    decreases |lines|
  {
    if lines == [] then (out, offered, true)
    else if accepts(offered) then Written(accepts, out + [lines[0]], offered + 1, lines[1..])
    else (out, offered + 1, false)
  }

  /** A writer that does not fail takes every line. */
  lemma {:induction false} AllWritten(accepts: nat -> bool, out: seq<string>, offered: nat, lines: seq<string>)
    requires forall n :: accepts(n)
    ensures Written(accepts, out, offered, lines) == (out + lines, offered + |lines|, true)
    decreases |lines|
  {
    if lines == [] {
      assert out + lines == out;
    } else {
      AllWritten(accepts, out + [lines[0]], offered + 1, lines[1..]);
      assert out + [lines[0]] + lines[1..] == out + lines;
    }
  }

  /** A call fails if and only if the writer fails one of its lines; it has then taken the
      lines before the first such line, and is offered none behind it. */
  lemma {:induction false} FailedPrefix(accepts: nat -> bool, out: seq<string>, offered: nat, lines: seq<string>) returns (cut: nat)
    ensures Written(accepts, out, offered, lines).2 <==> cut == |lines|
    ensures cut <= |lines| && forall n :: offered <= n < offered + cut ==> accepts(n)
    ensures cut < |lines| ==> !accepts(offered + cut) && Written(accepts, out, offered, lines).1 == offered + cut + 1
    ensures Written(accepts, out, offered, lines).0 == out + lines[..cut]
    decreases |lines|
  {
    cut := 0;
    if lines != [] && accepts(offered) {
      var rest := FailedPrefix(accepts, out + [lines[0]], offered + 1, lines[1..]);
      assert out + [lines[0]] + lines[1..][..rest] == out + lines[..rest + 1];
      cut := rest + 1;
    } else {
      assert out + lines[..0] == out;
    }
  }

  class StdoutSink {
    const printer: Printer
    /** Whether the n-th line offered to the writer goes through. */
    const accepts: nat -> bool
    var out: seq<string>
    var offered: nat

    constructor (printer: Printer, accepts: nat -> bool)
      ensures this.printer == printer && this.accepts == accepts && out == [] && offered == 0
    {
      this.printer := printer;
      this.accepts := accepts;
      out := [];
      offered := 0;
    }

    /** writeLines: the first line that fails ends the call. */
    method WriteLines(lines: seq<string>) returns (ok: bool)
      modifies this
      ensures (out, offered, ok) == Written(accepts, old(out), old(offered), lines)
    {
      ok := true;
      var i := 0;
      while i < |lines| && ok
        invariant 0 <= i <= |lines|
        invariant ok ==> Written(accepts, out, offered, lines[i..]) == Written(accepts, old(out), old(offered), lines)
        invariant !ok ==> (out, offered, false) == Written(accepts, old(out), old(offered), lines)
      {
        assert lines[i..][1..] == lines[i + 1..];
        if accepts(offered) {
          out := out + [lines[i]];
        } else {
          ok := false;
        }
        offered := offered + 1;
        i := i + 1;
      }
    }

    method ConsumeMetrics(done: bool, req: Request<Metric>) returns (ok: bool)
      modifies this
      ensures done ==> !ok && out == old(out) && offered == old(offered)
      ensures !done ==> (out, offered, ok) == Written(accepts, old(out), old(offered), MetricsText(printer, Entries(req)))
    {
      if done { return false; }
      var lines := FormatMetrics(printer, req);
      ok := WriteLines(lines);
    }

    method ConsumeLogs(done: bool, req: Request<LogRecord>) returns (ok: bool)
      modifies this
      ensures done ==> !ok && out == old(out) && offered == old(offered)
      ensures !done ==> (out, offered, ok) == Written(accepts, old(out), old(offered), LogsText(printer, Entries(req)))
    {
      if done { return false; }
      ok := WriteLines(LogsText(printer, Entries(req)));
    }

    method ConsumeTraces(done: bool, req: Request<Span>) returns (ok: bool)
      modifies this
      ensures done ==> !ok && out == old(out) && offered == old(offered)
      ensures !done ==> (out, offered, ok) == Written(accepts, old(out), old(offered), SpansText(printer, Entries(req)))
    {
      if done { return false; }
      ok := WriteLines(SpansText(printer, Entries(req)));
    }
  }
}

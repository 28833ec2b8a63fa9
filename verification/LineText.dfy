/** The text of lines, banners and warnings, character by character
    (internal/format/common.go, metrics.go, logs.go, traces.go, runblock.go). */
module LineText {
  import opened Basics
  import opened Otlp
  import opened LineFormat
  import opened RunBlockFormat
  import opened RunBlockState
  import opened History
  import opened Interleaving
  import opened Guarantees
  import Hex

  // ---- Numbers ----

  predicate AllDigits(s: string) {
    forall c <- s :: '0' <= c <= '9'
  }

  /** The number these digits stand for. */
  function ReadNumber(s: string): nat
    requires AllDigits(s)
  {
    if s == "" then 0
    else
      var init, last := s[..|s| - 1], s[|s| - 1];
      assert last in s && forall c <- init :: c in s;
      10 * ReadNumber(init) + (last - '0') as nat
  }

  predicate Reads(s: string, n: nat) {
    s != "" && AllDigits(s) && ReadNumber(s) == n && (n > 0 ==> s[0] != '0')
  }

  lemma {:induction false} DecimalReads(n: nat)
    ensures Reads(Decimal(n), n)
  {
    var last := Digit(n % 10);
    assert '0' <= last <= '9' && (last - '0') as nat == n % 10;
    if n >= 10 {
      DecimalReads(n / 10);
      assert Decimal(n)[..|Decimal(n)| - 1] == Decimal(n / 10);
    } else {
      assert Decimal(n) == [last] && Decimal(n)[..0] == "";
    }
  }

  // ---- Attributes ----

  function Printed(v: AnyValue): string {
    match v
    case StringValue(text) => text
    case OtherValue(printed) => printed
  }

  /** The first attribute with this key that has a value. */
  predicate FirstValue(attrs: seq<KeyValue>, key: string, i: nat) {
    && i < |attrs| && attrs[i].key == key && attrs[i].value.Some?
    && forall j :: 0 <= j < i ==> attrs[j].key != key || attrs[j].value.None?
  }

  lemma {:induction false} LookupIsFirst(attrs: seq<KeyValue>, key: string)
    ensures forall i: nat :: FirstValue(attrs, key, i) ==> LookupAttr(attrs, key) == Printed(attrs[i].value.value)
    ensures (forall i: nat :: !FirstValue(attrs, key, i)) ==> LookupAttr(attrs, key) == ""
  {
    if attrs != [] {
      var rest := attrs[1..];
      LookupIsFirst(rest, key);
      if attrs[0].key == key && attrs[0].value.Some? {
        assert FirstValue(attrs, key, 0);
      } else {
        forall i: nat ensures FirstValue(attrs, key, i + 1) <==> FirstValue(rest, key, i) { FirstValueBehind(attrs, key, i); }
        forall i: nat | FirstValue(attrs, key, i) ensures LookupAttr(attrs, key) == Printed(attrs[i].value.value) {
          assert FirstValue(rest, key, i - 1);
        }
        if forall i: nat :: !FirstValue(attrs, key, i) {
          forall i: nat ensures !FirstValue(rest, key, i) { assert !FirstValue(attrs, key, i + 1); }
        }
      }
    }
  }

  lemma FirstValueBehind(attrs: seq<KeyValue>, key: string, i: nat)
    requires attrs != [] && (attrs[0].key != key || attrs[0].value.None?)
    ensures FirstValue(attrs, key, i + 1) <==> FirstValue(attrs[1..], key, i)
  {
    var rest := attrs[1..];
    assert forall j :: 0 <= j < |rest| ==> rest[j] == attrs[j + 1];
    if FirstValue(rest, key, i) {
      forall j | 0 <= j < i + 1 ensures attrs[j].key != key || attrs[j].value.None? {
        if j > 0 { assert rest[j - 1] == attrs[j]; }
      }
    }
  }

  /** The first attribute under event.name, with a value or without. */
  lemma {:induction false} EventIsFirst(attrs: seq<KeyValue>, i: nat)
    requires i < |attrs| && attrs[i].key == "event.name" && forall j :: 0 <= j < i ==> attrs[j].key != "event.name"
    ensures EventName(attrs) == if attrs[i].value.Some? then Printed(attrs[i].value.value) else ""
  {
    if i > 0 { EventIsFirst(attrs[1..], i - 1); }
  }

  lemma {:induction false} NoEvent(attrs: seq<KeyValue>)
    requires forall kv <- attrs :: kv.key != "event.name"
    ensures EventName(attrs) == ""
  {
    if attrs != [] { NoEvent(attrs[1..]); }
  }

  function Shown(kv: KeyValue): string {
    kv.key + "=" + if kv.value.Some? then Printed(kv.value.value) else "<nil>"
  }

  /** One pair is in braces, and one more goes in front of the closing one behind a comma. */
  lemma {:induction false} AttributesText(attrs: seq<KeyValue>, kv: KeyValue)
    ensures FormatAttributes([]) == "" && FormatAttributes([kv]) == "{" + Shown(kv) + "}"
    ensures attrs != [] ==> var text := FormatAttributes(attrs);
              |text| >= 2 && FormatAttributes(attrs + [kv]) == text[..|text| - 1] + ", " + Shown(kv) + "}"
  {
    assert [kv][1..] == [];
    if attrs != [] {
      var joined := JoinAttributes(attrs);
      JoinSnoc(attrs, kv);
      assert FormatAttributes(attrs)[..|joined| + 1] == "{" + joined;
      assert "{" + (joined + ", " + Shown(kv)) + "}" == ("{" + joined) + ", " + Shown(kv) + "}";
    }
  }

  lemma {:induction false} JoinSnoc(attrs: seq<KeyValue>, kv: KeyValue)
    requires attrs != []
    ensures JoinAttributes(attrs + [kv]) == JoinAttributes(attrs) + ", " + Shown(kv) && JoinAttributes(attrs) != ""
  {
    var all := attrs + [kv];
    assert all[1..] == attrs[1..] + [kv];
    if |attrs| > 1 {
      JoinSnoc(attrs[1..], kv);
      var first, rest := Shown(attrs[0]) + ", ", JoinAttributes(attrs[1..]);
      assert first + (rest + ", " + Shown(kv)) == (first + rest) + ", " + Shown(kv);
    } else {
      assert all[1..] == [kv] && [kv][1..] == [];
    }
  }

  /** What stands behind a line for its attributes. */
  function Tail(attrs: seq<KeyValue>): string {
    if attrs == [] then "" else " " + FormatAttributes(attrs)
  }

  lemma SuffixIsTail(attrs: seq<KeyValue>)
    ensures AttributeSuffix(attrs) == Tail(attrs)
  {}

  // ---- Lines ----

  lemma TimestampText(p: Printer, nanos: nat)
    ensures FormatTimestamp(p, 0) == "<no-timestamp>" && (nanos > 0 ==> FormatTimestamp(p, nanos) == p.calendar(nanos))
  {}

  /** A number point shows its value, the others count and sum. */
  lemma PointLineText(p: Printer, name: string, kind: MetricKind, dp: DataPoint, resourceAttrs: seq<KeyValue>) returns (count: string)
    ensures Reads(count, dp.count)
    ensures var head, tail := FormatTimestamp(p, dp.time) + " " + name, Tail(Merged(resourceAttrs, dp.attributes));
            var shown := if kind == Sum || kind == Gauge then " = " + (if dp.value.NoValue? then "0" else dp.value.printed)
                         else " count=" + count + " sum=" + dp.sum;
            PointLine(p, name, kind, dp, resourceAttrs) == "[METRIC] " + (head + shown + tail)
  {
    DecimalReads(dp.count);
    count := Decimal(dp.count);
    SuffixIsTail(Merged(resourceAttrs, dp.attributes));
  }

  lemma SpanLineText(p: Printer, span: Span)
    ensures SpanLine(p, span) == "[TRACE]  " + (FormatTimestamp(p, span.start) + " " + span.name + " trace="
              + Hex.EncodeToString(span.traceId) + " span=" + Hex.EncodeToString(span.spanId) + Tail(span.attributes))
  {
    SuffixIsTail(span.attributes);
  }

  /** Four numbers to a name, from TRACE at 1 to FATAL at 21. */
  lemma SeverityNames(sev: int)
    ensures 1 <= sev <= 24 ==> SeverityName(sev) == ["TRACE", "DEBUG", "INFO", "WARN", "ERROR", "FATAL"][(sev - 1) / 4]
    ensures (sev < 1 ==> SeverityName(sev) == "UNSPECIFIED") && (sev > 24 ==> SeverityName(sev) == "FATAL")
  {}

  function BodyText(body: Option<AnyValue>): string {
    if body.Some? then Printed(body.value) else ""
  }

  lemma LogLineText(p: Printer, lr: LogRecord)
    ensures EventName(lr.attributes) == "" ==>
              LogLine(p, lr) == "[LOG]    " + (FormatTimestamp(p, lr.time) + " " + SeverityName(lr.severity) + " "
                                               + p.quote(BodyText(lr.body)) + Tail(lr.attributes))
    ensures EventName(lr.attributes) != "" ==>
              LogLine(p, lr) == "[EVENT]  " + (FormatTimestamp(p, lr.time) + " " + EventName(lr.attributes)
                                               + Tail(WithoutKeys(lr.attributes, {"event.name"}))
                                               + (if BodyText(lr.body) in {"", "<nil>"} then "" else " body=" + BodyText(lr.body)))
  {
    SuffixIsTail(lr.attributes);
    SuffixIsTail(WithoutKeys(lr.attributes, {"event.name"}));
  }

  // ---- Banners ----

  /** Every field that is not empty is shown under its name. */
  lemma BannerText(h: Header, started: string, f: Footer, finished: string)
    ensures HeaderText(h, started) == "=== run " + h.runID + " started " + started
              + (if h.mode != "" then " mode=" + h.mode else "") + (if h.provider != "" then " provider=" + h.provider else "")
              + (if h.model != "" then " model=" + h.model else "") + " ==="
    ensures FooterText(f, finished) == "=== run " + f.runID + " finished " + finished
              + " outcome=" + (if f.outcome != "" then f.outcome else "<unknown>")
              + (if f.turns != "" then " turns=" + f.turns else "") + " ==="
  {}

  /** A warning names the run and, in digits, the number of items. */
  ghost predicate Warns(line: string, runID: string, n: nat) {
    exists digits :: line == "[WARN] run " + runID + " truncated at " + digits + " items" && Reads(digits, n)
  }

  lemma WarningText(runID: string, n: nat)
    ensures Warns(TruncationWarning(runID, n), runID, n)
  {
    DecimalReads(n);
    assert TruncationWarning(runID, n) == "[WARN] run " + runID + " truncated at " + Decimal(n) + " items";
  }

  /** In every reachable state an overflow block ends with the warning for its run and
      MaxItems, and holds that many items. */
  lemma OverflowWarns(c: Config, s: Sys, i: nat)
    requires Configured(c) && Reachable(c, s) && i < |s.out| && s.out[i].Block? && s.out[i].reason.Overflow?
    ensures var lines := Lines(c, s.out[i]);
            |s.out[i].buffer.items| == c.maxItems && lines != [] && Warns(lines[|lines| - 1], s.out[i].runID, c.maxItems)
  {
    ReachableSafe(c, s);
    WritesAt(c, s.out, i);
    var e := s.out[i];
    LinesOfBlock(c, e.buffer, e.reason);
    FoldedPlain(c.printer, e.runID, e.buffer.items + e.rejected);
    WarningText(e.runID, c.maxItems);
  }
}

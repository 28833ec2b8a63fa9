/** The OTLP messages the sink and the formatters look at.

    A resource or scope carries the address of its message: the source compares
    them as pointers, and two values here are equal exactly when they are the
    same message. A value that is not a string is represented by the text
    FormatAnyValue prints for it. */
module Otlp {
  import opened Basics

  newtype byte = x: int | 0 <= x < 256
  type Bytes = seq<byte>

  datatype AnyValue = StringValue(text: string) | OtherValue(printed: string)
  datatype KeyValue = KeyValue(key: string, value: Option<AnyValue>)

  datatype Resource = Resource(address: nat, attributes: seq<KeyValue>)
  datatype Scope = Scope(address: nat, attributes: seq<KeyValue>)

  /** ScopeSpans, ScopeLogs and ScopeMetrics have one shape, and so have the
      three Resource messages around them. */
  datatype ScopeGroup<T> = ScopeGroup(scope: Option<Scope>, schemaUrl: string, records: seq<T>)
  datatype ResourceGroup<T> =
    ResourceGroup(resource: Option<Resource>, schemaUrl: string, scopes: seq<ScopeGroup<T>>)
  type Request<T> = seq<ResourceGroup<T>>

  datatype Span = Span(
    name: string, traceId: Bytes, spanId: Bytes, parentSpanId: Bytes,
    start: nat, end: nat, attributes: seq<KeyValue>)

  datatype LogRecord = LogRecord(
    time: nat, severity: int, body: Option<AnyValue>, attributes: seq<KeyValue>)

  datatype NumberValue = AsInt(printed: string) | AsDouble(printed: string) | NoValue

  /** The five shapes of data point share a record: Sum and Gauge read `value`,
      the others read `count` and `sum`. */
  datatype DataPoint = DataPoint(
    time: nat, attributes: seq<KeyValue>, value: NumberValue, count: nat, sum: string)

  datatype MetricKind = Sum | Gauge | Histogram | Summary | ExponentialHistogram

  datatype MetricData =
    | Points(kind: MetricKind, points: seq<DataPoint>, temporality: int, monotonic: bool)
    | UnknownData

  datatype Metric = Metric(name: string, description: string, unit: string, data: MetricData)

  function FormatAnyValue(v: Option<AnyValue>): string {
    match v
    case None => "<nil>"
    case Some(StringValue(text)) => text
    case Some(OtherValue(printed)) => printed
  }

  /** The value of the first attribute with this key that has one, else "". */
  function LookupAttr(attrs: seq<KeyValue>, key: string): string {
    if attrs == [] then ""
    else if attrs[0].key == key && attrs[0].value.Some? then FormatAnyValue(attrs[0].value)
    else LookupAttr(attrs[1..], key)
  }

  function ResourceAttributes(resource: Option<Resource>): seq<KeyValue> {
    if resource.Some? then resource.value.attributes else []
  }

  function ScopeAttributes(scope: Option<Scope>): seq<KeyValue> {
    if scope.Some? then scope.value.attributes else []
  }

  /** One record together with the resource and scope it was sent under. */
  datatype Key = Key(resource: Option<Resource>, resourceSchema: string,
                     scope: Option<Scope>, scopeSchema: string)
  datatype Entry<T> = Entry(key: Key, record: T)

  function ScopeEntries<T>(resource: Option<Resource>, resourceSchema: string, s: ScopeGroup<T>): (r: seq<Entry<T>>)
  {
    var key := Key(resource, resourceSchema, s.scope, s.schemaUrl);
    seq(|s.records|, i requires 0 <= i < |s.records| => Entry(key, s.records[i]))
  }

  function ResourceEntries<T>(resource: Option<Resource>, schema: string, scopes: seq<ScopeGroup<T>>): seq<Entry<T>> {
    if scopes == [] then []
    else ScopeEntries(resource, schema, scopes[0]) + ResourceEntries(resource, schema, scopes[1..])
  }

  /** The records of a request in the order the source's three nested loops visit them. */
  function Entries<T>(req: Request<T>): seq<Entry<T>> {
    if req == [] then []
    else ResourceEntries(req[0].resource, req[0].schemaUrl, req[0].scopes) + Entries(req[1..])
  }

  lemma {:induction false} ResourceEntriesAppend<T>(
    resource: Option<Resource>, schema: string, a: seq<ScopeGroup<T>>, b: seq<ScopeGroup<T>>)
    ensures ResourceEntries(resource, schema, a + b)
         == ResourceEntries(resource, schema, a) + ResourceEntries(resource, schema, b)
  {
    if a == [] {
      assert a + b == b;
    } else {
      Others(a, b);
      ResourceEntriesAppend(resource, schema, a[1..], b);
    }
  }

  lemma {:induction false} EntriesAppend<T>(a: Request<T>, b: Request<T>)
    ensures Entries(a + b) == Entries(a) + Entries(b)
  {
    if a == [] {
      assert a + b == b;
    } else {
      Others(a, b);
      EntriesAppend(a[1..], b);
    }
  }

  /** One more resource in the outer loop. */
  lemma EntriesNext<T>(req: Request<T>, i: nat)
    requires i < |req|
    ensures Entries(req[..i + 1])
         == Entries(req[..i]) + ResourceEntries(req[i].resource, req[i].schemaUrl, req[i].scopes)
  {
    assert req[..i + 1] == req[..i] + [req[i]];
    EntriesAppend(req[..i], [req[i]]);
    assert Entries([req[i]]) == ResourceEntries(req[i].resource, req[i].schemaUrl, req[i].scopes) + [];
  }

  /** One more scope in the middle loop. */
  lemma ResourceEntriesNext<T>(resource: Option<Resource>, schema: string, scopes: seq<ScopeGroup<T>>, j: nat)
    requires j < |scopes|
    ensures ResourceEntries(resource, schema, scopes[..j + 1])
         == ResourceEntries(resource, schema, scopes[..j]) + ScopeEntries(resource, schema, scopes[j])
  {
    assert scopes[..j + 1] == scopes[..j] + [scopes[j]];
    ResourceEntriesAppend(resource, schema, scopes[..j], [scopes[j]]);
    assert ResourceEntries(resource, schema, [scopes[j]]) == ScopeEntries(resource, schema, scopes[j]) + [];
  }

  /** The request with these records in a single scope. */
  function OneScope<T>(resource: Option<Resource>, records: seq<T>): Request<T> {
    [ResourceGroup(resource, "", [ScopeGroup(None, "", records)])]
  }

  lemma OneScopeEntries<T>(resource: Option<Resource>, records: seq<T>)
    ensures Entries(OneScope(resource, records)) == ScopeEntries(resource, "", ScopeGroup(None, "", records))
  {
    var req := OneScope(resource, records);
    var scopes := req[0].scopes;
    var es := ScopeEntries(resource, "", scopes[0]);
    assert req[1..] == [] && scopes[1..] == [];
    assert ResourceEntries(resource, "", scopes) == es + [] == es;
    assert Entries(req) == es + [] == es;
  }

  /** The request around a single record. */
  function Single<T>(resource: Option<Resource>, record: T): Request<T> {
    OneScope(resource, [record])
  }

  lemma SingleEntries<T>(resource: Option<Resource>, record: T)
    ensures Entries(Single(resource, record)) == [Entry(Key(resource, "", None, ""), record)]
  {
    OneScopeEntries(resource, [record]);
  }
}

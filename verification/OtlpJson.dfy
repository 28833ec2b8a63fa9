/** Turning the base-64 identifiers of protobuf JSON into the hexadecimal ones of
    OTLP JSON (internal/sink/otlp_json.go; "JSON Protobuf Encoding" in the
    OpenTelemetry Protocol specification).

    JSON is a tree; a message is the tree of its populated fields under their JSON
    names. The standard base-64 encoder is an argument. JSON null, which protojson
    does not write for these messages, is not part of the model. */
module OtlpJson {
  import opened Basics
  import opened Otlp
  import Hex

  datatype Json =
    | JString(text: string)
    | JRaw(literal: string)
    | JArray(items: seq<Json>)
    | JObject(fields: map<string, Json>)

  datatype Message = Message(fields: map<string, Field>)
  datatype Field = Field(name: string, value: Value)

  /** `Scalar` is everything that is neither bytes nor a message, with its JSON. */
  datatype Value =
    | BytesValue(bytes: Bytes)
    | Scalar(json: Json)
    | SubMessage(message: Message)
    | MessageList(messages: seq<Message>)

  type Encoder = Bytes -> string

  /** The fields OTLP JSON writes in hexadecimal. */
  const IDENTIFIERS := {"trace_id", "span_id", "parent_span_id"}

  // ---- The JSON of a message ----

  /** The JSON of a message with identifiers and other bytes encoded as given:
      protojson writes Encode(base64, base64, m), OTLP asks for
      Encode(Hex.EncodeToString, base64, m). */
  function Encode(ids: Encoder, base64: Encoder, m: Message): Json {
    JObject(map k <- m.fields :: EncodeField(ids, base64, m.fields[k]))
  }

  function EncodeField(ids: Encoder, base64: Encoder, f: Field): Json {
    match f.value
    case BytesValue(b) => JString(if f.name in IDENTIFIERS then ids(b) else base64(b))
    case Scalar(j) => j
    case SubMessage(m) => Encode(ids, base64, m)
    case MessageList(ms) => JArray(EncodeAll(ids, base64, ms))
  }

  function EncodeAll(ids: Encoder, base64: Encoder, ms: seq<Message>): seq<Json> {
    if ms == [] then [] else [Encode(ids, base64, ms[0])] + EncodeAll(ids, base64, ms[1..])
  }

  // ---- The rewriter ----

  /** The switch on the field's name. */
  predicate IsIdField(name: string) {
    name == "trace_id" || name == "span_id" || name == "parent_span_id"
  }

  datatype Change = Keep | Set(json: Json) | Fail

  function Get(fields: map<string, Json>, k: string): Option<Json> {
    if k in fields then Some(fields[k]) else None
  }

  /** hexJSONIDs, for whatever body: None where the source returns an error. The
      fields are independent of each other, so the order does not show. */
  function Rewrite(body: Json, m: Message): Option<Json>
    decreases m
  {
    if !body.JObject? || (exists k <- m.fields :: ChangeTo(Get(body.fields, k), m.fields[k]).Fail?) then None
    else Some(JObject(Changed(body.fields, m, m.fields.Keys)))
  }

  /** The fields after the changes to those in `done`. */
  function Changed(fields: map<string, Json>, m: Message, done: set<string>): map<string, Json>
    requires done <= m.fields.Keys
    decreases m, 1
  {
    map k | k in fields.Keys + done && NewValue(fields, m, done, k).Some? :: NewValue(fields, m, done, k).value
  }

  function NewValue(fields: map<string, Json>, m: Message, done: set<string>, k: string): Option<Json>
    requires done <= m.fields.Keys
    decreases m, 0
  {
    if k in done then
      match ChangeTo(Get(fields, k), m.fields[k])
      case Set(j) => Some(j)
      case _ => Get(fields, k)
    else Get(fields, k)
  }

  function ChangeTo(current: Option<Json>, f: Field): Change
    decreases f
  {
    match f.value
    case BytesValue(b) => if IsIdField(f.name) then Set(JString(Hex.EncodeToString(b))) else Keep
    case Scalar(_) => Keep
    case SubMessage(m) =>
      if current.None? then Fail
      else (match Rewrite(current.value, m) case Some(j) => Set(j) case None => Fail)
    case MessageList(ms) =>
      if current.None? || !current.value.JArray? then Fail
      else (match RewriteAll(current.value.items, ms) case Some(js) => Set(JArray(js)) case None => Fail)
  }

  /** More JSON items than messages is an index out of range, counted as an error. */
  function RewriteAll(items: seq<Json>, ms: seq<Message>): Option<seq<Json>>
    decreases ms
  {
    if items == [] then Some([])
    else if ms == [] then None
    else
      match (Rewrite(items[0], ms[0]), RewriteAll(items[1..], ms[1..]))
      case (Some(j), Some(js)) => Some([j] + js)
      case _ => None
  }

  lemma {:induction false} RewriteAllAt(items: seq<Json>, ms: seq<Message>, i: nat)
    requires RewriteAll(items, ms).Some? && i < |items|
    ensures |RewriteAll(items, ms).value| == |items| <= |ms|
    ensures Rewrite(items[i], ms[i]) == Some(RewriteAll(items, ms).value[i])
  {
    if i > 0 {
      RewriteAllAt(items[1..], ms[1..], i - 1);
    } else if |items| > 1 {
      RewriteAllAt(items[1..], ms[1..], 0);
    }
  }

  lemma {:induction false} RewriteAllFails(items: seq<Json>, ms: seq<Message>, i: nat)
    requires i < |items| && i <= |ms| && (i == |ms| || Rewrite(items[i], ms[i]).None?)
    ensures RewriteAll(items, ms).None?
  {
    if i > 0 {
      RewriteAllFails(items[1..], ms[1..], i - 1);
    }
  }

  lemma {:induction false} RewriteAllSome(items: seq<Json>, ms: seq<Message>, js: seq<Json>)
    requires |js| == |items| <= |ms| && forall i :: 0 <= i < |items| ==> Rewrite(items[i], ms[i]) == Some(js[i])
    ensures RewriteAll(items, ms) == Some(js)
  {
    if items != [] {
      assert Rewrite(items[0], ms[0]) == Some(js[0]);
      RewriteAllSome(items[1..], ms[1..], js[1..]);
      assert js == [js[0]] + js[1..];
    }
  }

  lemma ChangedAt(fields: map<string, Json>, m: Message, done: set<string>, k: string)
    requires done <= m.fields.Keys
    ensures Get(Changed(fields, m, done), k) == NewValue(fields, m, done, k)
  {}

  /** Changing one field more, not visited before. */
  lemma ChangedNext(fields: map<string, Json>, m: Message, done: set<string>, k: string)
    requires done <= m.fields.Keys && k in m.fields && k !in done
    ensures Get(Changed(fields, m, done), k) == Get(fields, k)
    ensures var change := ChangeTo(Get(fields, k), m.fields[k]);
            Changed(fields, m, done + {k}) == if change.Set? then Changed(fields, m, done)[k := change.json] else Changed(fields, m, done)
  {}

  /** hexJSONIDs. Range visits the populated fields in an order of its own. */
  method HexJSONIDs(body: Json, m: Message) returns (r: Option<Json>)
    ensures r == Rewrite(body, m)
    decreases m
  {
    if !body.JObject? { return None; }
    var fields := body.fields;
    var todo := m.fields.Keys;
    while todo != {}
      invariant todo <= m.fields.Keys
      invariant fields == Changed(body.fields, m, m.fields.Keys - todo)
      invariant forall k <- m.fields :: k !in todo ==> !ChangeTo(Get(body.fields, k), m.fields[k]).Fail?
      decreases todo
    {
      var k :| k in todo;
      ChangedNext(body.fields, m, m.fields.Keys - todo, k);
      assert m.fields.Keys - (todo - {k}) == m.fields.Keys - todo + {k};
      todo := todo - {k};
      var change := HexField(Get(fields, k), m.fields[k]);
      match change {
        case Fail => return None;
        case Set(j) => fields := fields[k := j];
        case Keep =>
      }
    }
    assert m.fields.Keys - todo == m.fields.Keys;
    r := Some(JObject(fields));
  }

  /** The body of the Range callback. */
  method HexField(current: Option<Json>, f: Field) returns (change: Change)
    ensures change == ChangeTo(current, f)
    decreases f
  {
    match f.value
    case BytesValue(b) =>
      change := if IsIdField(f.name) then Set(JString(Hex.EncodeToString(b))) else Keep;
    case Scalar(_) =>
      change := Keep;
    case SubMessage(m) =>
      if current.None? { return Fail; }
      var r := HexJSONIDs(current.value, m);
      change := if r.Some? then Set(r.value) else Fail;
    case MessageList(ms) =>
      if current.None? || !current.value.JArray? { return Fail; }
      var items := current.value.items;
      for i := 0 to |items|
        invariant |items| == |current.value.items| && i <= |ms|
        invariant forall j :: 0 <= j < i ==> Rewrite(current.value.items[j], ms[j]) == Some(items[j])
        invariant forall j :: i <= j < |items| ==> items[j] == current.value.items[j]
      {
        var r := None;
        if i < |ms| { r := HexJSONIDs(items[i], ms[i]); }
        if r.None? {
          RewriteAllFails(current.value.items, ms, i);
          return Fail;
        }
        items := items[i := r.value];
      }
      RewriteAllSome(current.value.items, ms, items);
      change := Set(JArray(items));
  }

  // ---- What the rewriter means ----

  /** On the JSON protojson writes for a message the rewriter gives the encoding that
      OTLP asks for. */
  lemma {:induction false} RewriteGivesHex(base64: Encoder, m: Message)
    ensures Rewrite(Encode(base64, base64, m), m) == Some(Encode(Hex.EncodeToString, base64, m))
    decreases m
  {
    var before, after := Encode(base64, base64, m).fields, Encode(Hex.EncodeToString, base64, m).fields;
    forall k <- m.fields ensures BecomesIn(before, after, m, k) {
      FieldRewrites(base64, m.fields[k]);
    }
    MapRewrites(before, after, m);
  }

  ghost predicate BecomesIn(before: map<string, Json>, after: map<string, Json>, m: Message, k: string)
    requires k in m.fields && k in before && k in after
  {
    Becomes(before[k], after[k], m.fields[k])
  }

  /** All fields together. */
  lemma MapRewrites(before: map<string, Json>, after: map<string, Json>, m: Message)
    requires before.Keys == after.Keys == m.fields.Keys
    requires forall k <- m.fields :: BecomesIn(before, after, m, k)
    ensures Rewrite(JObject(before), m) == Some(JObject(after))
  {
    var changed := Changed(before, m, m.fields.Keys);
    forall k <- m.fields ensures !ChangeTo(Get(before, k), m.fields[k]).Fail? && Get(changed, k) == Some(after[k]) {
      assert BecomesIn(before, after, m, k);
      ChangedAt(before, m, m.fields.Keys, k);
    }
    assert changed == after;
  }

  ghost predicate Becomes(before: Json, after: Json, f: Field) {
    ChangeTo(Some(before), f) == Set(after) || (ChangeTo(Some(before), f) == Keep && before == after)
  }

  lemma {:induction false} FieldRewrites(base64: Encoder, f: Field)
    ensures Becomes(EncodeField(base64, base64, f), EncodeField(Hex.EncodeToString, base64, f), f)
    decreases f
  {
    match f.value
    case SubMessage(m) => RewriteGivesHex(base64, m);
    case MessageList(ms) => ListRewrites(base64, ms);
    case _ =>
  }

  lemma {:induction false} ListRewrites(base64: Encoder, ms: seq<Message>)
    ensures RewriteAll(EncodeAll(base64, base64, ms), ms) == Some(EncodeAll(Hex.EncodeToString, base64, ms))
    decreases ms
  {
    if ms != [] {
      RewriteGivesHex(base64, ms[0]);
      ListRewrites(base64, ms[1..]);
    }
  }

  // ---- Nothing but identifiers changes ----

  /** The two trees agree everywhere but at identifier fields of the message. */
  ghost predicate AgreeOutsideIds(a: Json, b: Json, m: Message)
    decreases m
  {
    && a.JObject? && b.JObject?
    && (forall k :: k !in m.fields ==> Get(a.fields, k) == Get(b.fields, k))
    && (forall k <- m.fields :: FieldsAgree(Get(a.fields, k), Get(b.fields, k), m.fields[k]))
  }

  ghost predicate FieldsAgree(a: Option<Json>, b: Option<Json>, f: Field)
    decreases f
  {
    match f.value
    case BytesValue(_) => f.name in IDENTIFIERS || a == b
    case Scalar(_) => a == b
    case SubMessage(m) => a.Some? && b.Some? && AgreeOutsideIds(a.value, b.value, m)
    case MessageList(ms) =>
      && a.Some? && b.Some? && a.value.JArray? && b.value.JArray?
      && |a.value.items| == |b.value.items| <= |ms|
      && forall i :: 0 <= i < |a.value.items| ==> AgreeOutsideIds(a.value.items[i], b.value.items[i], ms[i])
  }

  /** Whatever the body, what comes out differs from it at identifier fields only. */
  lemma {:induction false} OnlyIdsChange(body: Json, m: Message)
    requires Rewrite(body, m).Some?
    ensures AgreeOutsideIds(body, Rewrite(body, m).value, m)
    decreases m
  {
    var changed := Changed(body.fields, m, m.fields.Keys);
    forall k <- m.fields ensures FieldsAgree(Get(body.fields, k), Get(changed, k), m.fields[k]) {
      ChangedAt(body.fields, m, m.fields.Keys, k);
      OnlyIdsChangeIn(Get(body.fields, k), m.fields[k]);
    }
    forall k | k !in m.fields ensures Get(body.fields, k) == Get(changed, k) {
      ChangedAt(body.fields, m, m.fields.Keys, k);
    }
  }

  lemma {:induction false} OnlyIdsChangeIn(current: Option<Json>, f: Field)
    requires !ChangeTo(current, f).Fail?
    ensures FieldsAgree(current, if ChangeTo(current, f).Set? then Some(ChangeTo(current, f).json) else current, f)
    decreases f
  {
    match f.value
    case SubMessage(m) => OnlyIdsChange(current.value, m);
    case MessageList(ms) =>
      var items := current.value.items;
      forall i | 0 <= i < |items|
        ensures i < |ms| && |RewriteAll(items, ms).value| == |items|
        ensures AgreeOutsideIds(items[i], RewriteAll(items, ms).value[i], ms[i])
      {
        RewriteAllAt(items, ms, i);
        OnlyIdsChange(items[i], ms[i]);
      }
      RewriteAllLength(items, ms);
    case _ =>
  }

  lemma {:induction false} RewriteAllLength(items: seq<Json>, ms: seq<Message>)
    requires RewriteAll(items, ms).Some?
    ensures |RewriteAll(items, ms).value| == |items| <= |ms|
  {
    if items != [] { RewriteAllLength(items[1..], ms[1..]); }
  }

  // ---- Every identifier, at every depth ----

  /** A step into a message: a field, or an item of a list field. */
  datatype Step = Into(key: string) | Item(key: string, index: nat)

  function MessageAt(m: Message, path: seq<Step>): Option<Message>
    decreases |path|
  {
    if path == [] then Some(m)
    else
      match StepInto(m, path[0])
      case Some(sub) => MessageAt(sub, path[1..])
      case None => None
  }

  function StepInto(m: Message, step: Step): Option<Message> {
    if step.key !in m.fields then None
    else
      match (m.fields[step.key].value, step)
      case (SubMessage(sub), Into(_)) => Some(sub)
      case (MessageList(ms), Item(_, i)) => if i < |ms| then Some(ms[i]) else None
      case _ => None
  }

  function JsonAt(j: Json, path: seq<Step>): Option<Json>
    decreases |path|
  {
    if path == [] then Some(j)
    else
      match JsonInto(j, path[0])
      case Some(sub) => JsonAt(sub, path[1..])
      case None => None
  }

  function JsonInto(j: Json, step: Step): Option<Json> {
    if !j.JObject? || step.key !in j.fields then None
    else
      match step
      case Into(k) => Some(j.fields[k])
      case Item(k, i) => if j.fields[k].JArray? && i < |j.fields[k].items| then Some(j.fields[k].items[i]) else None
  }

  /** The rewriter does to every message in the tree what it does to the whole. */
  lemma StepRewritten(body: Json, m: Message, step: Step)
    requires Rewrite(body, m).Some? && StepInto(m, step).Some? && JsonInto(body, step).Some?
    ensures var r := Rewrite(JsonInto(body, step).value, StepInto(m, step).value);
            r.Some? && JsonInto(Rewrite(body, m).value, step) == r
  {
    var k := step.key;
    var current := Get(body.fields, k);
    assert !ChangeTo(current, m.fields[k]).Fail?;
    ChangedAt(body.fields, m, m.fields.Keys, k);
    if step.Item? {
      RewriteAllAt(body.fields[k].items, m.fields[k].value.messages, step.index);
    }
  }

  lemma {:induction false} PathRewritten(body: Json, m: Message, path: seq<Step>)
    requires Rewrite(body, m).Some? && MessageAt(m, path).Some? && JsonAt(body, path).Some?
    ensures var r := Rewrite(JsonAt(body, path).value, MessageAt(m, path).value);
            r.Some? && JsonAt(Rewrite(body, m).value, path) == r
    decreases |path|
  {
    if path != [] {
      StepRewritten(body, m, path[0]);
      PathRewritten(JsonInto(body, path[0]).value, StepInto(m, path[0]).value, path[1..]);
    }
  }

  /** The fields of one message in the result: identifiers in hexadecimal, whatever the
      body had there; all other bytes, scalars and unknown fields as the body had them. */
  ghost predicate FieldsRewritten(body: Json, m: Message, result: Json) {
    && body.JObject? && result.JObject?
    && (forall k <- m.fields :: FieldRewritten(Get(body.fields, k), m.fields[k], Get(result.fields, k)))
    && (forall k :: k !in m.fields ==> Get(result.fields, k) == Get(body.fields, k))
  }

  predicate FieldRewritten(current: Option<Json>, f: Field, after: Option<Json>) {
    match f.value
    case BytesValue(b) =>
      if f.name == "trace_id" || f.name == "span_id" || f.name == "parent_span_id" then after == Some(JString(Hex.EncodeToString(b)))
      else after == current
    case Scalar(_) => after == current
    case _ => true
  }

  /** At every depth, for every body the rewriter accepts. */
  lemma IdentifiersRewritten(body: Json, m: Message, path: seq<Step>)
    requires Rewrite(body, m).Some? && MessageAt(m, path).Some? && JsonAt(body, path).Some?
    ensures var r := JsonAt(Rewrite(body, m).value, path);
            r.Some? && FieldsRewritten(JsonAt(body, path).value, MessageAt(m, path).value, r.value)
  {
    PathRewritten(body, m, path);
    var j, sub := JsonAt(body, path).value, MessageAt(m, path).value;
    forall k ensures Get(Rewrite(j, sub).value.fields, k) == NewValue(j.fields, sub, sub.fields.Keys, k) {
      ChangedAt(j.fields, sub, sub.fields.Keys, k);
    }
  }

  lemma {:induction false} EncodedAt(ids: Encoder, base64: Encoder, m: Message, path: seq<Step>)
    requires MessageAt(m, path).Some?
    ensures JsonAt(Encode(ids, base64, m), path) == Some(Encode(ids, base64, MessageAt(m, path).value))
    decreases |path|
  {
    if path != [] {
      if path[0].Item? { EncodeAllAt(ids, base64, m.fields[path[0].key].value.messages, path[0].index); }
      EncodedAt(ids, base64, StepInto(m, path[0]).value, path[1..]);
    }
  }

  lemma {:induction false} EncodeAllAt(ids: Encoder, base64: Encoder, ms: seq<Message>, i: nat)
    requires i < |ms|
    ensures |EncodeAll(ids, base64, ms)| == |ms| && EncodeAll(ids, base64, ms)[i] == Encode(ids, base64, ms[i])
  {
    if i > 0 {
      EncodeAllAt(ids, base64, ms[1..], i - 1);
    } else if |ms| > 1 {
      EncodeAllAt(ids, base64, ms[1..], 0);
    }
  }

  /** On the JSON of protojson every bytes field at every depth is in hexadecimal if it is
      a trace id, span id or parent span id, and in base 64 otherwise. */
  lemma BytesOfMarshalled(base64: Encoder, m: Message, path: seq<Step>, k: string)
    requires MessageAt(m, path).Some? && k in MessageAt(m, path).value.fields && MessageAt(m, path).value.fields[k].value.BytesValue?
    ensures var f, r := MessageAt(m, path).value.fields[k], Rewrite(Encode(base64, base64, m), m);
            && r.Some? && JsonAt(r.value, path).Some? && JsonAt(r.value, path).value.JObject?
            && Get(JsonAt(r.value, path).value.fields, k)
                 == Some(JString(if f.name == "trace_id" || f.name == "span_id" || f.name == "parent_span_id"
                                 then Hex.EncodeToString(f.value.bytes) else base64(f.value.bytes)))
  {
    RewriteGivesHex(base64, m);
    EncodedAt(Hex.EncodeToString, base64, m, path);
  }

  // ---- When there is an error ----

  /** The body has an object for the message and for every message in it, and no list of
      objects longer than the message's. */
  predicate Fits(body: Json, m: Message)
    decreases m
  {
    body.JObject? && forall k <- m.fields :: FieldFits(Get(body.fields, k), m.fields[k])
  }

  predicate FieldFits(current: Option<Json>, f: Field)
    decreases f
  {
    match f.value
    case BytesValue(_) => true
    case Scalar(_) => true
    case SubMessage(m) => current.Some? && Fits(current.value, m)
    case MessageList(ms) =>
      && current.Some? && current.value.JArray? && |current.value.items| <= |ms|
      && forall i :: 0 <= i < |current.value.items| ==> Fits(current.value.items[i], ms[i])
  }

  lemma {:induction false} RewriteSucceedsIff(body: Json, m: Message)
    ensures Rewrite(body, m).Some? <==> Fits(body, m)
    decreases m
  {
    if body.JObject? {
      forall k <- m.fields ensures ChangeTo(Get(body.fields, k), m.fields[k]).Fail? <==> !FieldFits(Get(body.fields, k), m.fields[k]) {
        ChangeSucceedsIff(Get(body.fields, k), m.fields[k]);
      }
    }
  }

  lemma {:induction false} ChangeSucceedsIff(current: Option<Json>, f: Field)
    ensures ChangeTo(current, f).Fail? <==> !FieldFits(current, f)
    decreases f
  {
    match f.value
    case SubMessage(m) => if current.Some? { RewriteSucceedsIff(current.value, m); }
    case MessageList(ms) => if current.Some? && current.value.JArray? { ListSucceedsIff(current.value.items, ms); }
    case _ =>
  }

  lemma {:induction false} ListSucceedsIff(items: seq<Json>, ms: seq<Message>)
    ensures RewriteAll(items, ms).Some? <==>
              |items| <= |ms| && forall i :: 0 <= i < |items| ==> Fits(items[i], ms[i])
    decreases ms
  {
    if items != [] && ms != [] {
      RewriteSucceedsIff(items[0], ms[0]);
      ListSucceedsIff(items[1..], ms[1..]);
      forall i | 1 <= i < |items| && |items| <= |ms| ensures items[i] == items[1..][i - 1] && ms[i] == ms[1..][i - 1] {}
      if RewriteAll(items[1..], ms[1..]).Some? && Fits(items[0], ms[0]) {
        forall i | 0 <= i < |items| ensures Fits(items[i], ms[i]) {
          if i > 0 { assert Fits(items[1..][i - 1], ms[1..][i - 1]); }
        }
      }
      if |items| <= |ms| && forall i :: 0 <= i < |items| ==> Fits(items[i], ms[i]) {
        forall i | 0 <= i < |items[1..]| ensures Fits(items[1..][i], ms[1..][i]) { assert Fits(items[i + 1], ms[i + 1]); }
      }
    }
  }

  // ---- Attributes ----

  /** A message tree without identifier fields comes back as it was; so does an
      attribute that is keyed traceId and holds bytes. */
  lemma NoIdsNoChange(base64: Encoder, m: Message)
    requires NoIds(m)
    ensures Rewrite(Encode(base64, base64, m), m) == Some(Encode(base64, base64, m))
  {
    RewriteGivesHex(base64, m);
    SameWithoutIds(base64, m);
  }

  predicate NoIds(m: Message)
    decreases m
  {
    forall k <- m.fields :: NoIdsIn(m.fields[k])
  }

  predicate NoIdsIn(f: Field)
    decreases f
  {
    match f.value
    case BytesValue(_) => f.name !in IDENTIFIERS
    case Scalar(_) => true
    case SubMessage(m) => NoIds(m)
    case MessageList(ms) => forall m <- ms :: NoIds(m)
  }

  lemma {:induction false} SameWithoutIds(base64: Encoder, m: Message)
    requires NoIds(m)
    ensures Encode(Hex.EncodeToString, base64, m) == Encode(base64, base64, m)
    decreases m
  {
    forall k <- m.fields
      ensures EncodeField(Hex.EncodeToString, base64, m.fields[k]) == EncodeField(base64, base64, m.fields[k])
    {
      assert NoIdsIn(m.fields[k]);
      match m.fields[k].value
      case SubMessage(sub) => SameWithoutIds(base64, sub);
      case MessageList(ms) => AllSameWithoutIds(base64, ms);
      case _ =>
    }
  }

  lemma {:induction false} AllSameWithoutIds(base64: Encoder, ms: seq<Message>)
    requires forall m <- ms :: NoIds(m)
    ensures EncodeAll(Hex.EncodeToString, base64, ms) == EncodeAll(base64, base64, ms)
    decreases ms
  {
    if ms != [] {
      SameWithoutIds(base64, ms[0]);
      AllSameWithoutIds(base64, ms[1..]);
    }
  }

  /** The attribute {"key": key, "value": {"bytesValue": bytes}}. */
  function BytesAttribute(key: string, bytes: Bytes): Message {
    Message(map["key" := Field("key", Scalar(JString(key))),
                "value" := Field("value", SubMessage(Message(map["bytesValue" := Field("bytes_value", BytesValue(bytes))])))])
  }

  /** Whatever its key, traceId included. */
  lemma AttributeUntouched(base64: Encoder, key: string, bytes: Bytes)
    ensures var a := BytesAttribute(key, bytes); Rewrite(Encode(base64, base64, a), a) == Some(Encode(base64, base64, a))
  {
    var a := BytesAttribute(key, bytes);
    var value := a.fields["value"].value.message;
    assert NoIdsIn(value.fields["bytesValue"]);
    assert NoIds(value);
    assert NoIdsIn(a.fields["key"]) && NoIdsIn(a.fields["value"]);
    NoIdsNoChange(base64, a);
  }

  // ---- Reading OTLP JSON back ----

  datatype Kind = ScalarKind | BytesKind | MessageKind(ty: string) | ListKind(ty: string)
  datatype FieldDescriptor = FieldDescriptor(name: string, kind: Kind)

  /** The fields of each message type under their JSON names. */
  type Schema = map<string, map<string, FieldDescriptor>>

  predicate Typed(schema: Schema, ty: string, m: Message)
    decreases m
  {
    ty in schema && forall k <- m.fields :: k in schema[ty] && FieldTyped(schema, schema[ty][k], m.fields[k])
  }

  predicate FieldTyped(schema: Schema, d: FieldDescriptor, f: Field)
    decreases f
  {
    && f.name == d.name
    && match f.value
       case BytesValue(_) => d.kind.BytesKind?
       case Scalar(_) => d.kind.ScalarKind?
       case SubMessage(m) => d.kind.MessageKind? && Typed(schema, d.kind.ty, m)
       case MessageList(ms) => d.kind.ListKind? && forall m <- ms :: Typed(schema, d.kind.ty, m)
  }

  type Decoder = string -> Option<Bytes>

  /** A reader of OTLP JSON for a schema, with its base-64 decoder. */
  function Decode(schema: Schema, unbase64: Decoder, ty: string, j: Json): Option<Message>
    decreases j, 0
  {
    if !j.JObject? || ty !in schema then None
    else if forall k <- j.fields :: k in schema[ty] && DecodeField(schema, unbase64, schema[ty][k], j.fields[k]).Some? then
      Some(Message(map k <- j.fields :: DecodeField(schema, unbase64, schema[ty][k], j.fields[k]).value))
    else None
  }

  function DecodeField(schema: Schema, unbase64: Decoder, d: FieldDescriptor, j: Json): Option<Field>
    decreases j, 1
  {
    match d.kind
    case ScalarKind => Some(Field(d.name, Scalar(j)))
    case BytesKind =>
      if !j.JString? then None
      else
        (match if d.name in IDENTIFIERS then Hex.DecodeString(j.text) else unbase64(j.text)
         case Some(b) => Some(Field(d.name, BytesValue(b)))
         case None => None)
    case MessageKind(ty) =>
      (match Decode(schema, unbase64, ty, j)
       case Some(m) => Some(Field(d.name, SubMessage(m)))
       case None => None)
    case ListKind(ty) =>
      if !j.JArray? then None
      else
        (match DecodeAll(schema, unbase64, ty, j.items)
         case Some(ms) => Some(Field(d.name, MessageList(ms)))
         case None => None)
  }

  function DecodeAll(schema: Schema, unbase64: Decoder, ty: string, items: seq<Json>): Option<seq<Message>>
    decreases items
  {
    if items == [] then Some([])
    else
      match (Decode(schema, unbase64, ty, items[0]), DecodeAll(schema, unbase64, ty, items[1..]))
      case (Some(m), Some(ms)) => Some([m] + ms)
      case _ => None
  }

  ghost predicate Inverse(unbase64: Decoder, base64: Encoder) {
    forall b :: unbase64(base64(b)) == Some(b)
  }

  /** Reading the hexadecimal form gives the message back. */
  lemma {:induction false} HexDecodes(schema: Schema, base64: Encoder, unbase64: Decoder, ty: string, m: Message)
    requires Inverse(unbase64, base64) && Typed(schema, ty, m)
    ensures Decode(schema, unbase64, ty, Encode(Hex.EncodeToString, base64, m)) == Some(m)
    decreases m
  {
    var fields := Encode(Hex.EncodeToString, base64, m).fields;
    forall k <- m.fields
      ensures k in fields && DecodeField(schema, unbase64, schema[ty][k], fields[k]) == Some(m.fields[k])
    {
      FieldDecodes(schema, base64, unbase64, schema[ty][k], m.fields[k]);
    }
    assert (map k <- fields :: DecodeField(schema, unbase64, schema[ty][k], fields[k]).value) == m.fields;
  }

  lemma {:induction false} FieldDecodes(schema: Schema, base64: Encoder, unbase64: Decoder, d: FieldDescriptor, f: Field)
    requires Inverse(unbase64, base64) && FieldTyped(schema, d, f)
    ensures DecodeField(schema, unbase64, d, EncodeField(Hex.EncodeToString, base64, f)) == Some(f)
    decreases f
  {
    match f.value
    case BytesValue(b) => Hex.RoundTrip(b);
    case SubMessage(m) => HexDecodes(schema, base64, unbase64, d.kind.ty, m);
    case MessageList(ms) => ListDecodes(schema, base64, unbase64, d.kind.ty, ms);
    case _ =>
  }

  lemma {:induction false} ListDecodes(schema: Schema, base64: Encoder, unbase64: Decoder, ty: string, ms: seq<Message>)
    requires Inverse(unbase64, base64) && forall m <- ms :: Typed(schema, ty, m)
    ensures DecodeAll(schema, unbase64, ty, EncodeAll(Hex.EncodeToString, base64, ms)) == Some(ms)
    decreases ms
  {
    if ms != [] {
      HexDecodes(schema, base64, unbase64, ty, ms[0]);
      ListDecodes(schema, base64, unbase64, ty, ms[1..]);
      assert ms == [ms[0]] + ms[1..];
    }
  }

  /** marshalOTLPJSON preserves the message: a reader of OTLP JSON gets it back from
      the rewritten JSON. */
  lemma RewritePreservesMeaning(schema: Schema, base64: Encoder, unbase64: Decoder, ty: string, m: Message)
    requires Inverse(unbase64, base64) && Typed(schema, ty, m)
    ensures var r := Rewrite(Encode(base64, base64, m), m);
            r.Some? && Decode(schema, unbase64, ty, r.value) == Some(m)
  {
    RewriteGivesHex(base64, m);
    HexDecodes(schema, base64, unbase64, ty, m);
  }
}

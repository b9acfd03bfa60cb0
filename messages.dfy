/** The wire envelope of the event layer: an event name plus a free-form payload,
    and its encoding as the JSON document {"nombre": <event>, "params": <payload>}.
    The byte layout that encoding/json produces is abstract: a document is the tree of
    values json.Marshal writes and json.Unmarshal reads. */
module Messages {

  datatype Option<+T> = None | Some(value: T)

  /** A payload value as it reaches a handler through an interface{} map. */
  datatype Value =
    | Str(s: string)
    | Num(n: real)
    | Bool(b: bool)
    | Null
    | Array(items: seq<Value>)
    | Object(fields: map<string, Value>)
      /** a Go value json.Marshal refuses: a channel, a function, a complex number, NaN or an infinity */
    | Unsupported

  type Params = map<string, Value>

  /** JsonMessage: the event name (JSON key "nombre") and its parameters (JSON key "params"). */
  datatype Envelope = Envelope(event: string, params: Params)

  const NameKey: string := "nombre"
  const ParamsKey: string := "params"

  /** True when json.Marshal can serialise the value: nothing in it is Unsupported. */
  predicate Encodable(v: Value)
    decreases v
  {
    match v
    case Unsupported => false
    case Array(items) => forall i :: 0 <= i < |items| ==> Encodable(items[i])
    case Object(fields) => forall k :: k in fields ==> Encodable(fields[k])
    case _ => true
  }

  predicate EncodableParams(params: Params) {
    forall k :: k in params ==> Encodable(params[k])
  }

  /** json.Marshal(JsonMessage{event, params}): fails exactly when some parameter cannot be
      serialised; otherwise the document decodes back to the same envelope. */
  function Encode(event: string, params: Params): (r: Option<Value>)
    ensures r.Some? <==> EncodableParams(params)
    ensures r.Some? ==> Decode(r.value) == Some(Envelope(event, params))
    ensures r.Some? ==> Encodable(r.value)
  {
    if EncodableParams(params) then
      Some(Object(map[NameKey := Str(event), ParamsKey := Object(params)]))
    else
      None
  }

  /** The field stored under `key`, or Null when the key is absent (absent and null fields
      both leave the struct field at its zero value). */
  function Field(fields: map<string, Value>, key: string): Value {
    if key in fields then fields[key] else Null
  }

  /** The name is a string or null and the parameters an object or null. */
  predicate FieldsWellTyped(fields: map<string, Value>) {
    var name := Field(fields, NameKey);
    var params := Field(fields, ParamsKey);
    (name.Str? || name.Null?) && (params.Object? || params.Null?)
  }

  /** json.Unmarshal(doc, &JsonMessage): a null document or null/missing fields leave the zero
      value (empty name, no parameters); a field of the wrong JSON type, or a document that is
      not an object, is a decode error. Other keys are ignored. */
  function Decode(doc: Value): (r: Option<Envelope>)
    ensures doc.Null? ==> r == Some(Envelope("", map[]))
    ensures r.Some? && doc.Object? && Field(doc.fields, NameKey).Str? ==> r.value.event == Field(doc.fields, NameKey).s
    ensures r.Some? && doc.Object? && Field(doc.fields, ParamsKey).Object? ==> r.value.params == Field(doc.fields, ParamsKey).fields
    ensures r.Some? && doc.Object? && Field(doc.fields, NameKey).Null? ==> r.value.event == ""
    ensures r.Some? && doc.Object? && Field(doc.fields, ParamsKey).Null? ==> r.value.params == map[]
    ensures r.Some? ==> doc.Null? || doc.Object?
    ensures doc.Object? ==> (r.Some? <==> FieldsWellTyped(doc.fields))
  {
    match doc
    case Null => Some(Envelope("", map[]))
    case Object(fields) =>
      var name := Field(fields, NameKey);
      var params := Field(fields, ParamsKey);
      if FieldsWellTyped(fields) then
        Some(Envelope(if name.Str? then name.s else "", if params.Object? then params.fields else map[]))
      else
        None
    case _ => None
  }

  /** Two Emit calls that both encode produce the same document only for the same envelope,
      so ordering stated over documents is ordering over envelopes. */
  lemma EncodeInjective(e1: string, p1: Params, e2: string, p2: Params)
    requires Encode(e1, p1).Some? && Encode(e1, p1) == Encode(e2, p2)
    ensures e1 == e2 && p1 == p2
  {
    assert Decode(Encode(e1, p1).value) == Some(Envelope(e1, p1));
    assert Decode(Encode(e2, p2).value) == Some(Envelope(e2, p2));
  }
}

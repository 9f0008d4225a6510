/**
 * The generic event envelope that travels on the broker: event time, unique
 * id, event type, free-text comment and a payload. The JSON text layer
 * (`json.loads`, `json.dumps`, `json.Unmarshal`) is library code; the model
 * works on the JSON values those functions produce and consume.
 */
module Envelope {
  import opened Wrappers
  import Base64

  /** A JSON value as Python's `json.loads` returns it (numbers restricted to integers). */
  datatype Json =
    | JNull
    | JBool(b: bool)
    | JNumber(n: int)
    | JString(s: string)
    | JArray(items: seq<Json>)
    | JObject(fields: map<string, Json>)

  const TimeField: string := "event_time_utc"
  const UidField: string := "event_uid"
  const TypeField: string := "event_type"
  const CommentField: string := "comment"
  const PayloadField: string := "payload"

  /** Every keyword the Python `EventRoot` dataclass accepts. */
  const EnvelopeFields: set<string> := {TimeField, UidField, TypeField, CommentField, PayloadField}
  /** The keywords without a default value. */
  const RequiredFields: set<string> := {TimeField, UidField, TypeField}

  /**
   * Python's `EventRoot` dataclass. Its fields are not type-checked, so each
   * holds whatever JSON value the message carried.
   */
  datatype PyEventRoot = PyEventRoot(eventTimeUtc: Json, eventUid: Json, eventType: Json, comment: Json, payload: Json)

  /**
   * `parse_event_root(data)`, that is `EventRoot(**data)`: the value must be
   * an object, may only use the dataclass's keywords, and must give the three
   * required ones; `comment` defaults to "" and `payload` to None.
   */
  function ParseEventRoot(data: Json): (r: Option<PyEventRoot>)
    ensures r.Some? <==> data.JObject? && data.fields.Keys <= EnvelopeFields && RequiredFields <= data.fields.Keys
    ensures r.Some? ==> r.value.eventType == data.fields[TypeField] && r.value.eventUid == data.fields[UidField]
  {
    match data
    case JObject(m) =>
      if m.Keys <= EnvelopeFields && RequiredFields <= m.Keys then
        Some(PyEventRoot(
          m[TimeField], m[UidField], m[TypeField],
          if CommentField in m then m[CommentField] else JString(""),
          if PayloadField in m then m[PayloadField] else JNull))
      else None
    case _ => None
  }

  /**
   * An envelope built by the publishing side: every field is text, and the
   * payload is the base 64 encoding of the model's JSON.
   */
  datatype Envelope = Envelope(eventTimeUtc: string, eventUid: string, eventType: string, comment: string, payload: string)

  /** `asdict(event)`: the envelope as the JSON object handed to the broker. */
  function ToJson(e: Envelope): Json {
    JObject(map[TimeField := JString(e.eventTimeUtc), UidField := JString(e.eventUid),
                TypeField := JString(e.eventType), CommentField := JString(e.comment),
                PayloadField := JString(e.payload)])
  }

  /**
   * What the consuming side reads back from a published envelope is the same
   * envelope, field for field.
   */
  lemma ParseToJson(e: Envelope)
    ensures ParseEventRoot(ToJson(e)) == Some(PyEventRoot(
      JString(e.eventTimeUtc), JString(e.eventUid), JString(e.eventType), JString(e.comment), JString(e.payload)))
  {
    var m := ToJson(e).fields;
    assert m.Keys == EnvelopeFields;
  }

  /**
   * The Go `EventRoot` record of the application service, as `json.Unmarshal`
   * fills it: text fields, and an optional comment.
   */
  datatype EventRoot = EventRoot(eventTimeUtc: string, eventUid: string, eventType: string, comment: Option<string>, payload: string)

  /**
   * The `model` argument of the Python event builders: a dataclass instance
   * (with the UTF-8 bytes of `json.dumps(asdict(model))`, or None when a field
   * is not JSON-serialisable), a dataclass class object, or anything else.
   */
  datatype Model =
    | DataclassInstance(json: Option<seq<Base64.Byte>>)
    | DataclassType
    | NotDataclass

  /** Why a Python builder refused to build an envelope. */
  datatype Failure =
    | InvalidEventType   // ValueError: not an `EventType` member
    | NotADataclass      // TypeError from the `is_dataclass` check
    | NotAnInstance      // TypeError from `asdict` on a dataclass class
    | NotSerialisable    // TypeError from `json.dumps`

  /**
   * `is_dataclass` check, then `base64.b64encode(json.dumps(asdict(model)).encode("utf-8"))`
   * as text.
   */
  function EncodeModel(model: Model): (r: Result<string, Failure>)
    ensures r.Ok? <==> model.DataclassInstance? && model.json.Some?
    ensures r.Ok? ==> Base64.Decode(r.value) == Some(model.json.value)
    ensures model.NotDataclass? ==> r == Err(NotADataclass)
  {
    match model
    case NotDataclass => Err(NotADataclass)
    case DataclassType => Err(NotAnInstance)
    case DataclassInstance(None) => Err(NotSerialisable)
    case DataclassInstance(Some(bytes)) =>
      Base64.DecodeEncode(bytes);
      Ok(Base64.Encode(bytes))
  }

  /** A raw message body as it comes off the broker. */
  type Body = seq<int>
}

/**
 * `EventBuilder.build` of the generated Python models: wrap a dataclass
 * instance into an envelope whose payload is the base 64 text of the
 * instance's JSON. The clock reading (`datetime.utcnow().isoformat()`) and
 * the fresh `uuid4` are the parameters `now` and `uid`.
 */
module EventBuilder {
  import opened Wrappers
  import opened Envelope
  import Base64

  /** `EventBuilder(event_type, model, comment).build()`; an `Err` is the raised `TypeError`. */
  function Build(eventType: string, model: Model, comment: string, now: string, uid: string): (r: Result<Envelope, Failure>)
    ensures r.Err? <==> !(model.DataclassInstance? && model.json.Some?)
    ensures model.NotDataclass? ==> r == Err(NotADataclass)
    ensures r.Ok? ==>
      r.value.eventType == eventType && r.value.comment == comment &&
      r.value.eventUid == uid && r.value.eventTimeUtc == now + "Z"
  {
    var payload :- EncodeModel(model);
    Ok(Envelope(now + "Z", uid, eventType, comment, payload))
  }

  /**
   * What a consumer parses from a built envelope carries the event type and
   * comment unchanged, and a payload that decodes to the model's JSON.
   */
  lemma BuildThenParse(eventType: string, bytes: seq<Base64.Byte>, comment: string, now: string, uid: string)
    ensures var e := Build(eventType, DataclassInstance(Some(bytes)), comment, now, uid).value;
      var p := ParseEventRoot(ToJson(e));
      p.Some? && p.value.eventType == JString(eventType) && p.value.comment == JString(comment) &&
      p.value.payload.JString? && Base64.Decode(p.value.payload.s) == Some(bytes)
  {
    var e := Build(eventType, DataclassInstance(Some(bytes)), comment, now, uid).value;
    ParseToJson(e);
  }
}

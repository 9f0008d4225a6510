/**
 * `EventEmitter.emit` of the propagator service: check the arguments, build
 * the envelope, derive the routing key and hand both to the broker. Every
 * failure is logged and swallowed, so the result says what would be
 * published, or why nothing is. The clock reading and the fresh `uuid4` are
 * the parameters `now` and `uid`.
 */
module EventEmitter {
  import opened Wrappers
  import opened Envelope
  import opened Strings
  import Base64

  /** The `event_type` argument: a member of the `EventType` enum (with its value), or anything else. */
  datatype EventTypeArg = Member(value: string) | NotMember

  /** What `emit` does: publish a message under a routing key, or log the failure. */
  datatype Emission = Published(routingKey: string, message: Envelope) | Failed(reason: Failure)

  const RoutingKeyPrefix: string := "events."

  /** `f"events.{event_type.value.lower()}"`. */
  function RoutingKey(value: string): (r: string)
    ensures |r| == |RoutingKeyPrefix| + |value|
    ensures r[..|RoutingKeyPrefix|] == RoutingKeyPrefix
    ensures forall i :: 0 <= i < |value| ==> r[|RoutingKeyPrefix| + i] == LowerChar(value[i])
  {
    RoutingKeyPrefix + ToLower(value)
  }

  function Emit(eventType: EventTypeArg, model: Model, comment: string, now: string, uid: string): (r: Emission)
    ensures eventType.NotMember? ==> r == Failed(InvalidEventType)
    ensures r.Published? <==> eventType.Member? && model.DataclassInstance? && model.json.Some?
    ensures eventType.Member? && model.NotDataclass? ==> r == Failed(NotADataclass)
    ensures r.Published? ==>
      r.routingKey == RoutingKey(eventType.value) &&
      r.message.eventType == eventType.value && r.message.comment == comment &&
      r.message.eventUid == uid && r.message.eventTimeUtc == now + "Z" &&
      Base64.Decode(r.message.payload) == Some(model.json.value)
  {
    match eventType
    case NotMember => Failed(InvalidEventType)
    case Member(value) =>
      match EncodeModel(model)
      case Err(f) => Failed(f)
      case Ok(payload) => Published(RoutingKey(value), Envelope(now + "Z", uid, value, comment, payload))
  }

  /**
   * The routing key depends only on the event type, ignoring letter case:
   * two members whose values differ only in case publish under one key.
   */
  lemma RoutingKeyIgnoresCase(v: string, w: string)
    requires |v| == |w|
    requires forall i :: 0 <= i < |v| ==> LowerChar(v[i]) == LowerChar(w[i])
    ensures RoutingKey(v) == RoutingKey(w)
  {
    assert ToLower(v) == ToLower(w);
  }
}

/**
 * `PropagatorState` of the test harness: per-service lists of received
 * events, callback results keyed by "<event uid>_<action>", named event
 * references, stream-subscriber cancel functions and registered containers.
 * The mutex only serialises the methods, so each is one atomic step.
 * Timestamps are integers (nanoseconds); cancel functions and containers are
 * known by identifiers, and invoking a cancel function is recorded in
 * `cancelled`.
 */
module StateService {
  import opened Wrappers
  import Occurrence
  import FxSlices
  import FxValues

  /** A received event as the harness stores it. */
  datatype TestEvent = TestEvent(eventUid: string, eventType: string, eventTime: int)

  /** What a callback left behind: its response, or its error. */
  datatype CallbackValue = Response(response: string) | CallbackError(message: string)

  /** Why a lookup failed. */
  datatype LookupError = NoEventsForService | NoMatchingEvent | NoContainer

  /** `GetCallbackResult`'s three results: the event, the stored response, the error. */
  datatype CallbackLookup = CallbackLookup(event: Option<TestEvent>, response: Option<string>, err: Option<CallbackFailure>)
  datatype CallbackFailure = Lookup(reason: LookupError) | Callback(message: string)

  type ContainerId = string
  type CancelId = nat

  /** `fmt.Sprintf("%s_%s", uid, action)`. */
  function ResultKey(uid: string, action: string): string {
    uid + "_" + action
  }

  function IsOfType(eventType: string): TestEvent -> bool {
    (e: TestEvent) => e.eventType == eventType
  }

  function InWindow(from: int, to: int): TestEvent -> bool {
    (e: TestEvent) => from < e.eventTime < to
  }

  /** The events strictly inside the window, in the order received. */
  function Between(events: seq<TestEvent>, from: int, to: int): (r: seq<TestEvent>)
    ensures forall i :: 0 <= i < |r| ==> from < r[i].eventTime < to
  {
    FxSlices.Filter(events, InWindow(from, to))
  }

  /** What `GetCallbackResult` answers for a store. */
  function LookupCallback(received: map<string, seq<TestEvent>>, results: map<string, CallbackValue>,
                          service: string, eventType: string, occurrence: int, action: string): (r: CallbackLookup)
    ensures service !in received ==> r == CallbackLookup(None, None, Some(Lookup(NoEventsForService)))
    ensures r.event.Some? ==> service in received && r.event.value in received[service] && r.event.value.eventType == eventType
    ensures r.err == Some(Lookup(NoMatchingEvent)) <==>
      service in received && Occurrence.NthWhere(received[service], IsOfType(eventType), occurrence).None?
    ensures service in received && Occurrence.NthWhere(received[service], IsOfType(eventType), occurrence).None? ==>
      r == CallbackLookup(None, None, Some(Lookup(NoMatchingEvent)))
    ensures service in received && Occurrence.NthWhere(received[service], IsOfType(eventType), occurrence).Some? ==>
      var events := received[service];
      var i := Occurrence.NthWhere(events, IsOfType(eventType), occurrence).value;
      var key := ResultKey(events[i].eventUid, action);
      r.event == Some(events[i]) &&
      (key !in results ==> r.response.None? && r.err.None?) &&
      (key in results && results[key].Response? ==> r.response == Some(results[key].response) && r.err.None?) &&
      (key in results && results[key].CallbackError? ==> r.response.None? && r.err == Some(Callback(results[key].message)))
  {
    if service !in received then CallbackLookup(None, None, Some(Lookup(NoEventsForService)))
    else
      var events := received[service];
      match Occurrence.NthWhere(events, IsOfType(eventType), occurrence)
      case None => CallbackLookup(None, None, Some(Lookup(NoMatchingEvent)))
      case Some(i) =>
        var key := ResultKey(events[i].eventUid, action);
        if key !in results then CallbackLookup(Some(events[i]), None, None)
        else match results[key]
          case CallbackError(msg) => CallbackLookup(Some(events[i]), None, Some(Callback(msg)))
          case Response(resp) => CallbackLookup(Some(events[i]), Some(resp), None)
  }

  class PropagatorState {
    var propagators: map<string, ContainerId>
    var receivedEvents: map<string, seq<TestEvent>>
    var namedEventReferences: map<string, string>
    var callbackResults: map<string, CallbackValue>
    var streamSubscribersCancel: map<string, CancelId>
    /** The cancel functions invoked so far, in call order. */
    var cancelled: seq<CancelId>

    /** `NewPropagatorState`: everything empty. */
    constructor ()
      ensures propagators == map[] && receivedEvents == map[] && namedEventReferences == map[]
      ensures callbackResults == map[] && streamSubscribersCancel == map[] && cancelled == []
    {
      propagators := map[];
      receivedEvents := map[];
      namedEventReferences := map[];
      callbackResults := map[];
      streamSubscribersCancel := map[];
      cancelled := [];
    }

    method GetPropagatorServiceContainer(service: string) returns (r: Result<ContainerId, LookupError>)
      ensures r.Ok? <==> service in propagators
      ensures r.Ok? ==> r.value == propagators[service]
      ensures r.Err? ==> r.error == NoContainer
    {
      if service in propagators {
        return Ok(propagators[service]);
      }
      return Err(NoContainer);
    }

    method RegisterPropagatorServiceContainer(service: string, container: ContainerId)
      modifies this
      ensures propagators == old(propagators)[service := container]
      ensures receivedEvents == old(receivedEvents) && callbackResults == old(callbackResults)
      ensures namedEventReferences == old(namedEventReferences) && streamSubscribersCancel == old(streamSubscribersCancel) && cancelled == old(cancelled)
    {
      propagators := propagators[service := container];
    }

    /** `SaveReceivedEvent`: append to the service's list; other services are unchanged. */
    method SaveReceivedEvent(event: TestEvent, service: string)
      modifies this
      ensures receivedEvents == old(receivedEvents)[service := (if service in old(receivedEvents) then old(receivedEvents)[service] else []) + [event]]
      ensures propagators == old(propagators) && callbackResults == old(callbackResults)
      ensures namedEventReferences == old(namedEventReferences) && streamSubscribersCancel == old(streamSubscribersCancel) && cancelled == old(cancelled)
    {
      var events := if service in receivedEvents then receivedEvents[service] else [];
      receivedEvents := receivedEvents[service := events + [event]];
    }

    /** `RegisterCallbackResult`: the error if there is one, else the response, under "uid_action". */
    method RegisterCallbackResult(event: TestEvent, action: string, response: string, callbackErr: Option<string>)
      modifies this
      ensures callbackResults == old(callbackResults)[ResultKey(event.eventUid, action) :=
        if callbackErr.Some? then CallbackError(callbackErr.value) else Response(response)]
      ensures propagators == old(propagators) && receivedEvents == old(receivedEvents)
      ensures namedEventReferences == old(namedEventReferences) && streamSubscribersCancel == old(streamSubscribersCancel) && cancelled == old(cancelled)
    {
      var key := ResultKey(event.eventUid, action);
      if callbackErr.Some? {
        callbackResults := callbackResults[key := CallbackError(callbackErr.value)];
      } else {
        callbackResults := callbackResults[key := Response(response)];
      }
    }

    /**
     * `GetCallbackResult`: scan the service's events counting those of the
     * type; at the `occurrence`-th, answer with the result stored for it.
     */
    method GetCallbackResult(service: string, eventType: string, occurrence: int, action: string) returns (r: CallbackLookup)
      ensures r == LookupCallback(receivedEvents, callbackResults, service, eventType, occurrence, action)
    {
      if service !in receivedEvents {
        return CallbackLookup(None, None, Some(Lookup(NoEventsForService)));
      }
      var events := receivedEvents[service];
      var found := Occurrence.ScanForNth(events, IsOfType(eventType), occurrence);
      match found {
        case None =>
          return CallbackLookup(None, None, Some(Lookup(NoMatchingEvent)));
        case Some(i) =>
          var evt := events[i];
          var key := ResultKey(evt.eventUid, action);
          if key !in callbackResults {
            return CallbackLookup(Some(evt), None, None);
          }
          match callbackResults[key] {
            case CallbackError(msg) => return CallbackLookup(Some(evt), None, Some(Callback(msg)));
            case Response(resp) => return CallbackLookup(Some(evt), Some(resp), None);
          }
      }
    }

    /** `GetReceivedEvents`: the service's events strictly after `from` and strictly before `to`. */
    method GetReceivedEvents(service: string, from: int, to: int) returns (res: seq<TestEvent>)
      ensures service !in receivedEvents ==> res == []
      ensures service in receivedEvents ==> res == Between(receivedEvents[service], from, to)
    {
      res := [];
      if service !in receivedEvents {
        return;
      }
      var events := receivedEvents[service];
      var k := 0;
      while k < |events|
        invariant 0 <= k <= |events|
        invariant res == Between(events[..k], from, to)
      {
        assert events[..k + 1][..k] == events[..k];
        if from < events[k].eventTime && events[k].eventTime < to {
          res := res + [events[k]];
        }
        k := k + 1;
      }
      assert events[..k] == events;
    }

    method RegisterNamedEventReference(ref: string, json: string)
      modifies this
      ensures namedEventReferences == old(namedEventReferences)[ref := json]
      ensures propagators == old(propagators) && receivedEvents == old(receivedEvents) && callbackResults == old(callbackResults)
      ensures streamSubscribersCancel == old(streamSubscribersCancel) && cancelled == old(cancelled)
    {
      namedEventReferences := namedEventReferences[ref := json];
    }

    method GetNamedEventByReference(ref: string) returns (r: Option<string>)
      ensures r.Some? <==> ref in namedEventReferences
      ensures r.Some? ==> r.value == namedEventReferences[ref]
    {
      if ref in namedEventReferences {
        return Some(namedEventReferences[ref]);
      }
      return None;
    }

    /** `RegisterCancelV2Stream`: the subscriber's cancel function, replacing any earlier one. */
    method RegisterCancelV2Stream(subscriber: string, cancel: CancelId)
      modifies this
      ensures streamSubscribersCancel == old(streamSubscribersCancel)[subscriber := cancel]
      ensures propagators == old(propagators) && receivedEvents == old(receivedEvents) && callbackResults == old(callbackResults)
      ensures namedEventReferences == old(namedEventReferences) && cancelled == old(cancelled)
    {
      streamSubscribersCancel := streamSubscribersCancel[subscriber := cancel];
    }

    /** `CancelAllV2Stream`: call every registered cancel function once, in map order, then forget them all. */
    method CancelAllV2Stream() returns (ghost order: seq<string>)
      modifies this
      ensures FxValues.IsKeyOrder(old(streamSubscribersCancel), order)
      ensures cancelled == old(cancelled) + FxValues.ValuesIn(old(streamSubscribersCancel), order)
      ensures streamSubscribersCancel == map[]
      ensures propagators == old(propagators) && receivedEvents == old(receivedEvents) && callbackResults == old(callbackResults)
      ensures namedEventReferences == old(namedEventReferences)
    {
      var subscribers := streamSubscribersCancel;
      order := [];
      var remaining := subscribers.Keys;
      while remaining != {}
        invariant remaining <= subscribers.Keys
        invariant forall i :: 0 <= i < |order| ==> order[i] in subscribers && order[i] !in remaining
        invariant forall k :: k in subscribers ==> k in remaining || k in order
        invariant forall i, j :: 0 <= i < j < |order| ==> order[i] != order[j]
        invariant |order| + |remaining| == |subscribers|
        invariant cancelled == old(cancelled) + FxValues.ValuesIn(subscribers, order)
        invariant streamSubscribersCancel == subscribers
        invariant propagators == old(propagators) && receivedEvents == old(receivedEvents) && callbackResults == old(callbackResults)
        invariant namedEventReferences == old(namedEventReferences)
        decreases remaining
      {
        var k :| k in remaining;
        cancelled := cancelled + [subscribers[k]];
        order := order + [k];
        remaining := remaining - {k};
      }
      streamSubscribersCancel := map[];
    }
  }

  /** Saving an event to one service leaves every other service's events as they were, and the saved one is last. */
  lemma SaveKeepsOthers(received: map<string, seq<TestEvent>>, service: string, event: TestEvent, other: string)
    ensures var after := received[service := (if service in received then received[service] else []) + [event]];
      after[service][|after[service]| - 1] == event &&
      (other != service ==> (other in after <==> other in received) && (other in received ==> after[other] == received[other]))
  {
  }

  /** An event is returned for a window exactly when it was received in it; order is kept. */
  lemma {:induction false} BetweenMembership(events: seq<TestEvent>, from: int, to: int, e: TestEvent)
    ensures e in Between(events, from, to) <==> e in events && from < e.eventTime < to
  {
    FxSlices.FilterMembership(events, InWindow(from, to), e);
  }
}

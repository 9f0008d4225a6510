/**
 * The propagator service's `EventMonitor`: a registry from event type to an
 * ordered list of handler classes, a FIFO buffer filled by the broker
 * consumer, and a processing loop that parses each buffered body and starts
 * one handler task per registered class. Task starts are recorded in the
 * `launched` list; JSON text parsing (`json.loads`) is the parameter `loads`.
 */
module PropagatorEventMonitor {
  import opened Wrappers
  import opened Envelope
  import opened Registry

  /** A handler class, known by name. */
  type HandlerClass = string

  /** One `asyncio.create_task(handler_class(deps).run(event))`. */
  datatype Launch = Launch(handler: HandlerClass, event: PyEventRoot)

  /** What one processing iteration did with a body. */
  datatype Outcome =
    | Dispatched(count: nat)   // handlers were started
    | NoHandler                // warning: no registered handler for the type
    | Dropped                  // error: the body could not be turned into an event

  datatype Step = Step(launches: seq<Launch>, outcome: Outcome)

  /** `json.loads` followed by `parse_event_root`. */
  function Received(body: Body, loads: Body -> Option<Json>): Option<PyEventRoot> {
    match loads(body)
    case None => None
    case Some(j) => ParseEventRoot(j)
  }

  /**
   * One iteration of `_process_events` on a body. A list or object as
   * event type cannot be a dictionary key: the lookup raises, and the error
   * is logged like a parse failure.
   */
  function Dispatch(handlers: map<string, seq<HandlerClass>>, body: Body, loads: Body -> Option<Json>): (r: Step)
    ensures Received(body, loads).None? ==> r == Step([], Dropped)
    ensures Received(body, loads).Some? && Received(body, loads).value.eventType.JString? ==>
      var ev := Received(body, loads).value;
      var hs := HandlersFor(handlers, ev.eventType.s);
      |r.launches| == |hs| &&
      (forall i :: 0 <= i < |hs| ==> r.launches[i] == Launch(hs[i], ev)) &&
      r.outcome == (if hs == [] then NoHandler else Dispatched(|hs|))
    ensures Received(body, loads).Some? && !Received(body, loads).value.eventType.JString? ==>
      r.launches == [] && r.outcome != Dispatched(0)
    ensures r.outcome.Dispatched? <==> r.launches != []
  {
    match Received(body, loads)
    case None => Step([], Dropped)
    case Some(ev) =>
      match ev.eventType
      case JString(t) =>
        var hs := HandlersFor(handlers, t);
        if hs == [] then Step([], NoHandler)
        else Step(seq(|hs|, i requires 0 <= i < |hs| => Launch(hs[i], ev)), Dispatched(|hs|))
      case JArray(_) => Step([], Dropped)
      case JObject(_) => Step([], Dropped)
      case _ => Step([], NoHandler)
  }

  /** The tasks that processing a whole buffer starts, body after body. */
  function LaunchesFor(handlers: map<string, seq<HandlerClass>>, queue: seq<Body>, loads: Body -> Option<Json>): seq<Launch> {
    if queue == [] then [] else Dispatch(handlers, queue[0], loads).launches + LaunchesFor(handlers, queue[1..], loads)
  }

  /** The outcomes of processing a whole buffer, one per body, in order. */
  function OutcomesFor(handlers: map<string, seq<HandlerClass>>, queue: seq<Body>, loads: Body -> Option<Json>): (r: seq<Outcome>)
    ensures |r| == |queue|
  {
    if queue == [] then [] else [Dispatch(handlers, queue[0], loads).outcome] + OutcomesFor(handlers, queue[1..], loads)
  }

  /**
   * A body that cannot become an event contributes nothing, so the loop goes
   * on with the rest of the buffer exactly as if the body had not been there.
   */
  lemma {:induction false} DroppedBodyIsSkipped(handlers: map<string, seq<HandlerClass>>, before: seq<Body>, bad: Body, after: seq<Body>, loads: Body -> Option<Json>)
    requires Received(bad, loads).None?
    ensures LaunchesFor(handlers, before + [bad] + after, loads) == LaunchesFor(handlers, before + after, loads)
  {
    if before == [] {
      assert before + [bad] + after == [bad] + after;
      assert ([bad] + after)[1..] == after;
      assert before + after == after;
    } else {
      assert (before + [bad] + after)[0] == before[0];
      assert (before + [bad] + after)[1..] == before[1..] + [bad] + after;
      assert (before + after)[0] == before[0];
      assert (before + after)[1..] == before[1..] + after;
      DroppedBodyIsSkipped(handlers, before[1..], bad, after, loads);
    }
  }

  /** One iteration of the drain loop keeps its invariant. */
  lemma DrainStep(handlers: map<string, seq<HandlerClass>>, q: seq<Body>, loads: Body -> Option<Json>,
                  l0: seq<Launch>, o0: seq<Outcome>, l1: seq<Launch>, o1: seq<Outcome>)
    requires q != []
    requires l1 == l0 + Dispatch(handlers, q[0], loads).launches
    requires o1 == o0 + [Dispatch(handlers, q[0], loads).outcome]
    ensures l1 + LaunchesFor(handlers, q[1..], loads) == l0 + LaunchesFor(handlers, q, loads)
    ensures o1 + OutcomesFor(handlers, q[1..], loads) == o0 + OutcomesFor(handlers, q, loads)
  {
    var step := Dispatch(handlers, q[0], loads);
    LaunchesForCons(handlers, q, loads);
    OutcomesForCons(handlers, q, loads);
    AppendShift(l0, step.launches, LaunchesFor(handlers, q[1..], loads), LaunchesFor(handlers, q, loads));
    AppendShift(o0, [step.outcome], OutcomesFor(handlers, q[1..], loads), OutcomesFor(handlers, q, loads));
  }

  lemma AppendShift<T>(done: seq<T>, next: seq<T>, rest: seq<T>, all: seq<T>)
    requires all == next + rest
    ensures (done + next) + rest == done + all
  {
  }

  lemma LaunchesForCons(handlers: map<string, seq<HandlerClass>>, q: seq<Body>, loads: Body -> Option<Json>)
    requires q != []
    ensures LaunchesFor(handlers, q, loads) == Dispatch(handlers, q[0], loads).launches + LaunchesFor(handlers, q[1..], loads)
  {
  }

  lemma OutcomesForCons(handlers: map<string, seq<HandlerClass>>, q: seq<Body>, loads: Body -> Option<Json>)
    requires q != []
    ensures OutcomesFor(handlers, q, loads) == [Dispatch(handlers, q[0], loads).outcome] + OutcomesFor(handlers, q[1..], loads)
  {
  }

  /** How one connection to the broker went: the bodies it delivered, then how it ended. */
  datatype Session = Session(delivered: seq<Body>, failed: bool)

  /** Every body the sessions deliver, in arrival order. */
  function Delivered(sessions: seq<Session>): seq<Body> {
    if sessions == [] then [] else sessions[0].delivered + Delivered(sessions[1..])
  }

  /** The number of sessions that ended with an exception. */
  function Failures(sessions: seq<Session>): nat {
    if sessions == [] then 0 else (if sessions[0].failed then 1 else 0) + Failures(sessions[1..])
  }

  /** The sessions from `k` on: the first one's bodies and failure, then the rest. */
  lemma SessionStep(sessions: seq<Session>, k: nat)
    requires k < |sessions|
    ensures Delivered(sessions[k..]) == sessions[k].delivered + Delivered(sessions[k + 1..])
    ensures Failures(sessions[k..]) == (if sessions[k].failed then 1 else 0) + Failures(sessions[k + 1..])
  {
    assert sessions[k..][1..] == sessions[k + 1..];
  }

  const ReconnectDelaySeconds: nat := 5

  class EventMonitor {
    var eventHandlers: map<string, seq<HandlerClass>>
    var eventQueue: seq<Body>
    var launched: seq<Launch>
    var log: seq<Outcome>

    constructor ()
      ensures eventHandlers == map[] && eventQueue == [] && launched == [] && log == []
    {
      eventHandlers := map[];
      eventQueue := [];
      launched := [];
      log := [];
    }

    /** `register_handler`: append `h` to the list of type `t`. */
    method RegisterHandler(t: string, h: HandlerClass)
      modifies this
      ensures eventHandlers == Register(old(eventHandlers), t, h)
      ensures eventQueue == old(eventQueue) && launched == old(launched) && log == old(log)
    {
      if t !in eventHandlers {
        eventHandlers := eventHandlers[t := []];
      }
      eventHandlers := eventHandlers[t := eventHandlers[t] + [h]];
    }

    /**
     * `_consume_messages` over a finite script of connections: each body a
     * connection delivers is put at the tail of the buffer, and each
     * connection that ends in an exception is followed by a 5 second sleep
     * before reconnecting.
     */
    method ConsumeMessages(sessions: seq<Session>) returns (sleeps: seq<nat>)
      modifies this
      ensures eventQueue == old(eventQueue) + Delivered(sessions)
      ensures |sleeps| == Failures(sessions)
      ensures forall i :: 0 <= i < |sleeps| ==> sleeps[i] == ReconnectDelaySeconds
      ensures eventHandlers == old(eventHandlers) && launched == old(launched) && log == old(log)
    {
      sleeps := [];
      var k := 0;
      while k < |sessions|
        invariant 0 <= k <= |sessions|
        invariant eventQueue + Delivered(sessions[k..]) == old(eventQueue) + Delivered(sessions)
        invariant |sleeps| + Failures(sessions[k..]) == Failures(sessions)
        invariant forall i :: 0 <= i < |sleeps| ==> sleeps[i] == ReconnectDelaySeconds
        invariant eventHandlers == old(eventHandlers) && launched == old(launched) && log == old(log)
      {
        SessionStep(sessions, k);
        ghost var q0 := eventQueue;
        EnqueueAll(sessions[k].delivered);
        assert eventQueue + Delivered(sessions[k + 1..]) == q0 + Delivered(sessions[k..]);
        if sessions[k].failed {
          sleeps := sleeps + [ReconnectDelaySeconds];
        }
        k := k + 1;
      }
      assert sessions[k..] == [];
    }

    /** The inner loop of a session: every delivered body is put into the buffer, in order. */
    method EnqueueAll(bodies: seq<Body>)
      modifies this
      ensures eventQueue == old(eventQueue) + bodies
      ensures eventHandlers == old(eventHandlers) && launched == old(launched) && log == old(log)
    {
      var j := 0;
      while j < |bodies|
        invariant 0 <= j <= |bodies|
        invariant eventQueue == old(eventQueue) + bodies[..j]
        invariant eventHandlers == old(eventHandlers) && launched == old(launched) && log == old(log)
      {
        assert bodies[..j + 1] == bodies[..j] + [bodies[j]];
        eventQueue := eventQueue + [bodies[j]];
        j := j + 1;
      }
      assert bodies[..j] == bodies;
    }

    /**
     * One iteration of `_process_events`: take the oldest buffered body and
     * dispatch it. `get()` waits while the buffer is empty; the model then
     * changes nothing.
     */
    method ProcessOne(loads: Body -> Option<Json>)
      modifies this
      ensures old(eventQueue) == [] ==> eventQueue == [] && launched == old(launched) && log == old(log)
      ensures old(eventQueue) != [] ==>
        var step := Dispatch(old(eventHandlers), old(eventQueue)[0], loads);
        eventQueue == old(eventQueue)[1..] && launched == old(launched) + step.launches && log == old(log) + [step.outcome]
      ensures eventHandlers == old(eventHandlers)
    {
      if eventQueue == [] {
        return;
      }
      var body := eventQueue[0];
      eventQueue := eventQueue[1..];
      var received := Received(body, loads);
      if received.None? {
        log := log + [Dropped];
        return;
      }
      var ev := received.value;
      match ev.eventType {
        case JString(t) =>
          var hs := HandlersFor(eventHandlers, t);
          if hs == [] {
            log := log + [NoHandler];
          } else {
            var i := 0;
            ghost var before := launched;
            while i < |hs|
              invariant 0 <= i <= |hs|
              invariant launched == before + seq(i, j requires 0 <= j < i => Launch(hs[j], ev))
              invariant eventHandlers == old(eventHandlers) && eventQueue == old(eventQueue)[1..] && log == old(log)
            {
              launched := launched + [Launch(hs[i], ev)];
              i := i + 1;
            }
            log := log + [Dispatched(|hs|)];
          }
        case JArray(_) =>
          log := log + [Dropped];
        case JObject(_) =>
          log := log + [Dropped];
        case _ =>
          log := log + [NoHandler];
      }
    }

    /** Run `_process_events` until the buffer is empty. */
    method ProcessEvents(loads: Body -> Option<Json>)
      modifies this
      ensures eventQueue == []
      ensures launched == old(launched) + LaunchesFor(old(eventHandlers), old(eventQueue), loads)
      ensures log == old(log) + OutcomesFor(old(eventHandlers), old(eventQueue), loads)
      ensures eventHandlers == old(eventHandlers)
    {
      while eventQueue != []
        invariant eventHandlers == old(eventHandlers)
        invariant launched + LaunchesFor(eventHandlers, eventQueue, loads) == old(launched) + LaunchesFor(eventHandlers, old(eventQueue), loads)
        invariant log + OutcomesFor(eventHandlers, eventQueue, loads) == old(log) + OutcomesFor(eventHandlers, old(eventQueue), loads)
        decreases |eventQueue|
      {
        ghost var q := eventQueue;
        ghost var l0 := launched;
        ghost var o0 := log;
        ProcessOne(loads);
        DrainStep(eventHandlers, q, loads, l0, o0, launched, log);
      }
    }
  }
}

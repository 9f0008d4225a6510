/**
 * The application service's `EventProcessor`: a bounded in-memory queue of
 * envelopes (capacity 100, full means drop), a handler registry, and a
 * dispatcher that starts one goroutine per registered handler and counts it
 * in a wait group. Goroutines are the `running` list; the wait group counter
 * is `pending`.
 */
module AppEventProcessor {
  import opened Envelope
  import opened Registry

  const QueueCapacity: nat := 100

  /** A registered `EventHandler`, known by name. */
  type Handler = string

  /** One started `h.Run(ctx, event)` goroutine. */
  datatype Run = Run(handler: Handler, event: EventRoot)

  /** How `EmitEvent` ended: queued, dropped because the queue was full, or a panic (send on a closed channel). */
  datatype EmitOutcome = Emitted | Dropped | Panicked

  /** The queue after offering one event to it. */
  function Offer(queue: seq<EventRoot>, e: EventRoot): (r: seq<EventRoot>)
    requires |queue| <= QueueCapacity
    ensures |r| <= QueueCapacity
    ensures |queue| < QueueCapacity ==> r == queue + [e]
    ensures |queue| == QueueCapacity ==> r == queue
  {
    if |queue| < QueueCapacity then queue + [e] else queue
  }

  /** The queue after offering several events in turn, with nothing consumed in between. */
  function OfferAll(queue: seq<EventRoot>, es: seq<EventRoot>): seq<EventRoot>
    requires |queue| <= QueueCapacity
    decreases |es|
  {
    if es == [] then queue else OfferAll(Offer(queue, es[0]), es[1..])
  }

  /**
   * A burst of emits keeps the oldest events that fit and drops the rest: the
   * queue gains exactly the first `QueueCapacity - |queue|` of them, in order.
   */
  lemma {:induction false} OfferAllKeepsPrefix(queue: seq<EventRoot>, es: seq<EventRoot>)
    requires |queue| <= QueueCapacity
    ensures |es| <= QueueCapacity - |queue| ==> OfferAll(queue, es) == queue + es
    ensures |es| > QueueCapacity - |queue| ==> OfferAll(queue, es) == queue + es[..QueueCapacity - |queue|]
    decreases |es|
  {
    if es != [] {
      var n := QueueCapacity - |queue|;
      var q1, rest := Offer(queue, es[0]), es[1..];
      assert OfferAll(queue, es) == OfferAll(q1, rest);
      OfferAllKeepsPrefix(q1, rest);
      if |queue| < QueueCapacity {
        assert q1 == queue + [es[0]];
        if |es| > n {
          assert OfferAll(q1, rest) == q1 + rest[..n - 1];
          assert es[..n] == [es[0]] + rest[..n - 1];
          assert (queue + [es[0]]) + rest[..n - 1] == queue + ([es[0]] + rest[..n - 1]);
        } else {
          assert OfferAll(q1, rest) == q1 + rest;
          assert es == [es[0]] + rest;
          assert (queue + [es[0]]) + rest == queue + ([es[0]] + rest);
        }
      } else {
        assert q1 == queue && n == 0;
        assert es[..n] == [] && rest[..n] == [];
      }
    }
  }

  /** The goroutines `processEvent` starts for an event: one per handler of its type, in order. */
  function Runs(handlers: map<string, seq<Handler>>, e: EventRoot): (r: seq<Run>)
    ensures |r| == |HandlersFor(handlers, e.eventType)|
    ensures forall i :: 0 <= i < |r| ==> r[i] == Run(HandlersFor(handlers, e.eventType)[i], e)
    ensures e.eventType !in handlers ==> r == []
  {
    var hs := HandlersFor(handlers, e.eventType);
    seq(|hs|, i requires 0 <= i < |hs| => Run(hs[i], e))
  }

  class EventProcessor {
    var eventQueue: seq<EventRoot>
    var closed: bool
    var eventHandlers: map<string, seq<Handler>>
    /** The wait group counter. */
    var pending: nat
    /** Handler goroutines started and not yet finished. */
    var running: seq<Run>
    /** Handler goroutines that finished, in the order they finished. */
    var finished: seq<Run>

    /** The channel holds at most its capacity and the wait group counts exactly the running goroutines. */
    predicate Valid()
      reads this
    {
      |eventQueue| <= QueueCapacity && pending == |running| && NoEmptyLists(eventHandlers)
    }

    /** `NewEventProcessor`. */
    constructor ()
      ensures Valid()
      ensures eventQueue == [] && !closed && eventHandlers == map[] && running == [] && finished == []
    {
      eventQueue := [];
      closed := false;
      eventHandlers := map[];
      pending := 0;
      running := [];
      finished := [];
    }

    method RegisterHandler(t: string, h: Handler)
      requires Valid()
      modifies this
      ensures Valid()
      ensures eventHandlers == Register(old(eventHandlers), t, h)
      ensures eventQueue == old(eventQueue) && closed == old(closed) && running == old(running) && finished == old(finished)
    {
      RegisterAppends(eventHandlers, t, h, t);
      eventHandlers := eventHandlers[t := HandlersFor(eventHandlers, t) + [h]];
    }

    /** `EmitEvent`: a non-blocking send. */
    method EmitEvent(e: EventRoot) returns (outcome: EmitOutcome)
      requires Valid()
      modifies this
      ensures Valid()
      ensures outcome == Panicked <==> old(closed)
      ensures outcome == Emitted <==> !old(closed) && |old(eventQueue)| < QueueCapacity
      ensures eventQueue == (if outcome == Emitted then old(eventQueue) + [e] else old(eventQueue))
      ensures !old(closed) ==> eventQueue == Offer(old(eventQueue), e)
      ensures closed == old(closed) && eventHandlers == old(eventHandlers) && running == old(running) && finished == old(finished)
    {
      if closed {
        return Panicked;
      }
      if |eventQueue| < QueueCapacity {
        eventQueue := eventQueue + [e];
        outcome := Emitted;
      } else {
        outcome := Dropped;
      }
    }

    /** `processEvent`: start one goroutine per registered handler, counting each in the wait group. */
    method ProcessEvent(e: EventRoot)
      requires Valid()
      modifies this
      ensures Valid()
      ensures running == old(running) + Runs(old(eventHandlers), e)
      ensures pending == old(pending) + |HandlersFor(old(eventHandlers), e.eventType)|
      ensures eventQueue == old(eventQueue) && closed == old(closed) && eventHandlers == old(eventHandlers) && finished == old(finished)
    {
      if e.eventType !in eventHandlers {
        return;
      }
      var hs := eventHandlers[e.eventType];
      var i := 0;
      while i < |hs|
        invariant 0 <= i <= |hs|
        invariant eventQueue == old(eventQueue) && closed == old(closed) && eventHandlers == old(eventHandlers) && finished == old(finished)
        invariant hs == HandlersFor(eventHandlers, e.eventType)
        invariant running == old(running) + Runs(eventHandlers, e)[..i]
        invariant pending == |running|
      {
        assert Runs(eventHandlers, e)[..i + 1] == Runs(eventHandlers, e)[..i] + [Run(hs[i], e)];
        pending := pending + 1;
        running := running + [Run(hs[i], e)];
        i := i + 1;
      }
      assert Runs(eventHandlers, e)[..i] == Runs(eventHandlers, e);
    }

    /**
     * One `StartProcessing` iteration that receives an event: take the oldest
     * queued event and process it. With nothing queued the receive waits and
     * nothing changes.
     */
    method ProcessNext()
      requires Valid()
      modifies this
      ensures Valid()
      ensures old(eventQueue) == [] ==> eventQueue == [] && running == old(running)
      ensures old(eventQueue) != [] ==>
        eventQueue == old(eventQueue)[1..] && running == old(running) + Runs(old(eventHandlers), old(eventQueue)[0])
      ensures closed == old(closed) && eventHandlers == old(eventHandlers) && finished == old(finished)
    {
      if eventQueue == [] {
        return;
      }
      var e := eventQueue[0];
      eventQueue := eventQueue[1..];
      ProcessEvent(e);
    }

    /** A handler goroutine returns: `wg.Done()`. */
    method Finish(k: nat)
      requires Valid()
      requires k < |running|
      modifies this
      ensures Valid()
      ensures running == old(running)[..k] + old(running)[k + 1..]
      ensures finished == old(finished) + [old(running)[k]]
      ensures pending == old(pending) - 1
      ensures eventQueue == old(eventQueue) && closed == old(closed) && eventHandlers == old(eventHandlers)
    {
      finished := finished + [running[k]];
      running := running[..k] + running[k + 1..];
      pending := pending - 1;
    }

    /**
     * `shutdown`: close the queue, then wait until the wait group counter is
     * zero. Events still queued are not processed.
     */
    method Shutdown()
      requires Valid()
      modifies this
      ensures Valid()
      ensures closed && pending == 0 && running == []
      ensures multiset(finished) == multiset(old(finished)) + multiset(old(running))
      ensures eventQueue == old(eventQueue) && eventHandlers == old(eventHandlers)
    {
      closed := true;
      while pending > 0
        invariant Valid()
        invariant closed
        invariant multiset(finished) + multiset(running) == multiset(old(finished)) + multiset(old(running))
        invariant eventQueue == old(eventQueue) && eventHandlers == old(eventHandlers)
        decreases pending
      {
        assert running == running[..0] + [running[0]] + running[1..];
        Finish(0);
      }
    }
  }
}

/**
 * The application service's `EventMonitor`: a consumer that (re)connects to
 * the broker with a capped exponential backoff and copies delivered bodies
 * into a buffer of capacity 100, and a processor that parses each buffered
 * body and starts one goroutine per registered handler. The processor runs
 * concurrently; here it runs when the consumer would otherwise block on a full
 * buffer, and when asked to drain. `json.Unmarshal` is the parameter
 * `unmarshal`; started goroutines are the `launched` list.
 */
module AppEventMonitor {
  import opened Wrappers
  import opened Envelope
  import opened Registry

  const QueueCapacity: nat := 100
  const MaxBackoffSeconds: nat := 60

  type Handler = string

  /** One `go handler.Run(event)`. */
  datatype Launch = Launch(handler: Handler, event: EventRoot)

  /**
   * One call to `ConsumeMessages`: it fails, or it returns a delivery channel
   * that yields the given bodies and then is closed by the broker client.
   */
  datatype ConsumeResult = ConsumeFailed | Consumed(bodies: seq<Body>)

  function Min(a: int, b: int): int { if a <= b then a else b }

  function Pow2(k: nat): (r: nat)
    ensures r >= 1
  {
    if k == 0 then 1 else 2 * Pow2(k - 1)
  }

  /** The backoff after a failure: twice the current one, at most 60 seconds. */
  function NextBackoff(b: nat): (r: nat)
    ensures b <= MaxBackoffSeconds ==> b <= r <= MaxBackoffSeconds
    ensures r == MaxBackoffSeconds || r == 2 * b
  {
    Min(2 * b, MaxBackoffSeconds)
  }

  /** The backoff factor after handling the given consume results, starting from 1. */
  function BackoffAfter(results: seq<ConsumeResult>): (r: nat)
    ensures 1 <= r <= MaxBackoffSeconds
  {
    if results == [] then 1
    else if results[|results| - 1].ConsumeFailed? then NextBackoff(BackoffAfter(results[..|results| - 1]))
    else 1
  }

  /** The sleeps, in seconds, taken while handling the given consume results. */
  function Sleeps(results: seq<ConsumeResult>): seq<nat> {
    if results == [] then []
    else
      var init := results[..|results| - 1];
      Sleeps(init) + (if results[|results| - 1].ConsumeFailed? then [BackoffAfter(init)] else [])
  }

  /** The number of failed consume calls since the last successful one. */
  function TrailingFailures(results: seq<ConsumeResult>): nat {
    if results == [] || results[|results| - 1].Consumed? then 0
    else 1 + TrailingFailures(results[..|results| - 1])
  }

  /**
   * The backoff is 1 after a successful consume, and doubles with each
   * failure since then, up to 60 seconds.
   */
  lemma {:induction false} BackoffIsCappedPower(results: seq<ConsumeResult>)
    ensures BackoffAfter(results) == Min(Pow2(TrailingFailures(results)), MaxBackoffSeconds)
  {
    if results != [] && results[|results| - 1].ConsumeFailed? {
      var init := results[..|results| - 1];
      BackoffIsCappedPower(init);
    }
  }

  /** Every sleep lasts between 1 and 60 seconds. */
  lemma {:induction false} SleepsBounded(results: seq<ConsumeResult>)
    ensures forall i :: 0 <= i < |Sleeps(results)| ==> 1 <= Sleeps(results)[i] <= MaxBackoffSeconds
  {
    if results != [] {
      SleepsBounded(results[..|results| - 1]);
    }
  }

  /** Every body the consume results deliver, in arrival order. */
  function AllBodies(results: seq<ConsumeResult>): seq<Body> {
    if results == [] then []
    else AllBodies(results[..|results| - 1]) + (if results[|results| - 1].Consumed? then results[|results| - 1].bodies else [])
  }

  /**
   * How many consume calls `StartMonitoring` makes as written: the `break` at
   * the closed delivery channel leaves only the `select`, so after the first
   * successful call the inner loop keeps receiving from the closed channel
   * and never calls `ConsumeMessages` again.
   */
  function AttemptsAsWritten(results: seq<ConsumeResult>): (r: nat)
    ensures r <= |results|
    ensures forall i :: 0 <= i < r - 1 ==> results[i].ConsumeFailed?
    ensures r < |results| ==> r > 0 && results[r - 1].Consumed?
  {
    if results == [] then 0
    else if results[0].Consumed? then 1
    else 1 + AttemptsAsWritten(results[1..])
  }

  /**
   * A delivery channel that is closed with nothing on it, followed by a
   * connection that would deliver `b`: as written the monitor never
   * reconnects, so `b` is never buffered; reconnecting would buffer it.
   */
  lemma ClosedChannelStopsConsuming(b: Body)
    ensures var results := [Consumed([]), Consumed([b])];
      AttemptsAsWritten(results) == 1 &&
      AllBodies(results[..AttemptsAsWritten(results)]) == [] &&
      AllBodies(results) == [b]
  {
    var results := [Consumed([]), Consumed([b])];
    assert results[..1] == [Consumed([])];
    assert results[..1][..0] == [];
  }

  /** The goroutines started for one buffered body. */
  function Dispatch(handlers: map<string, seq<Handler>>, body: Body, unmarshal: Body -> Option<EventRoot>): (r: seq<Launch>)
    ensures unmarshal(body).None? ==> r == []
    ensures unmarshal(body).Some? ==>
      var ev := unmarshal(body).value;
      |r| == |HandlersFor(handlers, ev.eventType)| &&
      forall i :: 0 <= i < |r| ==> r[i] == Launch(HandlersFor(handlers, ev.eventType)[i], ev)
  {
    match unmarshal(body)
    case None => []
    case Some(ev) =>
      var hs := HandlersFor(handlers, ev.eventType);
      seq(|hs|, i requires 0 <= i < |hs| => Launch(hs[i], ev))
  }

  /** The goroutines started for a sequence of bodies, body after body. */
  function LaunchesFor(handlers: map<string, seq<Handler>>, bodies: seq<Body>, unmarshal: Body -> Option<EventRoot>): seq<Launch> {
    if bodies == [] then [] else Dispatch(handlers, bodies[0], unmarshal) + LaunchesFor(handlers, bodies[1..], unmarshal)
  }

  lemma {:induction false} LaunchesForSnoc(handlers: map<string, seq<Handler>>, bodies: seq<Body>, b: Body, unmarshal: Body -> Option<EventRoot>)
    ensures LaunchesFor(handlers, bodies + [b], unmarshal) == LaunchesFor(handlers, bodies, unmarshal) + Dispatch(handlers, b, unmarshal)
  {
    if bodies == [] {
      assert bodies + [b] == [b];
    } else {
      assert (bodies + [b])[1..] == bodies[1..] + [b];
      LaunchesForSnoc(handlers, bodies[1..], b, unmarshal);
    }
  }

  lemma {:induction false} LaunchesForConcat(handlers: map<string, seq<Handler>>, b1: seq<Body>, b2: seq<Body>, unmarshal: Body -> Option<EventRoot>)
    ensures LaunchesFor(handlers, b1 + b2, unmarshal) == LaunchesFor(handlers, b1, unmarshal) + LaunchesFor(handlers, b2, unmarshal)
  {
    if b1 == [] {
      assert b1 + b2 == b2;
    } else {
      assert (b1 + b2)[1..] == b1[1..] + b2;
      LaunchesForConcat(handlers, b1[1..], b2, unmarshal);
    }
  }

  /** Bookkeeping for one delivery: the taken-plus-buffered history grows by the delivered bodies. */
  lemma BufferStep(t: seq<Body>, q: seq<Body>, prior: seq<Body>, t0: seq<Body>, q0: seq<Body>, t1: seq<Body>, q1: seq<Body>, bodies: seq<Body>)
    requires t <= t0 && t0 + q0 == t + q + prior
    requires t0 <= t1 && t1 + q1 == t0 + q0 + bodies
    ensures t <= t1 && t1 + q1 == t + q + (prior + bodies)
    ensures t1[|t|..] == t0[|t|..] + t1[|t0|..]
  {
  }

  /** Bookkeeping for taking the oldest buffered body. */
  lemma TakeStep(t: seq<Body>, t0: seq<Body>, q0: seq<Body>)
    requires t <= t0 && q0 != []
    ensures (t0 + [q0[0]]) + q0[1..] == t0 + q0
    ensures t <= t0 + [q0[0]] && (t0 + [q0[0]])[|t|..] == t0[|t|..] + [q0[0]]
  {
    assert q0 == [q0[0]] + q0[1..];
  }

  /** One iteration of the drain loop keeps its invariant. */
  lemma DrainStep(handlers: map<string, seq<Handler>>, start: seq<Body>, t0: seq<Body>, q0: seq<Body>,
                  lStart: seq<Launch>, l0: seq<Launch>, l1: seq<Launch>, unmarshal: Body -> Option<EventRoot>)
    requires start <= t0 && q0 != []
    requires l0 == lStart + LaunchesFor(handlers, t0[|start|..], unmarshal)
    requires l1 == l0 + Dispatch(handlers, q0[0], unmarshal)
    ensures start <= t0 + [q0[0]] && (t0 + [q0[0]]) + q0[1..] == t0 + q0
    ensures l1 == lStart + LaunchesFor(handlers, (t0 + [q0[0]])[|start|..], unmarshal)
  {
    TakeStep(start, t0, q0);
    var done := LaunchesFor(handlers, t0[|start|..], unmarshal);
    var next := Dispatch(handlers, q0[0], unmarshal);
    LaunchesForSnoc(handlers, t0[|start|..], q0[0], unmarshal);
    assert (lStart + done) + next == lStart + (done + next);
  }

  /** The script functions, one consume result further. */
  lemma ScriptStep(results: seq<ConsumeResult>, k: nat)
    requires k < |results|
    ensures BackoffAfter(results[..k + 1]) == if results[k].ConsumeFailed? then NextBackoff(BackoffAfter(results[..k])) else 1
    ensures Sleeps(results[..k + 1]) == Sleeps(results[..k]) + if results[k].ConsumeFailed? then [BackoffAfter(results[..k])] else []
    ensures AllBodies(results[..k + 1]) == AllBodies(results[..k]) + if results[k].Consumed? then results[k].bodies else []
  {
    assert results[..k + 1][..k] == results[..k];
  }

  /** Bookkeeping for the started goroutines across one step that takes more bodies. */
  lemma LaunchStep(handlers: map<string, seq<Handler>>, unmarshal: Body -> Option<EventRoot>,
                   t: seq<Body>, t0: seq<Body>, t1: seq<Body>, l: seq<Launch>, l0: seq<Launch>, l1: seq<Launch>)
    requires t <= t0 <= t1
    requires l0 == l + LaunchesFor(handlers, t0[|t|..], unmarshal)
    requires l1 == l0 + LaunchesFor(handlers, t1[|t0|..], unmarshal)
    ensures l1 == l + LaunchesFor(handlers, t1[|t|..], unmarshal)
  {
    assert t1[|t|..] == t0[|t|..] + t1[|t0|..];
    LaunchesForConcat(handlers, t0[|t|..], t1[|t0|..], unmarshal);
  }

  class EventMonitor {
    var eventHandlers: map<string, seq<Handler>>
    var eventQueue: seq<Body>
    /** The bodies the processor has taken off the buffer, in order. */
    ghost var taken: seq<Body>
    var launched: seq<Launch>

    /** The buffer never holds more than its capacity. */
    predicate Valid()
      reads this
    {
      |eventQueue| <= QueueCapacity
    }

    /** `NewEventMonitor`. */
    constructor ()
      ensures Valid()
      ensures eventHandlers == map[] && eventQueue == [] && taken == [] && launched == []
    {
      eventHandlers := map[];
      eventQueue := [];
      taken := [];
      launched := [];
    }

    method RegisterHandler(t: string, h: Handler)
      requires Valid()
      modifies this
      ensures Valid()
      ensures eventHandlers == Register(old(eventHandlers), t, h)
      ensures eventQueue == old(eventQueue) && taken == old(taken) && launched == old(launched)
    {
      eventHandlers := eventHandlers[t := HandlersFor(eventHandlers, t) + [h]];
    }

    /**
     * One iteration of `processEvents`: take the oldest buffered body, and
     * start the handlers of its type if it parses. With nothing buffered the
     * receive waits and nothing changes.
     */
    method ProcessOne(unmarshal: Body -> Option<EventRoot>)
      requires Valid()
      modifies this
      ensures Valid()
      ensures old(eventQueue) == [] ==> eventQueue == [] && taken == old(taken) && launched == old(launched)
      ensures old(eventQueue) != [] ==>
        eventQueue == old(eventQueue)[1..] && taken == old(taken) + [old(eventQueue)[0]] &&
        launched == old(launched) + Dispatch(old(eventHandlers), old(eventQueue)[0], unmarshal)
      ensures eventHandlers == old(eventHandlers)
    {
      if eventQueue == [] {
        return;
      }
      var body := eventQueue[0];
      eventQueue := eventQueue[1..];
      taken := taken + [body];
      var parsed := unmarshal(body);
      if parsed.None? {
        return;
      }
      var ev := parsed.value;
      if ev.eventType !in eventHandlers {
        return;
      }
      var hs := eventHandlers[ev.eventType];
      var i := 0;
      while i < |hs|
        invariant 0 <= i <= |hs|
        invariant eventHandlers == old(eventHandlers) && eventQueue == old(eventQueue)[1..] && taken == old(taken) + [body]
        invariant hs == HandlersFor(eventHandlers, ev.eventType)
        invariant launched == old(launched) + Dispatch(eventHandlers, body, unmarshal)[..i]
      {
        assert Dispatch(eventHandlers, body, unmarshal)[..i + 1] == Dispatch(eventHandlers, body, unmarshal)[..i] + [Launch(hs[i], ev)];
        launched := launched + [Launch(hs[i], ev)];
        i := i + 1;
      }
      assert Dispatch(eventHandlers, body, unmarshal)[..i] == Dispatch(eventHandlers, body, unmarshal);
    }

    /** `processEvents` until the buffer is empty. */
    method ProcessEvents(unmarshal: Body -> Option<EventRoot>)
      requires Valid()
      modifies this
      ensures Valid()
      ensures eventQueue == [] && taken == old(taken) + old(eventQueue)
      ensures launched == old(launched) + LaunchesFor(old(eventHandlers), old(eventQueue), unmarshal)
      ensures eventHandlers == old(eventHandlers)
    {
      while eventQueue != []
        invariant Valid()
        invariant eventHandlers == old(eventHandlers)
        invariant old(taken) <= taken && taken + eventQueue == old(taken) + old(eventQueue)
        invariant launched == old(launched) + LaunchesFor(eventHandlers, taken[|old(taken)|..], unmarshal)
        decreases |eventQueue|
      {
        ghost var t0, q0, l0 := taken, eventQueue, launched;
        ProcessOne(unmarshal);
        DrainStep(eventHandlers, old(taken), t0, q0, old(launched), l0, launched, unmarshal);
      }
      assert taken + eventQueue == taken;
      assert taken[|old(taken)|..] == old(eventQueue);
    }

    /**
     * `m.eventQueue <- body`: on a full buffer the send waits until the
     * processor has taken the oldest body, then appends.
     */
    method Push(body: Body, unmarshal: Body -> Option<EventRoot>)
      requires Valid()
      modifies this
      ensures Valid()
      ensures old(taken) <= taken && taken + eventQueue == old(taken) + old(eventQueue) + [body]
      ensures eventQueue != [] && eventQueue[|eventQueue| - 1] == body
      ensures launched == old(launched) + LaunchesFor(eventHandlers, taken[|old(taken)|..], unmarshal)
      ensures eventHandlers == old(eventHandlers)
    {
      if |eventQueue| == QueueCapacity {
        ProcessOne(unmarshal);
        assert taken[|old(taken)|..] == [old(eventQueue)[0]];
        assert LaunchesFor(eventHandlers, [old(eventQueue)[0]], unmarshal) == Dispatch(eventHandlers, old(eventQueue)[0], unmarshal) + [];
        assert old(eventQueue) == [old(eventQueue)[0]] + eventQueue;
      } else {
        assert taken[|old(taken)|..] == [];
      }
      eventQueue := eventQueue + [body];
    }

    /** Copy every body of one delivery channel into the buffer, in order. */
    method Deliver(bodies: seq<Body>, unmarshal: Body -> Option<EventRoot>)
      requires Valid()
      modifies this
      ensures Valid()
      ensures old(taken) <= taken && taken + eventQueue == old(taken) + old(eventQueue) + bodies
      ensures launched == old(launched) + LaunchesFor(eventHandlers, taken[|old(taken)|..], unmarshal)
      ensures eventHandlers == old(eventHandlers)
    {
      var j := 0;
      while j < |bodies|
        invariant 0 <= j <= |bodies|
        invariant Valid()
        invariant eventHandlers == old(eventHandlers)
        invariant old(taken) <= taken && taken + eventQueue == old(taken) + old(eventQueue) + bodies[..j]
        invariant launched == old(launched) + LaunchesFor(eventHandlers, taken[|old(taken)|..], unmarshal)
      {
        ghost var t0 := taken;
        ghost var l0 := launched;
        Push(bodies[j], unmarshal);
        assert bodies[..j + 1] == bodies[..j] + [bodies[j]];
        LaunchStep(eventHandlers, unmarshal, old(taken), t0, taken, old(launched), l0, launched);
        j := j + 1;
      }
      assert bodies[..j] == bodies;
    }

    /**
     * One round of the `StartMonitoring` loop, with the delivery channel read
     * until it is closed: a failed consume call sleeps for the backoff factor
     * and doubles it up to 60 seconds; a successful one resets it to 1 and
     * buffers the delivered bodies.
     */
    method Attempt(result: ConsumeResult, backoff: nat, unmarshal: Body -> Option<EventRoot>) returns (next: nat, slept: seq<nat>)
      requires Valid()
      modifies this
      ensures Valid()
      ensures next == if result.ConsumeFailed? then NextBackoff(backoff) else 1
      ensures slept == if result.ConsumeFailed? then [backoff] else []
      ensures result.ConsumeFailed? ==> taken == old(taken) && eventQueue == old(eventQueue) && launched == old(launched)
      ensures old(taken) <= taken && taken + eventQueue == old(taken) + old(eventQueue) + if result.Consumed? then result.bodies else []
      ensures launched == old(launched) + LaunchesFor(eventHandlers, taken[|old(taken)|..], unmarshal)
      ensures eventHandlers == old(eventHandlers)
    {
      match result {
        case ConsumeFailed =>
          slept := [backoff];
          next := NextBackoff(backoff);
          assert taken[|old(taken)|..] == [];
        case Consumed(bodies) =>
          slept := [];
          next := 1;
          Deliver(bodies, unmarshal);
      }
    }

    /**
     * `StartMonitoring` as written, over a finite script of consume results
     * (the script ending stands for the context being cancelled). A failed
     * call sleeps for the backoff factor and updates it; a successful one
     * resets it to 1 and buffers the delivered bodies, after which the loop
     * never reaches `ConsumeMessages` again.
     */
    method StartMonitoring(results: seq<ConsumeResult>, unmarshal: Body -> Option<EventRoot>) returns (sleeps: seq<nat>, attempts: nat)
      requires Valid()
      modifies this
      ensures Valid()
      ensures attempts == AttemptsAsWritten(results)
      ensures sleeps == Sleeps(results[..attempts])
      ensures old(taken) <= taken && taken + eventQueue == old(taken) + old(eventQueue) + AllBodies(results[..attempts])
      ensures launched == old(launched) + LaunchesFor(eventHandlers, taken[|old(taken)|..], unmarshal)
      ensures eventHandlers == old(eventHandlers)
    {
      var backoff := 1;
      sleeps := [];
      attempts := 0;
      while attempts < |results|
        invariant 0 <= attempts <= |results|
        invariant AttemptsAsWritten(results) == attempts + AttemptsAsWritten(results[attempts..])
        invariant Valid() && eventHandlers == old(eventHandlers)
        invariant backoff == BackoffAfter(results[..attempts])
        invariant sleeps == Sleeps(results[..attempts])
        invariant taken == old(taken) && eventQueue == old(eventQueue) && launched == old(launched)
        invariant AllBodies(results[..attempts]) == []
      {
        ScriptStep(results, attempts);
        assert results[attempts..][1..] == results[attempts + 1..];
        var result := results[attempts];
        var slept;
        backoff, slept := Attempt(result, backoff, unmarshal);
        sleeps := sleeps + slept;
        attempts := attempts + 1;
        if result.Consumed? {
          // the closed delivery channel is read forever: no further round
          return;
        }
      }
      assert results[attempts..] == [];
    }

    /**
     * `StartMonitoring` as intended: when a delivery channel is closed the
     * monitor goes back to `ConsumeMessages`, so every consume result is
     * handled and every delivered body is buffered.
     */
    method StartMonitoringReconnecting(results: seq<ConsumeResult>, unmarshal: Body -> Option<EventRoot>) returns (sleeps: seq<nat>)
      requires Valid()
      modifies this
      ensures Valid()
      ensures sleeps == Sleeps(results)
      ensures old(taken) <= taken && taken + eventQueue == old(taken) + old(eventQueue) + AllBodies(results)
      ensures launched == old(launched) + LaunchesFor(eventHandlers, taken[|old(taken)|..], unmarshal)
      ensures eventHandlers == old(eventHandlers)
    {
      var backoff := 1;
      sleeps := [];
      var k := 0;
      while k < |results|
        invariant 0 <= k <= |results|
        invariant Valid() && eventHandlers == old(eventHandlers)
        invariant backoff == BackoffAfter(results[..k])
        invariant sleeps == Sleeps(results[..k])
        invariant old(taken) <= taken && taken + eventQueue == old(taken) + old(eventQueue) + AllBodies(results[..k])
        invariant launched == old(launched) + LaunchesFor(eventHandlers, taken[|old(taken)|..], unmarshal)
      {
        ScriptStep(results, k);
        ghost var t0, q0, l0 := taken, eventQueue, launched;
        var slept;
        backoff, slept := Attempt(results[k], backoff, unmarshal);
        sleeps := sleeps + slept;
        BufferStep(old(taken), old(eventQueue), AllBodies(results[..k]), t0, q0, taken, eventQueue,
                   if results[k].Consumed? then results[k].bodies else []);
        LaunchStep(eventHandlers, unmarshal, old(taken), t0, taken, old(launched), l0, launched);
        k := k + 1;
      }
      assert results[..k] == results;
    }
  }
}

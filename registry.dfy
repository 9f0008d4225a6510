/**
 * The handler registry shared by the three event loops: a map from event type
 * to the ordered list of handlers registered for it. Registration appends;
 * nothing is ever removed.
 */
module Registry {
  /** The handlers registered for `t`, or none (Python's `.get(t, [])`, Go's nil slice). */
  function HandlersFor<H>(handlers: map<string, seq<H>>, t: string): seq<H> {
    if t in handlers then handlers[t] else []
  }

  /** The registry after registering `h` for `t`. */
  function Register<H>(handlers: map<string, seq<H>>, t: string, h: H): map<string, seq<H>> {
    handlers[t := HandlersFor(handlers, t) + [h]]
  }

  /**
   * A registry built only by `Register`: every listed type has at least one
   * handler, so "the type is a key" and "the type has handlers" agree.
   */
  predicate NoEmptyLists<H>(handlers: map<string, seq<H>>) {
    forall t :: t in handlers ==> handlers[t] != []
  }

  /** Registering appends at the end of the type's list and leaves every other type alone. */
  lemma RegisterAppends<H>(handlers: map<string, seq<H>>, t: string, h: H, u: string)
    ensures HandlersFor(Register(handlers, t, h), t) == HandlersFor(handlers, t) + [h]
    ensures u != t ==> HandlersFor(Register(handlers, t, h), u) == HandlersFor(handlers, u)
    ensures Register(handlers, t, h).Keys == handlers.Keys + {t}
    ensures NoEmptyLists(handlers) ==> NoEmptyLists(Register(handlers, t, h))
  {
  }

  /** Registrations in order: the handlers of a type are those registered for it, in registration order. */
  function RegisterAll<H>(handlers: map<string, seq<H>>, regs: seq<(string, H)>): map<string, seq<H>>
    decreases |regs|
  {
    if regs == [] then handlers else RegisterAll(Register(handlers, regs[0].0, regs[0].1), regs[1..])
  }

  /** The handlers of `t` among a list of registrations, in order. */
  function RegisteredFor<H>(regs: seq<(string, H)>, t: string): (r: seq<H>)
    ensures |r| <= |regs|
  {
    if regs == [] then []
    else (if regs[0].0 == t then [regs[0].1] else []) + RegisteredFor(regs[1..], t)
  }

  lemma {:induction false} RegisterAllOrder<H>(handlers: map<string, seq<H>>, regs: seq<(string, H)>, t: string)
    ensures HandlersFor(RegisterAll(handlers, regs), t) == HandlersFor(handlers, t) + RegisteredFor(regs, t)
    decreases |regs|
  {
    if regs != [] {
      var next := Register(handlers, regs[0].0, regs[0].1);
      var mine := if regs[0].0 == t then [regs[0].1] else [];
      var before, later := HandlersFor(handlers, t), RegisteredFor(regs[1..], t);
      RegisterAppends(handlers, regs[0].0, regs[0].1, t);
      assert HandlersFor(next, t) == before + mine;
      assert RegisterAll(handlers, regs) == RegisterAll(next, regs[1..]);
      RegisterAllOrder(next, regs[1..], t);
      assert RegisteredFor(regs, t) == mine + later;
      assert (before + mine) + later == before + (mine + later);
    }
  }
}

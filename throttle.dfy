/**
 * The `throttle(func, wait)` helper. Despite its name it is a trailing debounce:
 * every call cancels the pending timeout and schedules `func` again, `wait` ms
 * later, with the newest arguments.
 */
module Throttle {
  import opened Wrappers

  /** What can happen to a throttled function: a call, or `wait` ms passing without one. */
  datatype Event<A> = Call(args: A) | Quiet

  /** Reference behaviour: the arguments `func` is invoked with, given the pending arguments and a run of events. */
  function Run<A>(pending: Option<A>, events: seq<Event<A>>): seq<A>
    decreases |events|
  {
    if events == [] then []
    else
      match events[0]
      case Call(a) => Run(Some(a), events[1..])
      case Quiet => (if pending.Some? then [pending.value] else []) + Run(None, events[1..])
  }

  /** The number of quiet periods in a run of events. */
  function Quiets<A>(events: seq<Event<A>>): (n: nat)
    ensures n <= |events|
  {
    if events == [] then 0 else (if events[0].Quiet? then 1 else 0) + Quiets(events[1..])
  }

  /** A run of calls. */
  function Calls<A>(args: seq<A>): (r: seq<Event<A>>)
    ensures |r| == |args|
    ensures forall i :: 0 <= i < |r| ==> r[i] == Call(args[i])
  {
    if args == [] then [] else [Call(args[0])] + Calls(args[1..])
  }

  /** A burst of calls followed by a quiet period invokes `func` once, with the last call's arguments. */
  lemma {:induction false} BurstInvokesOnceWithLast<A>(pending: Option<A>, args: seq<A>)
    requires args != []
    ensures Run(pending, Calls(args) + [Quiet]) == [args[|args| - 1]]
    decreases |args|
  {
    var evs := Calls(args) + [Quiet];
    assert evs[0] == Call(args[0]);
    assert evs[1..] == Calls(args[1..]) + [Quiet];
    if |args| == 1 {
      var rest: seq<Event<A>> := [];
      assert evs[1..] == [Quiet] && evs[1..][1..] == rest;
      assert Run(None, rest) == [];
      assert Run(Some(args[0]), evs[1..]) == [args[0]] + Run(None, rest);
    } else {
      BurstInvokesOnceWithLast(Some(args[0]), args[1..]);
    }
  }

  /** `func` runs at most once per quiet period. */
  lemma {:induction false} AtMostOneInvocationPerQuiet<A>(pending: Option<A>, events: seq<Event<A>>)
    ensures |Run(pending, events)| <= Quiets(events)
    decreases |events|
  {
    if events != [] {
      match events[0]
      case Call(a) => AtMostOneInvocationPerQuiet(Some(a), events[1..]);
      case Quiet => AtMostOneInvocationPerQuiet(None, events[1..]);
    }
  }

  /** Every invocation uses the pending arguments or those of some call in the run. */
  lemma {:induction false} InvocationsComeFromCalls<A>(pending: Option<A>, events: seq<Event<A>>, a: A)
    requires a in Run(pending, events)
    ensures (pending.Some? && a == pending.value) || Call(a) in events
    decreases |events|
  {
    match events[0]
    case Call(b) =>
      InvocationsComeFromCalls(Some(b), events[1..], a);
      if Call(a) in events[1..] {
        var i :| 0 <= i < |events[1..]| && events[1..][i] == Call(a);
        assert events[i + 1] == Call(a);
      }
    case Quiet =>
      if !(pending.Some? && a == pending.value) {
        assert a in Run(None, events[1..]);
        InvocationsComeFromCalls(None, events[1..], a);
        var i :| 0 <= i < |events[1..]| && events[1..][i] == Call(a);
        assert events[i + 1] == Call(a);
      }
  }

  /** The closure returned by `throttle(func, wait)`, with the invocations of `func` it has made. */
  class Throttle<A> {
    const wait: nat
    /** The closure's `timeout`; 0 stands for undefined. */
    var timeout: nat
    /** Timeouts this closure scheduled that have neither fired nor been cleared: handle to captured arguments. */
    var scheduled: map<nat, A>
    /** The handle the next `setTimeout` returns; handles are positive and never reused. */
    var nextHandle: nat
    /** The arguments `func` has been invoked with, in order. */
    var invocations: seq<A>

    ghost predicate Valid()
      reads this
    {
      && 0 < nextHandle && timeout < nextHandle
      && forall h :: h in scheduled ==> h == timeout
    }

    /** The arguments of the pending invocation, if one is scheduled. */
    function Pending(): (r: Option<A>)
      reads this
      ensures r.Some? <==> timeout in scheduled
    {
      if timeout in scheduled then Some(scheduled[timeout]) else None
    }

    constructor (wait: nat)
      ensures Valid() && this.wait == wait && Pending() == None && scheduled == map[] && invocations == []
    {
      this.wait := wait;
      timeout := 0;
      scheduled := map[];
      nextHandle := 1;
      invocations := [];
    }

    /** `executedFunction(...args)`: clear the pending timeout and schedule `later` with these arguments. */
    method Call(args: A)
      requires Valid()
      modifies this
      ensures Valid() && Pending() == Some(args) && scheduled == map[timeout := args]
      ensures timeout == old(nextHandle) && invocations == old(invocations)
    {
      scheduled := scheduled - {timeout};
      timeout := nextHandle;
      scheduled := scheduled[timeout := args];
      nextHandle := nextHandle + 1;
    }

    /** The scheduled timeout fires after `wait` ms: `later` clears its own, spent handle and invokes `func`. */
    method Fire()
      requires Valid() && timeout in scheduled
      modifies this
      ensures Valid() && Pending() == None && scheduled == map[]
      ensures invocations == old(invocations) + [old(scheduled[timeout])]
    {
      var args := scheduled[timeout];
      scheduled := scheduled - {timeout};
      invocations := invocations + [args];
    }

    /**
     * Drives the closure through a run of events: a call is `Call`, a quiet period
     * fires the pending timeout when there is one. The closure invokes `func` with
     * exactly the arguments the reference behaviour `Run` lists.
     */
    method Drive(events: seq<Event<A>>)
      requires Valid()
      modifies this
      ensures Valid() && invocations == old(invocations) + Run(old(Pending()), events)
    {
      var i := 0;
      while i < |events|
        invariant 0 <= i <= |events| && Valid()
        invariant invocations + Run(Pending(), events[i..]) == old(invocations) + Run(old(Pending()), events)
      {
        assert events[i..][1..] == events[i + 1..];
        match events[i] {
          case Call(a) =>
            Call(a);
          case Quiet =>
            if timeout in scheduled {
              Fire();
            }
        }
        i := i + 1;
      }
      assert events[i..] == [];
    }
  }
}

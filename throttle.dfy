/**
 * `throttle(callback, ms, ...args)`: one module-level flag, `enableCall`,
 * shared by every caller.  A call while the flag is set clears it, runs the
 * callback at once and schedules a timer of `ms` milliseconds; the timer's
 * expiry sets the flag again.  Time itself is not modelled: the expiry is
 * the explicit event `TimerExpiry`.
 */
module ThrottleGate {
  import opened Wrappers

  /** One run of a callback: which callback, with which arguments. */
  datatype Invocation<A> = Invocation(callback: nat, args: seq<A>)

  /**
   * The gate: the flag, the delay of the pending timer if one is scheduled,
   * and every callback run so far.
   */
  datatype GateState<A> = GateState(enableCall: bool, timer: Option<int>, invoked: seq<Invocation<A>>)

  /** A timer is pending exactly when the gate is shut; so at most one is ever pending. */
  ghost predicate Inv<A>(s: GateState<A>)
  {
    s.timer.Some? <==> !s.enableCall
  }

  function Initial<A>(): (s: GateState<A>)
    ensures Inv(s) && s.enableCall && s.invoked == []
  {
    GateState(true, None, [])
  }

  datatype Event<A> =
    | ThrottleCall(callback: nat, ms: int, args: seq<A>)
    | TimerExpiry

  /**
   * One event.  An open gate runs the callback once and shuts; a shut gate
   * drops the call whatever its callback, leaving no trace and queueing
   * nothing; only the expiry of the pending timer reopens the gate.
   */
  function Step<A>(s: GateState<A>, e: Event<A>): (t: GateState<A>)
    ensures Inv(s) ==> Inv(t)
    ensures e.ThrottleCall? && s.enableCall ==>
      && !t.enableCall && t.timer == Some(e.ms)
      && t.invoked == s.invoked + [Invocation(e.callback, e.args)]
    ensures e.ThrottleCall? && !s.enableCall ==> t == s
    ensures !s.enableCall && t.enableCall ==> e.TimerExpiry?
    ensures e.TimerExpiry? && Inv(s) ==> t.enableCall && t.timer.None? && t.invoked == s.invoked
  {
    match e
    case ThrottleCall(callback, ms, args) =>
      if !s.enableCall then s
      else GateState(false, Some(ms), s.invoked + [Invocation(callback, args)])
    case TimerExpiry =>
      if s.timer.None? then s else GateState(true, None, s.invoked)
  }

  /** The gate after a whole trace of events, oldest first. */
  function Run<A>(s: GateState<A>, events: seq<Event<A>>): (t: GateState<A>)
    ensures Inv(s) ==> Inv(t)
    ensures |s.invoked| <= |t.invoked| && t.invoked[..|s.invoked|] == s.invoked
    decreases |events|
  {
    if events == [] then s else Run(Step(s, events[0]), events[1..])
  }

  /** How many timer expiries a trace holds. */
  function Expiries<A>(events: seq<Event<A>>): (n: nat)
    ensures n <= |events|
    ensures n == 0 <==> forall i :: 0 <= i < |events| ==> events[i].ThrottleCall?
  {
    if events == [] then 0
    else (if events[0].TimerExpiry? then 1 else 0) + Expiries(events[1..])
  }

  /**
   * Over any trace the callbacks run at most once per expiry, plus once
   * more when the gate starts open.
   */
  lemma {:induction false} RunBound<A>(s: GateState<A>, events: seq<Event<A>>)
    requires Inv(s)
    ensures |Run(s, events).invoked| <= |s.invoked| + Expiries(events) + (if s.enableCall then 1 else 0)
    decreases |events|
  {
    if events != [] {
      var t := Step(s, events[0]);
      RunBound(t, events[1..]);
    }
  }

  /**
   * Between two reopenings at most one callback runs: a trace with no
   * expiry runs at most one callback, and none when the gate starts shut.
   */
  lemma AtMostOnceBetweenExpiries<A>(s: GateState<A>, events: seq<Event<A>>)
    requires Inv(s) && Expiries(events) == 0
    ensures |Run(s, events).invoked| <= |s.invoked| + 1
    ensures !s.enableCall ==> Run(s, events).invoked == s.invoked
  {
    RunBound(s, events);
    var t := Run(s, events);
    assert t.invoked[..|s.invoked|] == s.invoked;
    if !s.enableCall {
      assert |t.invoked| == |s.invoked|;
      assert t.invoked == t.invoked[..|s.invoked|];
    }
  }

  /** The flag is shared: once any callback has run, a different callback is dropped too. */
  lemma SharedFlag<A>(s: GateState<A>, first: nat, second: nat, ms: int, args1: seq<A>, args2: seq<A>)
    requires s.enableCall
    ensures var t := Step(s, ThrottleCall(first, ms, args1));
      Step(t, ThrottleCall(second, ms, args2)) == t
  {
  }

  /** The gate itself, with its flag updated in place. */
  class Gate<A> {
    var enableCall: bool
    var timer: Option<int>
    var invoked: seq<Invocation<A>>

    function State(): GateState<A>
      reads this
    {
      GateState(enableCall, timer, invoked)
    }

    ghost predicate Valid()
      reads this
    {
      Inv(State())
    }

    constructor ()
      ensures Valid() && State() == Initial()
    {
      enableCall, timer, invoked := true, None, [];
    }

    /** `throttle(callback, ms, ...args)`; `ran` tells the caller whether `callback` ran. */
    method Throttle(callback: nat, ms: int, args: seq<A>) returns (ran: bool)
      requires Valid()
      modifies this
      ensures Valid()
      ensures ran == old(enableCall)
      ensures State() == Step(old(State()), ThrottleCall(callback, ms, args))
    {
      if !enableCall {
        return false;
      }
      enableCall := false;
      invoked := invoked + [Invocation(callback, args)];
      timer := Some(ms);
      ran := true;
    }

    /** The scheduled `setTimeout` callback: `enableCall = true`. */
    method TimerFires()
      requires Valid()
      modifies this
      ensures Valid()
      ensures State() == Step(old(State()), TimerExpiry)
    {
      if timer.Some? {
        enableCall := true;
        timer := None;
      }
    }
  }

}

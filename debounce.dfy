/**
 * `debounce(func, wait)`: the returned function clears the pending timeout and
 * schedules `func(...args)` `wait` milliseconds later, so a burst of calls
 * collapses into one invocation carrying the last call's arguments.
 *
 * Time is a logical integer clock. The closure variable `timeout` is the
 * `pending` slot of a `Debouncer`; the browser's event loop running a due
 * timer is `Tick`; `func` is represented by the ghost log of the arguments
 * it was invoked with.
 */
module Debounce {
  import opened Wrappers

  /** A scheduled invocation: the arguments it carries and the time it becomes due. */
  datatype Scheduled<A> = Scheduled(args: A, fireAt: int)

  /**
   * WebIDL's conversion to `long`: the integer taken modulo 2^32 and read as a
   * two's-complement signed 32-bit value.
   */
  function ToInt32(x: int): (r: int)
    ensures -0x8000_0000 <= r < 0x8000_0000
    ensures (r - x) % 0x1_0000_0000 == 0
    ensures -0x8000_0000 <= x < 0x8000_0000 ==> r == x
  {
    var m := x % 0x1_0000_0000;
    if m >= 0x8000_0000 then m - 0x1_0000_0000 else m
  }

  /**
   * The delay `setTimeout` applies to an integral `wait`: converted to a
   * signed 32-bit `long`, and a negative result treated as zero.
   */
  function Delay(wait: int): (d: nat)
    ensures d < 0x8000_0000
    ensures 0 <= wait < 0x8000_0000 ==> d == wait
    ensures -0x8000_0000 <= wait < 0 ==> d == 0
    ensures d == 0 || (d - wait) % 0x1_0000_0000 == 0
  {
    var t := ToInt32(wait);
    if t < 0 then 0 else t
  }

  /** Delays past the 32-bit range wrap around before the clamp. */
  lemma DelayWraps()
    ensures Delay(250) == 250
    ensures Delay(-5) == 0
    ensures Delay(0x8000_0000) == 0
    ensures Delay(0x1_0000_0000 + 250) == 250
  {
    assert ToInt32(0x8000_0000) == -0x8000_0000;
    assert ToInt32(0x1_0000_0000 + 250) == 250;
  }

  /** The pending slot after a call at time `now`: the old entry is cancelled, this call's arguments are scheduled. */
  function AfterCall<A>(wait: int, args: A, now: int): (p: Option<Scheduled<A>>)
    ensures p.Some? && p.value.args == args
    ensures p.value.fireAt == now + Delay(wait)
    ensures 0 <= wait < 0x8000_0000 ==> p.value.fireAt == now + wait
  {
    Some(Scheduled(args, now + Delay(wait)))
  }

  /** A timer is due at `now` when one is pending and its time has come. */
  predicate Due<A>(p: Option<Scheduled<A>>, now: int) {
    p.Some? && p.value.fireAt <= now
  }

  /**
   * The event loop at time `now`: a due invocation runs (and the slot empties),
   * otherwise nothing happens. The second component lists what `func` was called with.
   */
  function TickStep<A>(p: Option<Scheduled<A>>, now: int): (r: (Option<Scheduled<A>>, seq<A>))
    ensures |r.1| <= 1
    ensures Due(p, now) ==> r.0 == None && r.1 == [p.value.args]
    ensures !Due(p, now) ==> r == (p, [])
  {
    if Due(p, now) then (None, [p.value.args]) else (p, [])
  }

  /** The debounced function together with the state its closure keeps. */
  class Debouncer<A> {
    const wait: int
    var pending: Option<Scheduled<A>>
    ghost var fired: seq<A>

    /** `debounce(func, wait)`: nothing is scheduled yet and `func` has not run. */
    constructor (wait: int)
      ensures this.wait == wait && pending == None && fired == []
    {
      this.wait := wait;
      pending := None;
      fired := [];
    }

    /** `executedFunction(...args)`: clear the pending timeout, then schedule this call. */
    method Call(args: A, now: int)
      modifies this`pending
      ensures pending == AfterCall(wait, args, now)
    {
      pending := None;
      pending := Some(Scheduled(args, now + Delay(wait)));
    }

    /** The event loop reaching time `now`: the pending `later` runs if it is due. */
    method Tick(now: int) returns (ran: Option<A>)
      modifies this`pending, this`fired
      ensures pending == TickStep(old(pending), now).0
      ensures fired == old(fired) + TickStep(old(pending), now).1
      ensures ran.Some? <==> Due(old(pending), now)
      ensures ran.Some? ==> fired == old(fired) + [ran.value]
    {
      ran := None;
      if pending.Some? && pending.value.fireAt <= now {
        var args := pending.value.args;
        pending := None;
        fired := fired + [args];
        ran := Some(args);
      } else {
        assert fired + [] == fired;
      }
    }
  }

  /** A call of the debounced function: its arguments and the time it is made. */
  datatype Trigger<A> = Trigger(args: A, at: int)

  /**
   * The pending slot and the invocations of `func` after a sequence of calls,
   * starting from a fresh debouncer; before each call the event loop runs
   * whatever is due at that call's time.
   */
  function Replay<A>(wait: int, calls: seq<Trigger<A>>): (r: (Option<Scheduled<A>>, seq<A>))
    decreases |calls|
  {
    if calls == [] then (None, [])
    else
      var (p, fired) := Replay(wait, calls[..|calls| - 1]);
      var last := calls[|calls| - 1];
      var (_, ran) := TickStep(p, last.at);
      (AfterCall(wait, last.args, last.at), fired + ran)
  }

  /**
   * Reference description of what runs: the arguments of every call that was
   * followed by a quiet gap of at least the delay before the next call.
   */
  function Survivors<A>(d: nat, calls: seq<Trigger<A>>): seq<A>
    decreases |calls|
  {
    if |calls| < 2 then []
    else
      var n := |calls|;
      Survivors(d, calls[..n - 1]) + (if calls[n - 1].at - calls[n - 2].at >= d then [calls[n - 2].args] else [])
  }

  /** After any sequence of calls, exactly the calls followed by a quiet gap have run, and the last call is pending. */
  lemma {:induction false} ReplayRunsSurvivors<A>(wait: int, calls: seq<Trigger<A>>)
    ensures Replay(wait, calls).1 == Survivors(Delay(wait), calls)
    ensures calls != [] ==> Replay(wait, calls).0 == Some(Scheduled(calls[|calls| - 1].args, calls[|calls| - 1].at + Delay(wait)))
    ensures calls == [] ==> Replay(wait, calls).0 == None
    decreases |calls|
  {
    if calls != [] {
      ReplayRunsSurvivors(wait, calls[..|calls| - 1]);
    }
  }

  /**
   * The class driven through a sequence of calls, the event loop running what
   * is due just before each call: it ends in the state `Replay` describes, so
   * `func` has run with exactly the arguments of the calls followed by a quiet
   * gap, and the last call is pending.
   */
  method RunCalls<A>(wait: int, calls: seq<Trigger<A>>) returns (d: Debouncer<A>)
    ensures fresh(d) && d.wait == wait
    ensures d.pending == Replay(wait, calls).0 && d.fired == Replay(wait, calls).1
    ensures d.fired == Survivors(Delay(wait), calls)
  {
    d := new Debouncer(wait);
    var i := 0;
    while i < |calls|
      invariant 0 <= i <= |calls| && d.wait == wait
      invariant d.pending == Replay(wait, calls[..i]).0 && d.fired == Replay(wait, calls[..i]).1
    {
      assert calls[..i + 1][..i] == calls[..i];
      var _ := d.Tick(calls[i].at);
      d.Call(calls[i].args, calls[i].at);
      i := i + 1;
    }
    assert calls[..i] == calls;
    ReplayRunsSurvivors(wait, calls);
  }

  /** The time between call i and the call before it. */
  function GapBefore<A>(calls: seq<Trigger<A>>, i: int): int
    requires 0 < i < |calls|
  {
    calls[i].at - calls[i - 1].at
  }

  /** Every call follows the previous one by less than `d`. */
  predicate InBurst<A>(d: nat, calls: seq<Trigger<A>>) {
    forall i :: 0 < i < |calls| ==> GapBefore(calls, i) < d
  }

  /** Nothing runs during a sequence of calls exactly when every gap between consecutive calls is shorter than the delay. */
  lemma {:induction false} SurvivorsEmptyIff<A>(d: nat, calls: seq<Trigger<A>>)
    ensures Survivors(d, calls) == [] <==> InBurst(d, calls)
    decreases |calls|
  {
    if |calls| >= 2 {
      var n := |calls|;
      var prefix := calls[..n - 1];
      SurvivorsEmptyIff(d, prefix);
      assert forall i :: 0 < i < n - 1 ==> GapBefore(prefix, i) == GapBefore(calls, i);
      assert InBurst(d, calls) <==> InBurst(d, prefix) && GapBefore(calls, n - 1) < d;
    }
  }

  /**
   * A burst of calls each less than the delay after the previous one: nothing
   * runs during the burst, and afterwards `func` runs exactly once, with the
   * last call's arguments, at the first tick no earlier than the delay after
   * that call.
   */
  lemma BurstRunsOnce<A>(wait: int, calls: seq<Trigger<A>>, later: int)
    requires calls != []
    requires InBurst(Delay(wait), calls)
    ensures Replay(wait, calls).1 == []
    ensures var last := calls[|calls| - 1];
      TickStep(Replay(wait, calls).0, later).1 == (if later >= last.at + Delay(wait) then [last.args] else [])
  {
    ReplayRunsSurvivors(wait, calls);
    SurvivorsEmptyIff(Delay(wait), calls);
  }

  /** A tick before the pending time changes nothing, so extra ticks inside a burst do not matter. */
  lemma EarlyTickIsIdle<A>(wait: int, calls: seq<Trigger<A>>, now: int)
    requires calls != [] && now < calls[|calls| - 1].at + Delay(wait)
    ensures TickStep(Replay(wait, calls).0, now) == (Replay(wait, calls).0, [])
  {
    ReplayRunsSurvivors(wait, calls);
  }
}

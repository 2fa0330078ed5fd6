/** The time-gated throttle: a wrapped call runs the function only when at least
    `delay` milliseconds have passed since the last call that ran it. The clock
    reading of each call is an input. */
module Throttle {

  datatype Throttle = Throttle(delay: int, lastCall: int)

  /** `throttle(fn, delay)`: no call has run yet (`lastCall` starts at 0). */
  function Create(delay: int): (t: Throttle)
    ensures t.delay == delay && t.lastCall == 0
  {
    Throttle(delay, 0)
  }

  datatype Outcome = Outcome(state: Throttle, fired: bool)

  /** One call of the wrapped function at time `now`. */
  function Call(t: Throttle, now: int): (o: Outcome)
    ensures o.fired <==> now - t.lastCall >= t.delay
    ensures o.fired ==> o.state == t.(lastCall := now)
    ensures !o.fired ==> o.state == t
  {
    if now - t.lastCall >= t.delay then Outcome(t.(lastCall := now), true) else Outcome(t, false)
  }

  /** The throttle after the first `k` calls, made at the given times. */
  function StateAfter(t: Throttle, times: seq<int>, k: nat): (s: Throttle)
    requires k <= |times|
    ensures s.delay == t.delay
  {
    if k == 0 then t else Call(StateAfter(t, times, k - 1), times[k - 1]).state
  }

  /** Whether call number `k` ran the function. */
  predicate FiredAt(t: Throttle, times: seq<int>, k: nat)
    requires k < |times|
  {
    Call(StateAfter(t, times, k), times[k]).fired
  }

  /** After call `i` ran, and until the next call that runs, `lastCall` is the time of call `i`. */
  lemma {:induction false} LastCallHeld(t: Throttle, times: seq<int>, i: nat, j: nat)
    requires i < j <= |times|
    requires FiredAt(t, times, i)
    requires forall k :: i < k < j ==> !FiredAt(t, times, k)
    ensures StateAfter(t, times, j).lastCall == times[i]
    decreases j
  {
    if j > i + 1 {
      LastCallHeld(t, times, i, j - 1);
      assert !FiredAt(t, times, j - 1);
    }
  }

  /** Two consecutive calls that run the function are at least `delay` apart,
      whatever the clock does in between. */
  lemma ConsecutiveFiredSpaced(t: Throttle, times: seq<int>, i: nat, j: nat)
    requires i < j < |times|
    requires FiredAt(t, times, i) && FiredAt(t, times, j)
    requires forall k :: i < k < j ==> !FiredAt(t, times, k)
    ensures times[j] - times[i] >= t.delay
  {
    LastCallHeld(t, times, i, j);
  }

  predicate NonDecreasing(times: seq<int>)
  {
    forall a, b :: 0 <= a < b < |times| ==> times[a] <= times[b]
  }

  /** With a non-decreasing clock, `lastCall` after call `i` ran never drops below call `i`'s time. */
  lemma {:induction false} LastCallAtLeast(t: Throttle, times: seq<int>, i: nat, j: nat)
    requires NonDecreasing(times)
    requires i < j <= |times|
    requires FiredAt(t, times, i)
    ensures StateAfter(t, times, j).lastCall >= times[i]
    decreases j
  {
    if j > i + 1 {
      LastCallAtLeast(t, times, i, j - 1);
    }
  }

  /** With a non-decreasing clock, ANY two calls that ran the function are at least `delay` apart. */
  lemma FiredSpaced(t: Throttle, times: seq<int>, i: nat, j: nat)
    requires NonDecreasing(times)
    requires i < j < |times|
    requires FiredAt(t, times, i) && FiredAt(t, times, j)
    ensures times[j] - times[i] >= t.delay
  {
    LastCallAtLeast(t, times, i, j);
  }

  /** With a non-decreasing clock starting no earlier than `lastCall`, `lastCall` never exceeds the next call's time. */
  lemma {:induction false} LastCallNotAhead(t: Throttle, times: seq<int>, k: nat)
    requires NonDecreasing(times)
    requires |times| > 0 && times[0] >= t.lastCall
    requires k < |times|
    ensures StateAfter(t, times, k).lastCall <= times[k]
    decreases k
  {
    if k > 0 {
      LastCallNotAhead(t, times, k - 1);
    }
  }

  /** With `delay` 0 and a non-decreasing clock starting no earlier than `lastCall`, every call runs. */
  lemma ZeroDelayAlwaysFires(t: Throttle, times: seq<int>, k: nat)
    requires t.delay == 0
    requires NonDecreasing(times)
    requires |times| > 0 && times[0] >= t.lastCall
    requires k < |times|
    ensures FiredAt(t, times, k)
  {
    LastCallNotAhead(t, times, k);
  }
}

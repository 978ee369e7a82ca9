/**
 * Timeline.Graphics._Animation: a value animated from `from` to `to` over
 * `duration` milliseconds by a callback f(current, delta) invoked every 50 ms,
 * followed by one final f(to, 0) and the continuation `cont`.
 *
 * The cosine easing is an opaque parameter, ease(timePassed, duration), the
 * fraction of the way from `from` to `to` after timePassed milliseconds.
 * Whether a call of f throws is the opaque parameter throws(i, current, delta),
 * where i counts the calls of f made before it, so an f whose behaviour
 * depends on its own history (say, one that throws only on its first call)
 * is expressible.
 * The calls the animation makes to f and to cont are recorded, in order, in
 * the field `calls`; the setTimeout chain of run/step is the loop of Run.
 */
module Animations {

  /** The timer period of run(), in milliseconds. */
  const TickMillis: int := 50

  /** A call to f, with whether it threw, or the call to cont (noOp: the default one). */
  datatype Call = F(value: real, delta: real, threw: bool) | Cont(noOp: bool)

  /** What step() does next: schedules another step, or ends normally or by an exception. */
  datatype StepOutcome = Rescheduled | Completed | Aborted

  /**
   * The number of steps an animation of this duration takes: the least n >= 1
   * with 50 * n >= duration.
   */
  function StepCount(duration: int): (n: nat)
    ensures n >= 1
    ensures TickMillis * n >= duration
    ensures n > 1 ==> TickMillis * (n - 1) < duration
    decreases duration
  {
    if duration <= TickMillis then 1 else 1 + StepCount(duration - TickMillis)
  }

  /** Number of calls to cont in a trace. */
  function ContCount(s: seq<Call>): nat {
    if s == [] then 0 else (if s[|s| - 1].Cont? then 1 else 0) + ContCount(s[..|s| - 1])
  }

  /** Number of calls to f in a trace. */
  function FCount(s: seq<Call>): nat {
    if s == [] then 0 else (if s[|s| - 1].F? then 1 else 0) + FCount(s[..|s| - 1])
  }

  lemma {:induction false} CountsAppend(s: seq<Call>, t: seq<Call>)
    ensures ContCount(s + t) == ContCount(s) + ContCount(t)
    ensures FCount(s + t) == FCount(s) + FCount(t)
    decreases |t|
  {
    if t != [] {
      assert (s + t)[..|s + t| - 1] == s + t[..|t| - 1];
      CountsAppend(s, t[..|t| - 1]);
    } else {
      assert s + t == s;
    }
  }

  class Animation {
    const from: real
    const to: real
    const duration: int
    const ease: (int, int) -> real
    const throws: (nat, real, real) -> bool
    const contIsFunction: bool

    var current: real
    var timePassed: int
    var calls: seq<Call>

    /** The constructor; a `cont` that is not a function is replaced by a no-op. */
    constructor (from: real, to: real, duration: int, ease: (int, int) -> real,
                 throws: (nat, real, real) -> bool, contIsFunction: bool)
      ensures this.from == from && this.to == to && this.duration == duration
      ensures this.ease == ease && this.throws == throws && this.contIsFunction == contIsFunction
      ensures current == from && timePassed == 0 && calls == []
    {
      this.from := from;
      this.to := to;
      this.duration := duration;
      this.ease := ease;
      this.throws := throws;
      this.contIsFunction := contIsFunction;
      current := from;
      timePassed := 0;
      calls := [];
    }

    /** The value step() computes when the clock reads t milliseconds. */
    function Eased(t: int): real {
      ease(t, duration) * (to - from) + from
    }

    /** The eased value after k steps (k = 0: the start value). */
    function ValueAt(k: nat): real {
      if k == 0 then from else Eased(TickMillis * k)
    }

    /** The call to f made by step number k (k >= 1), the k-th call of f. */
    function TickCall(k: nat): Call
      requires k >= 1
    {
      var v := ValueAt(k);
      var d := v - ValueAt(k - 1);
      F(v, d, throws(k - 1, v, d))
    }

    /** The calls to f made by the first n steps, one per step, in order. */
    function Ticks(n: nat): (s: seq<Call>)
      ensures |s| == n
    {
      if n == 0 then [] else Ticks(n - 1) + [TickCall(n)]
    }

    /** The end of the animation after i earlier calls of f: f(to, 0), then cont unless that call threw. */
    function Finish(i: nat): seq<Call> {
      var threw := throws(i, to, 0.0);
      [F(to, 0.0, threw)] + (if threw then [] else [Cont(!contIsFunction)])
    }

    /** Whether the final f(to, 0) of a full run throws. */
    predicate FinalThrows() {
      throws(StepCount(duration), to, 0.0)
    }

    /** Every call the animation makes, from the first step to the end. */
    function Trace(): seq<Call> {
      Ticks(StepCount(duration)) + Finish(StepCount(duration))
    }

    /**
     * step(): advance the clock by 50 ms, call f with the eased value and its
     * change (an exception is discarded, and current is updated all the same),
     * then either reschedule or make the final call and call cont. The
     * ordinal passed to throws is the number of calls recorded so far, which
     * while the animation runs is the number of earlier calls of f.
     */
    method Step() returns (outcome: StepOutcome)
      modifies this
      ensures timePassed == old(timePassed) + TickMillis
      ensures current == Eased(timePassed)
      ensures calls == old(calls) + [F(current, current - old(current), throws(|old(calls)|, current, current - old(current)))]
                       + (if timePassed < duration then [] else Finish(|old(calls)| + 1))
      ensures outcome == if timePassed < duration then Rescheduled
                         else if throws(|old(calls)| + 1, to, 0.0) then Aborted else Completed
    {
      timePassed := timePassed + TickMillis;
      var value := Eased(timePassed);
      var delta := value - current;
      var made := |calls|;
      calls := calls + [F(value, delta, throws(made, value, delta))];
      current := value;
      if timePassed < duration {
        outcome := Rescheduled;
      } else {
        var threw := throws(made + 1, to, 0.0);
        calls := calls + [F(to, 0.0, threw)];
        if threw {
          outcome := Aborted;
        } else {
          calls := calls + [Cont(!contIsFunction)];
          outcome := Completed;
        }
      }
    }

    /**
     * run() on a new animation, with the setTimeout chain as a loop: steps
     * until one does not reschedule. It takes StepCount(duration) steps, ends
     * with the clock at the least multiple of 50 that reaches the duration,
     * and makes exactly the calls of Trace().
     */
    method Run() returns (outcome: StepOutcome)
      requires current == from && timePassed == 0 && calls == []
      modifies this
      ensures outcome == if FinalThrows() then Aborted else Completed
      ensures timePassed == TickMillis * StepCount(duration)
      ensures current == ValueAt(StepCount(duration))
      ensures calls == Trace()
    {
      outcome := Rescheduled;
      ghost var k: nat := 0;
      while outcome == Rescheduled
        invariant timePassed == TickMillis * k
        invariant current == ValueAt(k)
        invariant calls == Ticks(k) + (if outcome == Rescheduled then [] else Finish(k))
        invariant outcome == Rescheduled ==> k == 0 || TickMillis * k < duration
        invariant outcome != Rescheduled ==>
                    k >= 1 && TickMillis * k >= duration && (k > 1 ==> TickMillis * (k - 1) < duration) &&
                    outcome == (if throws(k, to, 0.0) then Aborted else Completed)
        invariant k <= StepCount(duration)
        decreases StepCount(duration) - k
      {
        ghost var before := calls;
        outcome := Step();
        k := k + 1;
        assert Ticks(k) == before + [TickCall(k)];
      }
      StepCountUnique(duration, k);
    }
  }

  /** StepCount(duration) is the only n >= 1 whose last step reaches the duration and whose previous one did not. */
  lemma StepCountUnique(duration: int, k: nat)
    requires k >= 1 && TickMillis * k >= duration
    requires k > 1 ==> TickMillis * (k - 1) < duration
    ensures StepCount(duration) == k
  {
  }

  /**
   * The order of the calls: one call of f per step, the step's eased value
   * and its change, whether or not it threw; then f(to, 0); then, only when
   * that call did not throw, cont.
   */
  lemma TraceOrder(a: Animation)
    ensures var t := a.Trace(); var n := StepCount(a.duration);
      |t| == n + (if a.FinalThrows() then 1 else 2) &&
      (forall i :: 0 <= i < n ==> t[i] == a.TickCall(i + 1)) &&
      t[n] == F(a.to, 0.0, a.FinalThrows()) &&
      (!a.FinalThrows() ==> t[n + 1] == Cont(!a.contIsFunction))
  {
    var n := StepCount(a.duration);
    var ticks := a.Ticks(n);
    var t := a.Trace();
    assert t == ticks + a.Finish(n);
    forall i | 0 <= i < n
      ensures t[i] == a.TickCall(i + 1)
    {
      TicksInOrder(a, n, i);
      assert t[i] == ticks[i];
    }
  }

  /** The i-th call of the first n steps is the call of step i + 1. */
  lemma {:induction false} TicksInOrder(a: Animation, n: nat, i: nat)
    requires i < n
    ensures a.Ticks(n)[i] == a.TickCall(i + 1)
  {
    if i < n - 1 {
      TicksInOrder(a, n - 1, i);
    }
  }

  /**
   * Exceptions in regular calls change nothing: two animations that differ
   * only in which calls of f throw pass f the same value and the same delta
   * at every step, the delta being measured from the previous step's value
   * (current is updated even when f threw).
   */
  lemma ValuesIgnoreFaults(a: Animation, b: Animation, k: nat)
    requires a.from == b.from && a.to == b.to && a.duration == b.duration && a.ease == b.ease
    requires 1 <= k <= StepCount(a.duration)
    ensures a.Trace()[k - 1].F? && b.Trace()[k - 1].F?
    ensures a.Trace()[k - 1].value == b.Trace()[k - 1].value == a.Eased(TickMillis * k)
    ensures a.Trace()[k - 1].delta == b.Trace()[k - 1].delta == a.ValueAt(k) - a.ValueAt(k - 1)
  {
    TraceOrder(a);
    TraceOrder(b);
  }

  /**
   * f is called StepCount(duration) + 1 times; cont is called exactly once
   * when the final f(to, 0) does not throw, and never when it does.
   */
  lemma ContCalledOnceUnlessFinalThrows(a: Animation)
    ensures FCount(a.Trace()) == StepCount(a.duration) + 1
    ensures ContCount(a.Trace()) == if a.FinalThrows() then 0 else 1
  {
    var n := StepCount(a.duration);
    TicksCount(a, n);
    FinishCounts(a, n);
    CountsAppend(a.Ticks(n), a.Finish(n));
  }

  lemma FinishCounts(a: Animation, i: nat)
    ensures FCount(a.Finish(i)) == 1
    ensures ContCount(a.Finish(i)) == if a.throws(i, a.to, 0.0) then 0 else 1
  {
    var last := F(a.to, 0.0, a.throws(i, a.to, 0.0));
    SingletonCounts(last);
    if !a.throws(i, a.to, 0.0) {
      var cont := Cont(!a.contIsFunction);
      SingletonCounts(cont);
      CountsAppend([last], [cont]);
    }
  }

  /**
   * An f that throws on every regular call but not on the final one: every
   * step is still taken, every regular call is recorded as having thrown,
   * and cont is reached, last, exactly once.
   */
  lemma RegularFaultsStillComplete(a: Animation)
    requires forall i: nat, v: real, d: real :: a.throws(i, v, d) == (i < StepCount(a.duration))
    ensures var t := a.Trace(); var n := StepCount(a.duration);
      |t| == n + 2 &&
      (forall i :: 0 <= i < n ==> t[i].F? && t[i].threw) &&
      !t[n].threw && t[n + 1] == Cont(!a.contIsFunction) &&
      ContCount(t) == 1
  {
    TraceOrder(a);
    ContCalledOnceUnlessFinalThrows(a);
  }

  lemma SingletonCounts(c: Call)
    ensures FCount([c]) == (if c.F? then 1 else 0)
    ensures ContCount([c]) == (if c.Cont? then 1 else 0)
  {
    assert [c][..0] == [];
  }

  lemma {:induction false} TicksCount(a: Animation, n: nat)
    ensures ContCount(a.Ticks(n)) == 0 && FCount(a.Ticks(n)) == n
  {
    if n > 0 {
      TicksCount(a, n - 1);
      CountsAppend(a.Ticks(n - 1), [a.TickCall(n)]);
    }
  }

  /**
   * Positive durations take ceil(duration / 50) steps; a 200 ms animation
   * steps at 50, 100, 150 and 200 ms.
   */
  lemma StepCountIsCeiling(duration: int)
    requires duration > 0
    ensures StepCount(duration) == (duration + TickMillis - 1) / TickMillis
  {
  }

  lemma TwoHundredMillisScenario(a: Animation)
    requires a.duration == 200
    ensures StepCount(a.duration) == 4
    ensures var t := a.Trace();
      FCount(t) == 5 && t[4] == F(a.to, 0.0, a.throws(4, a.to, 0.0)) &&
      (forall k :: 1 <= k <= 4 ==> t[k - 1].F? && t[k - 1].value == a.ValueAt(k)) &&
      ContCount(t) == (if a.throws(4, a.to, 0.0) then 0 else 1)
  {
    StepCountIsCeiling(200);
    TraceOrder(a);
    ContCalledOnceUnlessFinalThrows(a);
  }
}

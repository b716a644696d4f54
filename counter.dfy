/** `AnimatedCounter`: the displayed number, the once-per-value arming by the
    intersection observer, and the 60-step interval that counts up to the
    target. The interval's floating accumulator `current` (advanced by
    `value / 60` per tick) is kept exactly: after k ticks it is k·value/60,
    so 60·current = k·value and the shown floor is (k·value)/60. */
module Counter {

  /** Ticks per animation (over 2000 ms, one tick every 2000/60 ms). */
  const Steps: nat := 60

  /** `current >= value` after k ticks, multiplied through by 60. */
  predicate Reached(target: nat, k: nat)
    ensures Reached(target, k) <==> target == 0 || k >= Steps
  {
    assert target > 0 && k < Steps ==> k * target < Steps * target;
    assert k >= Steps ==> k * target >= Steps * target;
    k * target >= Steps * target
  }

  /** `Math.floor(current)` after k ticks: never above the target within a
      run. */
  function Shown(target: nat, k: nat): (n: nat)
    ensures k <= Steps ==> n <= target
  {
    assert k <= Steps ==> k * target <= Steps * target;
    (k * target) / Steps
  }

  /** The number of ticks after which an animation clamps and stops. */
  function RunLength(target: nat): nat {
    if target == 0 then 1 else Steps
  }

  /** Before the clamp, the shown value stays strictly below the target. */
  lemma ShownBelowTarget(target: nat, k: nat)
    requires !Reached(target, k)
    ensures Shown(target, k) < target
  {
    assert k < Steps;
    assert k * target <= (Steps - 1) * target;
  }

  /** The shown value never decreases from one tick to a later one. */
  lemma ShownMonotone(target: nat, k1: nat, k2: nat)
    requires k1 <= k2
    ensures Shown(target, k1) <= Shown(target, k2)
  {
    assert k1 * target <= k2 * target;
  }

  /** From the first tick on, the accumulator has reached the target exactly
      when the run length has elapsed: on tick 60, or on tick 1 for a zero
      target. */
  lemma ReachedExactly(target: nat, k: nat)
    requires k >= 1
    ensures Reached(target, k) <==> k >= RunLength(target)
  {
    if target > 0 {
      if k >= Steps {
        assert k * target >= Steps * target;
      } else {
        assert k * target < Steps * target;
      }
    }
  }

  /** The values one run of the interval shows, one per tick: the floor of
      the accumulator, and the target itself on the tick that clamps. */
  function Frames(target: nat): (f: seq<nat>)
    ensures |f| == RunLength(target)
  {
    seq(RunLength(target), i requires 0 <= i < RunLength(target) => if i + 1 == RunLength(target) then target else Shown(target, i + 1))
  }

  /** A run ends showing the target exactly, shows values below it before
      that, and never counts down. */
  lemma FramesShape(target: nat)
    ensures Frames(target)[RunLength(target) - 1] == target
    ensures forall i :: 0 <= i < RunLength(target) - 1 ==> Frames(target)[i] < target
    ensures forall i, j :: 0 <= i <= j < RunLength(target) ==> Frames(target)[i] <= Frames(target)[j]
  {
    var f := Frames(target);
    var n := RunLength(target);
    forall i | 0 <= i < n - 1 ensures f[i] < target {
      ReachedExactly(target, i + 1);
      ShownBelowTarget(target, i + 1);
    }
    forall i, j | 0 <= i <= j < n ensures f[i] <= f[j] {
      if j < n - 1 {
        ShownMonotone(target, i + 1, j + 1);
      }
    }
  }

  /** One uninterrupted run of the interval (`animateCounter`): the values it
      shows, tick by tick. It stops after the run length, last showing the
      target exactly; every earlier value is floor(k·target/60) and below the
      target; and the shown values never decrease. */
  method Animate(target: nat) returns (frames: seq<nat>)
    ensures frames == Frames(target)
    ensures |frames| == RunLength(target)
    ensures frames[|frames| - 1] == target
    ensures forall i :: 0 <= i < |frames| - 1 ==> frames[i] == Shown(target, i + 1) && frames[i] < target
    ensures forall i, j :: 0 <= i <= j < |frames| ==> frames[i] <= frames[j]
  {
    var current := 0;  // 60 times the source's accumulator
    var k := 0;
    var running := true;
    frames := [];
    while running
      invariant 0 <= k <= RunLength(target)
      invariant current == k * target
      invariant |frames| == k
      invariant frames == Frames(target)[..k]
      invariant running ==> k < RunLength(target)
      invariant !running ==> k == RunLength(target) && frames[k - 1] == target
      invariant forall i :: 0 <= i < k && (running || i < k - 1) ==> frames[i] == Shown(target, i + 1) && frames[i] < target
      invariant forall i, j :: 0 <= i <= j < k ==> frames[i] <= frames[j]
      decreases RunLength(target) - k
    {
      current := current + target;
      k := k + 1;
      assert current == k * target;
      ReachedExactly(target, k);
      if current >= Steps * target {
        frames := frames + [target];
        running := false;
      } else {
        ShownBelowTarget(target, k);
        forall i | 0 <= i < k - 1 ensures frames[i] <= Shown(target, k) {
          ShownMonotone(target, i + 1, k);
        }
        frames := frames + [current / Steps];
      }
    }
  }

  /** One live interval: the target it captured and the ticks it has run. */
  datatype Run = Run(target: nat, ticks: nat)

  /** The number of intersecting entries in an observer batch. */
  function Intersecting(entries: seq<bool>): nat {
    if entries == [] then 0
    else Intersecting(entries[..|entries| - 1]) + (if entries[|entries| - 1] then 1 else 0)
  }

  /** `n` fresh intervals for `target`. */
  function Started(target: nat, n: nat): (r: seq<Run>)
    ensures |r| == n && forall i :: 0 <= i < n ==> r[i] == Run(target, 0)
  {
    seq(n, _ => Run(target, 0))
  }

  class AnimatedCounter {
    /** The `value` prop. */
    var value: nat
    var displayValue: nat
    var hasAnimated: bool
    /** The intervals still running. A change of `value` does not clear
        them: each goes on with the target it captured. */
    var runs: seq<Run>

    ghost predicate Valid()
      reads this
    {
      forall i :: 0 <= i < |runs| ==> runs[i].ticks < RunLength(runs[i].target)
    }

    constructor (value: nat)
      ensures Valid()
      ensures this.value == value && displayValue == 0 && !hasAnimated && runs == []
    {
      this.value := value;
      displayValue := 0;
      hasAnimated := false;
      runs := [];
    }

    /** A new `value` prop; the reset effect fires only when it differs. */
    method OnValueChange(v: nat)
      requires Valid()
      modifies this
      ensures Valid() && value == v && runs == old(runs)
      ensures v != old(value) ==> displayValue == 0 && !hasAnimated
      ensures v == old(value) ==> displayValue == old(displayValue) && hasAnimated == old(hasAnimated)
    {
      if v != value {
        value := v;
        hasAnimated := false;
        displayValue := 0;
      }
    }

    /** The observer callback on a batch of entries. It sees the
        `hasAnimated` of its render, so within one batch every intersecting
        entry starts an interval when that was false, and none does when it
        was true. */
    method OnIntersect(entries: seq<bool>)
      requires Valid()
      modifies this
      ensures Valid()
      ensures value == old(value) && displayValue == old(displayValue)
      ensures hasAnimated == (old(hasAnimated) || Intersecting(entries) > 0)
      ensures runs == old(runs) + Started(value, if old(hasAnimated) then 0 else Intersecting(entries))
    {
      var armed := !hasAnimated;
      var j := 0;
      while j < |entries|
        invariant 0 <= j <= |entries|
        invariant value == old(value) && displayValue == old(displayValue)
        invariant runs == old(runs) + Started(value, if armed then Intersecting(entries[..j]) else 0)
        invariant hasAnimated == (old(hasAnimated) || (armed && Intersecting(entries[..j]) > 0))
        invariant Valid()
      {
        assert entries[..j + 1][..j] == entries[..j];
        if entries[j] && armed {
          runs := runs + [Run(value, 0)];
          hasAnimated := true;
        }
        j := j + 1;
      }
      assert entries[..j] == entries;
    }

    /** One tick of interval `i`: it clamps to its target and stops once the
        accumulator reaches the target, and otherwise shows the floor of the
        accumulator. */
    method Tick(i: nat)
      requires Valid() && i < |runs|
      modifies this
      ensures Valid()
      ensures value == old(value) && hasAnimated == old(hasAnimated)
      ensures displayValue <= old(runs)[i].target
      ensures old(runs)[i].ticks + 1 == RunLength(old(runs)[i].target) ==>
        displayValue == old(runs)[i].target && runs == old(runs)[..i] + old(runs)[i + 1..]
      ensures old(runs)[i].ticks + 1 < RunLength(old(runs)[i].target) ==>
        && displayValue == Shown(old(runs)[i].target, old(runs)[i].ticks + 1)
        && runs == old(runs)[i := Run(old(runs)[i].target, old(runs)[i].ticks + 1)]
    {
      var r := runs[i];
      var k := r.ticks + 1;
      var current := k * r.target;
      ReachedExactly(r.target, k);
      if current >= Steps * r.target {
        displayValue := r.target;
        runs := runs[..i] + runs[i + 1..];
      } else {
        ShownBelowTarget(r.target, k);
        displayValue := current / Steps;
        runs := runs[i := Run(r.target, k)];
      }
    }
  }

  /** A counter that comes into view once and is left to run: tick by tick
      it shows exactly the values of one uninterrupted run, and it ends
      showing its value after the run length, with no interval left (a zero
      value is armed too, and clamps on the first tick). */
  method CountUp(v: nat) returns (frames: seq<nat>, shown: nat, ticks: nat)
    ensures frames == Frames(v)
    ensures shown == v && ticks == RunLength(v)
  {
    var c := new AnimatedCounter(v);
    c.OnIntersect([true]);
    assert c.runs == [Run(v, 0)];
    ticks := 0;
    frames := [];
    while c.runs != []
      invariant c.Valid() && c.value == v
      invariant ticks < RunLength(v) ==> c.runs == [Run(v, ticks)]
      invariant ticks == RunLength(v) ==> c.runs == [] && c.displayValue == v
      invariant ticks <= RunLength(v)
      invariant frames == Frames(v)[..ticks]
      decreases RunLength(v) - ticks
    {
      c.Tick(0);
      frames := frames + [c.displayValue];
      ticks := ticks + 1;
    }
    shown := c.displayValue;
  }
}

/**
 * The one-time count-up of the three headline numbers (speed, power,
 * energy): on the first snapshot they ease from 0 to the snapshot's values
 * over 900 ms with a cubic ease-out; once that has finished they simply
 * mirror every later snapshot.
 */
module Animator {
  import opened Wrappers
  import opened Telemetry

  const Duration: real := 900.0

  /** The three headline numbers. */
  datatype Headline = Headline(velocita: real, potenzaKw: real, energiaKwh: real)

  const Zero: Headline := Headline(0.0, 0.0, 0.0)

  /** `Math.round`: the nearest integer, halves rounded up. */
  function Round(x: real): (r: int)
    ensures x - 0.5 < r as real <= x + 0.5
  {
    (x + 0.5).Floor
  }

  /** Animation progress `min(elapsed / 900, 1)`. */
  function Progress(elapsed: real): (t: real)
    ensures t <= 1.0
    ensures t == 1.0 <==> elapsed >= Duration
    ensures elapsed >= 0.0 ==> 0.0 <= t
  {
    Min(elapsed / Duration, 1.0)
  }

  /** Cubic ease-out `1 - (1 - t)^3`. */
  function EaseOut(t: real): real {
    1.0 - (1.0 - t) * (1.0 - t) * (1.0 - t)
  }

  /** The value a frame stores for `target`, `elapsed` ms into the animation. */
  function FrameValue(target: real, elapsed: real): int {
    Round(target * EaseOut(Progress(elapsed)))
  }

  function FrameHeadline(target: Headline, elapsed: real): Headline {
    Headline(
      FrameValue(target.velocita, elapsed) as real,
      FrameValue(target.potenzaKw, elapsed) as real,
      FrameValue(target.energiaKwh, elapsed) as real)
  }

  /** The first frame stores 0. */
  lemma FrameValueAtStart(target: real)
    ensures FrameValue(target, 0.0) == 0
  {
    assert Progress(0.0) == 0.0;
    assert EaseOut(0.0) == 0.0;
  }

  /** From 900 ms on, a frame stores the rounded target; a whole target exactly. */
  lemma FrameValueAtEnd(target: real, elapsed: real)
    requires elapsed >= Duration
    ensures FrameValue(target, elapsed) == Round(target)
    ensures target == target.Floor as real ==> FrameValue(target, elapsed) as real == target
  {
    assert Progress(elapsed) == 1.0;
    assert EaseOut(1.0) == 1.0;
    assert target * 1.0 == target;
    if target == target.Floor as real {
      RoundWhole(target.Floor);
    }
  }

  lemma RoundWhole(k: int)
    ensures Round(k as real) == k
  {
    var r := Round(k as real);
    assert k as real - 0.5 < r as real <= k as real + 0.5;
  }

  lemma ProductNonNegative(a: real, b: real)
    requires a >= 0.0 && b >= 0.0
    ensures a * b >= 0.0
  {
  }

  lemma CubeMonotone(a: real, b: real)
    requires 0.0 <= b <= a
    ensures b * b * b <= a * a * a
  {
    assert b * (a - b) >= 0.0;
    assert a * (a - b) >= 0.0;
    assert b * b <= a * a;
    assert b * b * (a - b) >= 0.0;
    assert (a * a - b * b) * a >= 0.0;
  }

  lemma RoundMonotone(x: real, y: real)
    requires x <= y
    ensures Round(x) <= Round(y)
  {
  }

  lemma EaseOutMonotone(t1: real, t2: real)
    requires 0.0 <= t1 <= t2 <= 1.0
    ensures 0.0 <= EaseOut(t1) <= EaseOut(t2) <= 1.0
  {
    CubeMonotone(1.0 - t1, 1.0 - t2);
    CubeMonotone(1.0, 1.0 - t1);
    ProductNonNegative(1.0 - t2, 1.0 - t2);
    ProductNonNegative((1.0 - t2) * (1.0 - t2), 1.0 - t2);
  }

  lemma ScaleMonotone(target: real, s1: real, s2: real)
    requires target >= 0.0 && 0.0 <= s1 <= s2 <= 1.0
    ensures 0.0 <= target * s1 <= target * s2 <= target
  {
    ProductNonNegative(target, s2 - s1);
    ProductNonNegative(target, 1.0 - s2);
    ProductNonNegative(target, s1);
  }

  /**
   * For a non-negative target the stored value never decreases as time
   * passes and stays between 0 and the rounded target.
   */
  lemma FrameValueMonotone(target: real, e1: real, e2: real)
    requires target >= 0.0 && 0.0 <= e1 <= e2
    ensures 0 <= FrameValue(target, e1) <= FrameValue(target, e2) <= Round(target)
  {
    var t1, t2 := Progress(e1), Progress(e2);
    assert t1 <= t2;
    EaseOutMonotone(t1, t2);
    var s1, s2 := EaseOut(t1), EaseOut(t2);
    ScaleMonotone(target, s1, s2);
    RoundMonotone(0.0, target * s1);
    RoundMonotone(target * s1, target * s2);
    RoundMonotone(target * s2, target);
    RoundWhole(0);
  }

  /**
   * Nothing clamps progress from below: a frame stamped before the
   * animation's start time stores a negative value for a positive target.
   */
  lemma EarlyFrameUndershoots()
    ensures FrameValue(100.0, -900.0) == -700
  {
    assert Progress(-900.0) == -1.0;
    assert EaseOut(-1.0) == -7.0;
  }

  /** The animation state behind the headline numbers. */
  class HeadlineAnimator {
    /** The latest snapshot's headline numbers (absent before the first poll). */
    var snapshot: Option<Headline>
    /**
     * `animatedValues`: the count-up state. The headline cards render the
     * snapshot's own numbers and never read it.
     */
    var values: Headline
    /** Set when the count-up has finished; never cleared. */
    var hasAnimatedOnce: bool
    /** Whether a frame callback is scheduled. */
    var running: bool

    /** Frames are only scheduled while counting up toward a snapshot. */
    predicate Valid()
      reads this
    {
      running ==> snapshot.Some? && !hasAnimatedOnce
    }

    constructor()
      ensures Valid()
      ensures snapshot == None && values == Zero && !hasAnimatedOnce && !running
    {
      snapshot := None;
      values := Zero;
      hasAnimatedOnce := false;
      running := false;
    }

    /**
     * The effect body, run whenever the snapshot or `hasAnimatedOnce`
     * changes: it cancels any scheduled frame, then mirrors the snapshot
     * once settled, or (re)starts the count-up otherwise.
     */
    method Effect()
      modifies this
      ensures Valid()
      ensures snapshot == old(snapshot) && hasAnimatedOnce == old(hasAnimatedOnce)
      ensures running == (snapshot.Some? && !hasAnimatedOnce)
      ensures values == if snapshot.Some? && hasAnimatedOnce then snapshot.value else old(values)
    {
      running := false;
      if snapshot.None? {
        return;
      }
      if hasAnimatedOnce {
        values := snapshot.value;
        return;
      }
      running := true;
    }

    /** A new snapshot arrives from the poll. */
    method OnSnapshot(target: Headline)
      modifies this
      ensures Valid()
      ensures snapshot == Some(target) && hasAnimatedOnce == old(hasAnimatedOnce)
      ensures old(hasAnimatedOnce) ==> values == target && !running
      ensures !old(hasAnimatedOnce) ==> values == old(values) && running
    {
      snapshot := Some(target);
      Effect();
    }

    /**
     * One animation frame, `elapsed` ms after the count-up (re)started. Before
     * 900 ms it stores the eased values and keeps going; at 900 ms it settles,
     * and the effect that re-runs then stores the snapshot's exact numbers.
     */
    method Frame(elapsed: real)
      requires Valid() && running
      modifies this
      ensures Valid()
      ensures snapshot == old(snapshot)
      ensures hasAnimatedOnce == (elapsed >= Duration)
      ensures elapsed < Duration ==> values == FrameHeadline(snapshot.value, elapsed) && running
      ensures elapsed >= Duration ==> values == snapshot.value && !running
    {
      var target := snapshot.value;
      values := FrameHeadline(target, elapsed);
      if Progress(elapsed) < 1.0 {
        return;
      }
      hasAnimatedOnce := true;
      Effect();
    }

    /** Unmounting cancels a scheduled frame and changes nothing else. */
    method Teardown()
      modifies this
      ensures Valid() && !running
      ensures snapshot == old(snapshot) && values == old(values) && hasAnimatedOnce == old(hasAnimatedOnce)
    {
      running := false;
    }
  }
}

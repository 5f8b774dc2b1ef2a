/**
 * The easing curves of `AnimationUtils` (scripts/animations.js): maps from
 * linear progress t in [0, 1] to eased progress.
 */
module Easing {

  /** The names `AnimationUtils.animate` accepts for its `easing` argument. */
  datatype Curve = EaseIn | EaseOut | EaseInOut

  function In(t: real): real { t * t }

  function Out(t: real): real { t * (2.0 - t) }

  /** Quadratic acceleration up to the midpoint, mirrored deceleration after it. */
  function InOut(t: real): real {
    if t < 0.5 then 2.0 * t * t else -1.0 + (4.0 - 2.0 * t) * t
  }

  function Ease(c: Curve, t: real): real {
    match c
    case EaseIn => In(t)
    case EaseOut => Out(t)
    case EaseInOut => InOut(t)
  }

  /** Every curve starts at rest and finishes exactly at 1. */
  lemma Endpoints(c: Curve)
    ensures Ease(c, 0.0) == 0.0 && Ease(c, 1.0) == 1.0
  {
  }

  /** Both pieces of `easeInOut` meet at the midpoint, so the curve has no jump there. */
  lemma InOutMeetsAtHalf()
    ensures 2.0 * 0.5 * 0.5 == 0.5 == -1.0 + (4.0 - 2.0 * 0.5) * 0.5
    ensures InOut(0.5) == 0.5
  {
  }

  lemma ProductNonneg(x: real, y: real)
    requires 0.0 <= x && 0.0 <= y
    ensures 0.0 <= x * y
  {
  }

  /** Eased progress stays in [0, 1]. */
  lemma InUnitRange(c: Curve, t: real)
    requires 0.0 <= t <= 1.0
    ensures 0.0 <= Ease(c, t) <= 1.0
  {
    match c
    case EaseIn =>
      ProductNonneg(t, t);
      ProductNonneg(t, 1.0 - t);
      assert In(t) == t - t * (1.0 - t);
      assert In(t) <= t;
    case EaseOut =>
      ProductNonneg(t, 2.0 - t);
      ProductNonneg(1.0 - t, 1.0 - t);
      assert 1.0 - Out(t) == (1.0 - t) * (1.0 - t);
    case EaseInOut =>
      if t < 0.5 {
        ProductNonneg(t, t);
        ProductNonneg(t, 0.5 - t);
        assert InOut(t) == t - 2.0 * (t * (0.5 - t)) && InOut(t) == 2.0 * (t * t);
      } else {
        ProductNonneg(1.0 - t, 1.0 - t);
        ProductNonneg(t - 0.5, 1.5 - t);
        assert 1.0 - InOut(t) == 2.0 * ((1.0 - t) * (1.0 - t));
        assert InOut(t) - 0.5 == 2.0 * ((t - 0.5) * (1.5 - t));
      }
  }

  lemma InMonotone(a: real, b: real)
    requires 0.0 <= a <= b
    ensures In(a) <= In(b)
  {
    ProductNonneg(b - a, b + a);
    assert In(b) - In(a) == (b - a) * (b + a);
  }

  lemma OutMonotone(a: real, b: real)
    requires a <= b && a + b <= 2.0
    ensures Out(a) <= Out(b)
  {
    ProductNonneg(b - a, 2.0 - a - b);
    assert Out(b) - Out(a) == (b - a) * (2.0 - a - b);
  }

  lemma InOutMonotone(a: real, b: real)
    requires 0.0 <= a <= b <= 1.0
    ensures InOut(a) <= InOut(b)
  {
    if b < 0.5 {
      InMonotone(a, b);
      assert InOut(a) == 2.0 * In(a) && InOut(b) == 2.0 * In(b);
    } else if 0.5 <= a {
      ProductNonneg(b - a, 2.0 - a - b);
      assert InOut(b) - InOut(a) == 2.0 * ((b - a) * (2.0 - a - b));
    } else {
      ProductNonneg(a, 0.5 - a);
      assert 0.5 - InOut(a) == 2.0 * (a * (0.5 - a)) + (0.5 - a);
      ProductNonneg(b - 0.5, 1.5 - b);
      assert InOut(b) - 0.5 == 2.0 * ((b - 0.5) * (1.5 - b));
    }
  }

  /** No curve ever goes backwards on [0, 1]. */
  lemma Monotone(c: Curve, a: real, b: real)
    requires 0.0 <= a <= b <= 1.0
    ensures Ease(c, a) <= Ease(c, b)
  {
    match c
    case EaseIn => InMonotone(a, b);
    case EaseOut => OutMonotone(a, b);
    case EaseInOut => InOutMonotone(a, b);
  }
}

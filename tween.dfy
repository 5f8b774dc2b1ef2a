/**
 * Frame-driven interpolation: `AnimationUtils.animate` and `shake` in
 * scripts/animations.js, and the price tween of the pricing toggle in
 * scripts/main.js. The frame clock (`Date.now()` read at each
 * `requestAnimationFrame` callback) is a sequence of elapsed times passed in.
 */
module Tween {
  import opened Wrappers
  import opened Easing
  import opened Strings
  import opened Styles

  /** A value written to `element.style[prop]`: opacity properties are unitless, all others get `px`. */
  datatype StyleValue = StyleValue(amount: real, px: bool)

  /** `Math.min(elapsed / duration, 1)`. */
  function Progress(elapsed: real, duration: real): (p: real)
    requires duration > 0.0
    ensures p <= 1.0
    ensures p == 1.0 <==> elapsed >= duration
    ensures 0.0 <= elapsed ==> 0.0 <= p
  {
    var q := elapsed / duration;
    assert q < 1.0 <==> elapsed < duration by {
      assert elapsed == q * duration;
      if q < 1.0 {
        assert q * duration < 1.0 * duration;
      } else {
        assert q * duration >= 1.0 * duration;
      }
    }
    if q < 1.0 then q else 1.0
  }

  /** `parseFloat(getComputedStyle(element)[prop]) || 0`: a property the host cannot read as a number starts at 0. */
  function StartValue(computed: map<string, real>, prop: string): real {
    if prop in computed then computed[prop] else 0.0
  }

  /** `prop.includes('opacity') ? '' : 'px'`: whether the written value carries the `px` unit. */
  predicate InPixels(prop: string) {
    !Contains(prop, "opacity")
  }

  function Interpolate(from: real, to: real, eased: real): real {
    from + (to - from) * eased
  }

  /** The style one `animateStep` writes for the given (clamped) progress. */
  function Frame(computed: map<string, real>, props: map<string, real>, curve: Curve, progress: real): (style: map<string, StyleValue>)
    ensures style.Keys == props.Keys
  {
    map p | p in props :: StyleValue(Interpolate(StartValue(computed, p), props[p], Ease(curve, progress)), InPixels(p))
  }

  /** The style written from the start values captured before the first frame is that frame's `Frame`. */
  lemma FrameFromStartValues(computed: map<string, real>, props: map<string, real>, curve: Curve, progress: real,
                             startValues: map<string, real>, style: map<string, StyleValue>)
    requires startValues == map p | p in props :: StartValue(computed, p)
    requires style == map p | p in props :: StyleValue(Interpolate(startValues[p], props[p], Ease(curve, progress)), InPixels(p))
    ensures style == Frame(computed, props, curve, progress)
  {
  }

  /** At full progress every animated property sits exactly on its end value. */
  lemma FrameAtEnd(computed: map<string, real>, props: map<string, real>, curve: Curve)
    ensures forall p :: p in props ==> Frame(computed, props, curve, 1.0)[p].amount == props[p]
  {
    Endpoints(curve);
  }

  /** Before the end every property lies between its start value and its end value. */
  lemma FrameBetween(computed: map<string, real>, props: map<string, real>, curve: Curve, progress: real, p: string)
    requires 0.0 <= progress <= 1.0 && p in props
    ensures var a, b, v := StartValue(computed, p), props[p], Frame(computed, props, curve, progress)[p].amount;
      (a <= b ==> a <= v <= b) && (b <= a ==> b <= v <= a)
  {
    var e := Ease(curve, progress);
    InUnitRange(curve, progress);
    var a, b := StartValue(computed, p), props[p];
    assert Interpolate(a, b, e) == a + (b - a) * e;
    if a <= b {
      ProductNonneg(b - a, e);
      ProductNonneg(b - a, 1.0 - e);
      assert b - Interpolate(a, b, e) == (b - a) * (1.0 - e);
    } else {
      ProductNonneg(a - b, e);
      ProductNonneg(a - b, 1.0 - e);
      assert Interpolate(a, b, e) - b == (a - b) * (1.0 - e);
    }
  }

  /**
   * `AnimationUtils.animate`: one pass of `animateStep` per entry of `clock`
   * (the elapsed time at that frame). Each frame writes every property; a new
   * frame is requested only while progress is below 1, so the run stops at the
   * first frame whose elapsed time reaches `duration`, and from then on every
   * property holds its end value. `frames` is how many entries were consumed.
   */
  method Animate(computed: map<string, real>, props: map<string, real>, duration: real, curve: Curve, clock: seq<real>)
    returns (style: map<string, StyleValue>, frames: nat)
    requires duration > 0.0
    ensures frames <= |clock|
    ensures forall i :: 0 <= i < frames - 1 ==> clock[i] < duration
    ensures frames < |clock| ==> 0 < frames && clock[frames - 1] >= duration
    ensures frames == 0 <==> clock == []
    ensures 0 < frames ==> style == Frame(computed, props, curve, Progress(clock[frames - 1], duration))
    ensures (exists i :: 0 <= i < |clock| && clock[i] >= duration) ==>
      style.Keys == props.Keys && forall p :: p in props ==> style[p].amount == props[p]
  {
    var startValues := map p | p in props :: StartValue(computed, p);
    style, frames := map[], 0;
    var running := true;
    while running && frames < |clock|
      invariant frames <= |clock|
      invariant forall i :: 0 <= i < frames - 1 ==> clock[i] < duration
      invariant running ==> forall i :: 0 <= i < frames ==> clock[i] < duration
      invariant !running ==> 0 < frames && clock[frames - 1] >= duration
      invariant 0 < frames ==> style == Frame(computed, props, curve, Progress(clock[frames - 1], duration))
    {
      var progress := Progress(clock[frames], duration);
      var eased := Ease(curve, progress);
      style := map p | p in props :: StyleValue(Interpolate(startValues[p], props[p], eased), InPixels(p));
      FrameFromStartValues(computed, props, curve, progress, startValues, style);
      frames := frames + 1;
      running := progress < 1.0;
    }
    if exists i :: 0 <= i < |clock| && clock[i] >= duration {
      FrameAtEnd(computed, props, curve);
    }
  }

  /** `Math.round`: the nearest integer, halves rounded up. */
  function Round(x: real): (n: int)
    ensures x - 0.5 < n as real <= x + 0.5
  {
    (x + 0.5).Floor
  }

  /** Duration of the price tween, in ms. */
  const PriceDuration: real := 500.0

  /** The price one frame of `animatePrice` computes between two parsed prices. */
  function PriceAt(from: int, to: int, elapsed: real): int {
    Round(from as real + (to - from) as real * Progress(elapsed, PriceDuration))
  }

  /**
   * The text one frame writes. The prices come from `parseInt` of
   * `data-monthly` and `data-yearly`; if either does not parse, the arithmetic
   * gives NaN on every frame.
   */
  function PriceFrame(from: Option<int>, to: Option<int>, elapsed: real): Shown {
    if from.Some? && to.Some? then Number(PriceAt(from.value, to.value, elapsed)) else NotANumber
  }

  /** Every frame from a non-negative elapsed time shows a price between the two end prices. */
  lemma PriceBetween(from: int, to: int, elapsed: real)
    requires 0.0 <= elapsed
    ensures from <= to ==> from <= PriceAt(from, to, elapsed) <= to
    ensures to <= from ==> to <= PriceAt(from, to, elapsed) <= from
  {
    var p := Progress(elapsed, PriceDuration);
    var x := from as real + (to - from) as real * p;
    if from <= to {
      ProductNonneg((to - from) as real, p);
      ProductNonneg((to - from) as real, 1.0 - p);
      assert to as real - x == (to - from) as real * (1.0 - p);
    } else {
      ProductNonneg((from - to) as real, p);
      ProductNonneg((from - to) as real, 1.0 - p);
      assert x - to as real == (from - to) as real * (1.0 - p);
    }
  }

  /**
   * `animatePrice`: the first frame runs synchronously, then one frame per
   * entry of `clock` while progress is below 1. `shown` holds the text written
   * by each frame. With both prices parsed, every frame lies between them and
   * the last one, once 500 ms have elapsed, is exactly `to`; otherwise every
   * frame shows NaN.
   */
  method AnimatePrice(from: Option<int>, to: Option<int>, clock: seq<real>) returns (shown: seq<Shown>)
    ensures |shown| <= |clock|
    ensures forall i :: 0 <= i < |shown| ==> shown[i] == PriceFrame(from, to, clock[i])
    ensures forall i :: 0 <= i < |shown| - 1 ==> clock[i] < PriceDuration
    ensures |shown| < |clock| ==> shown != [] && clock[|shown| - 1] >= PriceDuration
    ensures from.Some? && to.Some? && shown != [] && clock[|shown| - 1] >= PriceDuration ==>
      shown[|shown| - 1] == Number(to.value)
    ensures from.Some? && to.Some? ==> forall i :: 0 <= i < |shown| && 0.0 <= clock[i] ==>
      shown[i].Number? && (from.value <= to.value ==> from.value <= shown[i].n <= to.value)
      && (to.value <= from.value ==> to.value <= shown[i].n <= from.value)
    ensures from.None? || to.None? ==> forall i :: 0 <= i < |shown| ==> shown[i] == NotANumber
  {
    shown := [];
    var running := true;
    while running && |shown| < |clock|
      invariant |shown| <= |clock|
      invariant forall i :: 0 <= i < |shown| ==> shown[i] == PriceFrame(from, to, clock[i])
      invariant forall i :: 0 <= i < |shown| - 1 ==> clock[i] < PriceDuration
      invariant running ==> forall i :: 0 <= i < |shown| ==> clock[i] < PriceDuration
      invariant !running ==> shown != [] && clock[|shown| - 1] >= PriceDuration
    {
      var progress := Progress(clock[|shown|], PriceDuration);
      var current := if from.Some? && to.Some? then Number(Round(from.value as real + (to.value - from.value) as real * progress)) else NotANumber;
      shown := shown + [current];
      running := progress < 1.0;
    }
    if from.Some? && to.Some? {
      forall i | 0 <= i < |shown| && 0.0 <= clock[i]
        ensures (from.value <= to.value ==> from.value <= shown[i].n <= to.value) && (to.value <= from.value ==> to.value <= shown[i].n <= from.value)
      {
        PriceBetween(from.value, to.value, clock[i]);
      }
    }
  }

  /** The pricing toggle: checked tweens each amount from its monthly to its yearly price, unchecked the other way. */
  function ToggleTween<T(==)>(checked: bool, monthly: T, yearly: T): (fromTo: (T, T))
    ensures fromTo.1 == (if checked then yearly else monthly)
    ensures {fromTo.0, fromTo.1} == {monthly, yearly}
  {
    if checked then (monthly, yearly) else (yearly, monthly)
  }

  /** Switching the toggle back starts from the price the previous switch ended on and returns to where that one began. */
  lemma ToggleReverses(checked: bool, monthly: Option<int>, yearly: Option<int>)
    ensures ToggleTween(!checked, monthly, yearly) == (ToggleTween(checked, monthly, yearly).1, ToggleTween(checked, monthly, yearly).0)
  {
  }

  /** `AnimationUtils.shake`: six horizontal keyframes that swing by `intensity` each way and return to rest. */
  function ShakeKeyframes(intensity: real): (frames: seq<Transform>)
    ensures |frames| == 6 && IsIdentity(frames[0]) && IsIdentity(frames[5])
    ensures forall k :: 0 <= k < 6 ==> frames[k].Translate? && frames[k].y == 0.0
    ensures forall k :: 1 <= k < 5 ==> frames[k].x == (if k % 2 == 1 then -intensity else intensity)
  {
    [TranslateX(0.0), TranslateX(-intensity), TranslateX(intensity), TranslateX(-intensity), TranslateX(intensity), TranslateX(0.0)]
  }
}

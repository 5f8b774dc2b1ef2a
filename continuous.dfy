/**
 * The continuous effects of `AnimationController` (scripts/animations.js) and
 * the counters of scripts/main.js: count-up, typewriter, morphing shapes and
 * scroll parallax. Each `requestAnimationFrame` or `setTimeout` re-entry is one
 * loop iteration or one method call.
 */
module Continuous {
  import opened Wrappers
  import opened Strings
  import opened Styles
  import opened Visibility

  /** Frames per count-up: a 2000 ms run at 16 ms per frame. */
  const CountFrames: real := 2000.0 / 16.0

  /**
   * The values a count-up writes, frame by frame, in closed form: for a
   * positive target, frames 1 to 124 show floor(k × target / 125) and frame 125
   * shows the target; any other target is written at once.
   */
  function CountUpWrites(target: Option<int>): seq<Shown> {
    match target
    case None => [NotANumber]
    case Some(t) =>
      if t > 0 then seq(124, k requires 0 <= k < 124 => Number(Counted(t, k + 1))) + [Number(t)]
      else [Number(t)]
  }

  /** The floored running value after `frames` increments of target / 125. */
  function Counted(t: int, frames: nat): int {
    (frames as real * (t as real / CountFrames)).Floor
  }

  /** Before the 125th frame the running value of a positive count stays below the target. */
  lemma CountedBelow(t: int, frames: nat)
    requires t > 0 && frames < 125
    ensures 0 <= Counted(t, frames) < t
  {
    var inc := t as real / CountFrames;
    assert frames as real * inc < 125.0 * inc;
  }

  /** The floored running value of a positive count never goes down. */
  lemma CountedGrows(t: int, a: nat, b: nat)
    requires t > 0 && a <= b
    ensures Counted(t, a) <= Counted(t, b)
  {
    var inc := t as real / CountFrames;
    assert b as real * inc - a as real * inc == (b - a) as real * inc;
  }

  /**
   * `animateCounter` (both copies): `start += increment` each frame; while
   * below the target the floored value is written and another frame requested,
   * otherwise the exact target is written and the loop ends.
   */
  method CountUp(target: Option<int>) returns (writes: seq<Shown>)
    ensures writes == CountUpWrites(target)
  {
    if target.None? {
      // NaN arithmetic: `NaN < NaN` is false, so the first frame writes the target itself.
      return [NotANumber];
    }
    var t := target.value;
    var increment := t as real / CountFrames;
    var start := 0.0;
    writes := [];
    var done := false;
    while !done
      invariant start == |writes| as real * increment
      invariant !done ==> |writes| < 125 && (t <= 0 ==> writes == [])
      invariant !done ==> forall k :: 0 <= k < |writes| ==> writes[k] == Number(Counted(t, k + 1))
      invariant done ==> writes == CountUpWrites(target)
      decreases if done then 0 else 125 - |writes|
    {
      ghost var n := |writes| + 1;
      start := start + increment;
      assert start == n as real * increment;
      if start < t as real {
        if t > 0 {
          assert n as real * t as real < 125.0 * t as real;
        }
        assert t > 0 && n < 125;
        writes := writes + [Number(start.Floor)];
      } else {
        if t > 0 {
          assert n == 125 by {
            assert 125.0 * increment == t as real;
            assert (n as real - 125.0) * increment >= 0.0;
            NonnegativeFactor(n as real - 125.0, increment);
          }
          assert writes == CountUpWrites(target)[..124];
        }
        writes := writes + [Number(t)];
        done := true;
      }
    }
  }

  lemma NonnegativeFactor(x: real, y: real)
    requires y > 0.0 && x * y >= 0.0
    ensures x >= 0.0
  {
  }

  /** A count-up to a positive target takes 125 frames, never shows the target early, never goes down, and ends exactly on it. */
  lemma CountUpPositive(t: int)
    requires t > 0
    ensures var w := CountUpWrites(Some(t));
      && |w| == 125
      && w[124] == Number(t)
      && (forall k :: 0 <= k < |w| ==> w[k].Number?)
      && (forall k :: 0 <= k < 124 ==> 0 <= w[k].n < t)
      && (forall i, j :: 0 <= i <= j < |w| ==> w[i].n <= w[j].n)
  {
    var w := CountUpWrites(Some(t));
    forall k | 0 <= k < 124
      ensures 0 <= w[k].n < t
    {
      CountedBelow(t, k + 1);
    }
    forall i, j | 0 <= i <= j < |w|
      ensures w[i].n <= w[j].n
    {
      if j < 124 {
        CountedGrows(t, i + 1, j + 1);
      } else if i < 124 {
        CountedBelow(t, i + 1);
      }
    }
  }

  /** A target of zero or below is written at once, exactly. */
  lemma CountUpNonPositive(t: int)
    requires t <= 0
    ensures CountUpWrites(Some(t)) == [Number(t)]
  {
  }

  /** The `data-count` attribute of an element, as `parseInt` reads it. */
  function CountAttr(counts: map<Element, Option<int>>, el: Element): Option<int> {
    if el in counts then counts[el] else None
  }

  /**
   * The counter observer's callback for one entry (scripts/main.js and
   * scripts/animations.js alike): an intersecting, still observed counter
   * starts counting and is unobserved; anything else writes nothing.
   */
  method OnCounterEntry(observer: OneShotObserver, counts: map<Element, Option<int>>, entry: Entry) returns (writes: seq<Shown>)
    modifies observer
    ensures var fire := entry.isIntersecting && entry.target in old(observer.observed);
      && writes == (if fire then CountUpWrites(CountAttr(counts, entry.target)) else [])
      && observer.observed == (if fire then old(observer.observed) - {entry.target} else old(observer.observed))
  {
    var fire := observer.Deliver(entry);
    writes := [];
    if fire {
      writes := CountUp(CountAttr(counts, entry.target));
    }
  }

  /**
   * The typewriter's visible text as UTF-16 code units (`textContent` grows by
   * one `charAt` per call), how many units it has typed, and whether the caret
   * still blinks.
   */
  datatype TypewriterState = TypewriterState(shown: seq<int>, index: nat, caret: bool)

  /** One `typeText` call: append the next code unit, or stop the caret once all are shown. */
  function TypeStep(units: seq<int>, s: TypewriterState): TypewriterState {
    if s.index < |units| then TypewriterState(s.shown + [units[s.index]], s.index + 1, s.caret)
    else s.(caret := false)
  }

  /** The state after `k` calls of `typeText`, starting from the cleared element with a blinking caret. */
  function AfterSteps(units: seq<int>, k: nat): TypewriterState {
    if k == 0 then TypewriterState([], 0, true) else TypeStep(units, AfterSteps(units, k - 1))
  }

  function Min(a: nat, b: nat): nat { if a < b then a else b }

  /**
   * After k calls the element shows the first k code units of the captured
   * text (all of them once k reaches `text.length`), and the caret blinks until
   * the call after the last unit.
   */
  lemma {:induction false} TypedPrefix(units: seq<int>, k: nat)
    ensures AfterSteps(units, k) == TypewriterState(units[..Min(k, |units|)], Min(k, |units|), k <= |units|)
  {
    if k > 0 {
      TypedPrefix(units, k - 1);
      if k - 1 < |units| {
        assert units[..k - 1] + [units[k - 1]] == units[..k];
      }
    }
  }

  /** Once the whole text is shown, further calls append nothing. */
  lemma TypingStops(units: seq<int>, k: nat)
    requires k > |units|
    ensures AfterSteps(units, k) == TypewriterState(units, |units|, false)
    ensures AfterSteps(units, |units|).shown == units
  {
    TypedPrefix(units, k);
    TypedPrefix(units, |units|);
  }

  /**
   * Typing counts UTF-16 units, not characters: "Hi \U{1F44B}" takes five calls, and
   * after the fourth the element ends in a lone high surrogate.
   */
  lemma TypingSplitsSurrogates()
    ensures |Utf16("Hi \U{1F44B}")| == 5
    ensures var s := AfterSteps(Utf16("Hi \U{1F44B}"), 4).shown;
      |s| == 4 && 0xD800 <= s[3] < 0xDC00
  {
    var units := Utf16("Hi \U{1F44B}");
    assert units == [0x48, 0x69, 0x20, 0xD83D, 0xDC4B];
    TypedPrefix(units, 4);
  }

  /** Delay before the first character, in ms. */
  const TypeStartDelay: int := 500

  /** A `[data-typewriter]` element: its captured text in code units, its per-unit delay and its typing state. */
  class Typewriter {
    const text: seq<int>
    const speed: int
    var shown: seq<int>
    var index: nat
    var caret: bool
    var observed: bool
    /** The delay of the `typeText` callback waiting to run, if any. */
    var scheduled: Option<int>
    ghost var steps: nat

    ghost predicate Valid()
      reads this
    {
      TypewriterState(shown, index, caret) == AfterSteps(text, steps)
    }

    /** The scan: capture the text, clear the element and show the blinking caret. */
    constructor (content: string, speedAttr: Option<int>)
      ensures Valid() && text == Utf16(content) && |text| == Utf16Length(content) && speed == IntOr(speedAttr, 100)
      ensures shown == [] && caret && observed && scheduled == None && steps == 0
    {
      text, speed := Utf16(content), IntOr(speedAttr, 100);
      shown, index, caret := [], 0, true;
      observed, scheduled, steps := true, None, 0;
    }

    /** The observer callback: the first intersecting entry schedules typing after 500 ms and unobserves. */
    method OnEntry(isIntersecting: bool)
      modifies this
      ensures shown == old(shown) && index == old(index) && caret == old(caret) && steps == old(steps)
      ensures if isIntersecting && old(observed) then scheduled == Some(TypeStartDelay) && !observed
              else scheduled == old(scheduled) && observed == old(observed)
    {
      if isIntersecting && observed {
        scheduled := Some(TypeStartDelay);
        observed := false;
      }
    }

    /** `typeText`: append one code unit and reschedule after `speed` ms, or switch the caret off and stop. */
    method TypeText()
      requires Valid() && scheduled.Some?
      modifies this
      ensures Valid() && steps == old(steps) + 1
      ensures scheduled == if old(index) < |text| then Some(speed) else None
      ensures observed == old(observed)
    {
      if index < |text| {
        shown := shown + [text[index]];
        index := index + 1;
        scheduled := Some(speed);
      } else {
        caret := false;
        scheduled := None;
      }
      steps := steps + 1;
    }
  }

  /** Cycle length of the i-th morphing orb, in ms. */
  function MorphDuration(i: nat): int {
    8000 + 2000 * i
  }

  /** Later orbs cycle strictly more slowly, so no two orbs stay in step. */
  lemma MorphDurationsIncrease(i: nat, j: nat)
    requires i < j
    ensures 8000 <= MorphDuration(i) < MorphDuration(j)
  {
  }

  /** The border-radius keyframes of one morph cycle. */
  const MorphKeyframes: seq<string> := [
    "50%",
    "30% 70% 70% 30% / 30% 30% 70% 70%",
    "70% 30% 30% 70% / 70% 70% 30% 30%",
    "50%"
  ]

  /** The cycle starts and ends on the round shape, so repeating it forever never jumps; in between it passes through two mirrored blobs. */
  lemma MorphCycleCloses()
    ensures |MorphKeyframes| == 4 && MorphKeyframes[0] == MorphKeyframes[3] == "50%"
    ensures MorphKeyframes[1] != MorphKeyframes[2]
  {
  }

  /**
   * One orb's endless morph animation. Playing starts with `shape.animate`;
   * the observer plays it while the orb intersects and pauses it otherwise.
   * `currentTime` is where the animation's own timeline stands: it advances
   * only while playing, so a pause freezes it and a play resumes from there.
   */
  class Morph {
    const keyframes: seq<string>
    const duration: int
    var playing: bool
    var currentTime: real

    constructor (i: nat)
      ensures keyframes == MorphKeyframes && duration == MorphDuration(i) && playing && currentTime == 0.0
    {
      keyframes, duration, playing, currentTime := MorphKeyframes, MorphDuration(i), true, 0.0;
    }

    method OnEntry(isIntersecting: bool)
      modifies this
      ensures playing == isIntersecting && currentTime == old(currentTime)
    {
      playing := isIntersecting;
    }

    method Elapse(dt: real)
      requires dt >= 0.0
      modifies this
      ensures playing == old(playing)
      ensures currentTime == old(currentTime) + (if playing then dt else 0.0)
    {
      if playing {
        currentTime := currentTime + dt;
      }
    }
  }

  /** Vertical offset, in px, of the i-th gradient orb at scroll position `scrolled`. */
  function OrbOffset(i: nat, scrolled: real): real {
    -(scrolled * ((i + 1) as real * 0.5))
  }

  /** Each orb moves at (i + 1) times the first orb's rate; scrolled down, later orbs move further up. */
  lemma OrbsMoveAtTheirRate(i: nat, j: nat, scrolled: real)
    requires i <= j && 0.0 <= scrolled
    ensures OrbOffset(i, scrolled) == (i + 1) as real * OrbOffset(0, scrolled)
    ensures OrbOffset(j, scrolled) <= OrbOffset(i, scrolled) <= 0.0
  {
    assert OrbOffset(j, scrolled) - OrbOffset(i, scrolled) == -(scrolled * ((j - i) as real * 0.5));
  }

  /** The scroll listener of `initParallaxEffects`: every orb's transform is recomputed from the current scroll alone. */
  method OnScroll(orbs: array<Transform>, scrolled: real)
    modifies orbs
    ensures forall i :: 0 <= i < orbs.Length ==> orbs[i] == TranslateY(OrbOffset(i, scrolled))
  {
    var i := 0;
    while i < orbs.Length
      invariant i <= orbs.Length
      invariant forall k :: 0 <= k < i ==> orbs[k] == TranslateY(OrbOffset(k, scrolled))
    {
      var speed := (i + 1) as real * 0.5;
      orbs[i] := TranslateY(-(scrolled * speed));
      i := i + 1;
    }
  }
}

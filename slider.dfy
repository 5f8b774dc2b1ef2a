/**
 * The testimonial slider of scripts/main.js (`initTestimonialSlider`): the
 * `currentSlide` index, the 'active' class on one card and one dot, swipe
 * navigation and the auto-advance interval.
 */
module Slider {

  /** `currentSlide`: an integer index, or NaN once `% 0` has been taken with no cards. */
  datatype Index = At(i: int) | NaN

  /** JavaScript's `%` on integers: the remainder takes the sign of the dividend. */
  function JsRem(a: int, b: int): (r: int)
    requires b != 0
    ensures a >= 0 && b > 0 ==> r == a % b
  {
    var m := if b < 0 then -b else b;
    if a >= 0 then a % m else -((-a) % m)
  }

  /** `nextSlide`'s index: `(currentSlide + 1) % cards.length`, NaN when there are no cards. */
  function Next(current: Index, n: nat): Index {
    match current
    case NaN => NaN
    case At(i) => if n == 0 then NaN else At(JsRem(i + 1, n))
  }

  /** The swipe-back index: `currentSlide === 0 ? cards.length - 1 : currentSlide - 1`. */
  function Prev(current: Index, n: nat): Index {
    match current
    case NaN => NaN
    case At(i) => if i == 0 then At(n - 1) else At(i - 1)
  }

  /** With at least one card, advancing from any index reached by the slider lands in [0, n), wrapping the last card to the first. */
  lemma NextStaysInRange(i: int, n: nat)
    requires n >= 1 && i >= -1
    ensures Next(At(i), n) == At((i + 1) % n)
    ensures 0 <= Next(At(i), n).i < n
    ensures i == n - 1 ==> Next(At(i), n) == At(0)
  {
  }

  /** Going back undoes going forward, and going forward undoes going back, on every card index. */
  lemma PrevNextInverse(i: int, n: nat)
    requires 0 <= i < n
    ensures Prev(Next(At(i), n), n) == At(i)
    ensures Next(Prev(At(i), n), n) == At(i)
  {
    if i == n - 1 {
      assert (i + 1) % n == 0;
    } else {
      assert (i + 1) % n == i + 1;
    }
    if i == 0 {
      assert (n - 1 + 1) % n == 0;
    } else {
      assert (i - 1 + 1) % n == i;
    }
  }

  /** The set of card (or dot) indices carrying 'active' after `showSlide(index)`. */
  function ActiveAfterShow(index: Index, cards: nat, dots: nat): (active: set<nat>)
    ensures |active| <= 1
    ensures forall k: nat :: k in active <==> index == At(k) && k < cards && k < dots
  {
    if index.At? && 0 <= index.i < cards && index.i < dots then {index.i as nat} else {}
  }

  /** What a touch does: forward on a leftward drag over 50px, back on a rightward one, nothing otherwise. */
  datatype Swipe = Forward | Back | Stay

  function SwipeOf(touchStartX: real, touchEndX: real): (s: Swipe)
    ensures s == Stay <==> -50.0 <= touchStartX - touchEndX <= 50.0
    ensures s == Forward <==> touchStartX - touchEndX > 50.0
    ensures s == Back <==> touchStartX - touchEndX < -50.0
  {
    var diff := touchStartX - touchEndX;
    var magnitude := if diff < 0.0 then -diff else diff;
    if magnitude > 50.0 then (if diff > 0.0 then Forward else Back) else Stay
  }

  /**
   * The auto-advance intervals: the set of live interval ids, `slideInterval`
   * (the id last stored, 0 for undefined) and the id the host hands out next.
   */
  datatype AutoSlide = AutoSlide(live: set<nat>, handle: nat, nextId: nat)

  predicate FreshAbove(t: AutoSlide) {
    t.nextId > 0 && t.handle < t.nextId && forall h :: h in t.live ==> 0 < h < t.nextId
  }

  /** `startAutoSlide` as written: a new interval, stored over the old id without clearing it. */
  function StartAsWritten(t: AutoSlide): AutoSlide {
    AutoSlide(t.live + {t.nextId}, t.nextId, t.nextId + 1)
  }

  /** `stopAutoSlide`: clear the interval whose id is stored, if any. */
  function Stop(t: AutoSlide): AutoSlide {
    if t.handle != 0 then t.(live := t.live - {t.handle}) else t
  }

  /** The start the slider evidently intends on touch end: clear the stored interval, then start one. */
  function Restart(t: AutoSlide): AutoSlide {
    StartAsWritten(Stop(t))
  }

  /** At most one interval runs, and it is the one whose id is stored. */
  predicate SingleInterval(t: AutoSlide) {
    FreshAbove(t) && t.live <= {t.handle}
  }

  /** Stopping and restarting keep a single interval running. */
  lemma RestartKeepsSingle(t: AutoSlide)
    requires SingleInterval(t)
    ensures SingleInterval(Stop(t)) && Stop(t).live == {}
    ensures SingleInterval(Restart(t)) && |Restart(t).live| == 1
  {
    assert Restart(t).live == {t.nextId};
  }

  /** Every interval operation keeps the ids below the next one the host hands out. */
  lemma TimersStayFresh(t: AutoSlide)
    requires FreshAbove(t)
    ensures FreshAbove(Stop(t)) && FreshAbove(StartAsWritten(t)) && FreshAbove(Restart(t))
    ensures StartAsWritten(t).live == t.live + {t.nextId} && t.nextId !in t.live
  {
  }

  /**
   * As written, a two-finger touch (two `touchstart`, then two `touchend`)
   * leaves two intervals running, so the slides then advance twice per period.
   */
  lemma TwoFingerTouchLeaksInterval()
    ensures var t0 := StartAsWritten(AutoSlide({}, 0, 1));
      var t := StartAsWritten(StartAsWritten(Stop(Stop(t0))));
      SingleInterval(t0) && !SingleInterval(t) && t.live == {2, 3}
  {
  }

  /** The slider: its cards and dots, the shown index, the 'active' classes, the touch origin and its interval. */
  class TestimonialSlider {
    const cards: nat
    const dots: nat
    var current: Index
    var activeCards: set<nat>
    var activeDots: set<nat>
    var touchStartX: real
    var timers: AutoSlide

    ghost predicate Valid()
      reads this
    {
      FreshAbove(timers)
    }

    /** Set-up: index 0, classes as the markup has them, auto-advance only with more than one card. */
    constructor (cards: nat, dots: nat, activeCards: set<nat>, activeDots: set<nat>)
      ensures Valid()
      ensures this.cards == cards && this.dots == dots && current == At(0) && touchStartX == 0.0
      ensures this.activeCards == activeCards && this.activeDots == activeDots
      ensures |timers.live| == (if cards > 1 then 1 else 0)
      ensures SingleInterval(timers)
      ensures cards > 1 ==> timers.live == {timers.handle}
      ensures cards <= 1 ==> timers.live == {}
    {
      this.cards, this.dots := cards, dots;
      current, touchStartX := At(0), 0.0;
      this.activeCards, this.activeDots := activeCards, activeDots;
      var idle := AutoSlide({}, 0, 1);
      timers := if cards > 1 then StartAsWritten(idle) else idle;
    }

    /** `showSlide(index)`: clear 'active' everywhere, mark the card and dot at `index` if both exist, record the index. */
    method ShowSlide(index: Index)
      modifies this
      ensures current == index
      ensures activeCards == ActiveAfterShow(index, cards, dots) && activeDots == ActiveAfterShow(index, cards, dots)
      ensures timers == old(timers) && touchStartX == old(touchStartX)
    {
      activeCards, activeDots := {}, {};
      if index.At? && 0 <= index.i < cards && index.i < dots {
        activeCards, activeDots := {index.i as nat}, {index.i as nat};
      }
      current := index;
    }

    /** `nextSlide`, also the body of the auto-advance interval. */
    method NextSlide()
      modifies this
      ensures current == Next(old(current), cards)
      ensures activeCards == ActiveAfterShow(current, cards, dots) && activeDots == activeCards
      ensures timers == old(timers) && touchStartX == old(touchStartX)
    {
      ShowSlide(Next(current, cards));
    }

    /** A click on dot k: show slide k and restart the interval. */
    method ClickDot(k: nat)
      requires Valid() && k < dots
      modifies this
      ensures Valid()
      ensures current == At(k) && activeCards == ActiveAfterShow(At(k), cards, dots) && activeDots == activeCards
      ensures timers == Restart(old(timers))
      ensures SingleInterval(old(timers)) ==> SingleInterval(timers) && |timers.live| == 1
    {
      ShowSlide(At(k));
      TimersStayFresh(timers);
      if SingleInterval(timers) {
        RestartKeepsSingle(timers);
      }
      timers := Restart(timers);
    }

    /** `touchstart`: remember where the touch began and stop the interval. */
    method TouchStart(x: real)
      requires Valid()
      modifies this
      ensures Valid()
      ensures touchStartX == x && timers == Stop(old(timers))
      ensures current == old(current) && activeCards == old(activeCards) && activeDots == old(activeDots)
    {
      touchStartX := x;
      TimersStayFresh(timers);
      timers := Stop(timers);
    }

    /** The swipe half of `touchend`: forward or back by the drag distance, or nothing for a short drag. */
    method Swipe(x: real)
      modifies this
      ensures current == match SwipeOf(old(touchStartX), x)
        case Stay => old(current)
        case Forward => Next(old(current), cards)
        case Back => Prev(old(current), cards)
      ensures SwipeOf(old(touchStartX), x) != Stay ==> activeCards == ActiveAfterShow(current, cards, dots) && activeDots == activeCards
      ensures SwipeOf(old(touchStartX), x) == Stay ==> activeCards == old(activeCards) && activeDots == old(activeDots)
      ensures timers == old(timers) && touchStartX == old(touchStartX)
    {
      var diff := touchStartX - x;
      var magnitude := if diff < 0.0 then -diff else diff;
      if magnitude > 50.0 {
        if diff > 0.0 {
          NextSlide();
        } else {
          var prev := match current
            case NaN => NaN
            case At(i) => if i == 0 then At(cards - 1) else At(i - 1);
          ShowSlide(prev);
        }
      }
    }

    /**
     * `touchend` as written: swipe, then `startAutoSlide` without clearing the
     * stored interval. After a matching `touchstart` a single interval runs
     * again; after two `touchstart`s and two `touchend`s two intervals run.
     */
    method TouchEnd(x: real)
      requires Valid()
      modifies this
      ensures Valid()
      ensures timers == StartAsWritten(old(timers))
      ensures timers.live == old(timers).live + {old(timers).nextId} && |timers.live| == |old(timers).live| + 1
      ensures current == match SwipeOf(old(touchStartX), x)
        case Stay => old(current)
        case Forward => Next(old(current), cards)
        case Back => Prev(old(current), cards)
      ensures SwipeOf(old(touchStartX), x) != Stay ==> activeCards == ActiveAfterShow(current, cards, dots) && activeDots == activeCards
      ensures SwipeOf(old(touchStartX), x) == Stay ==> activeCards == old(activeCards) && activeDots == old(activeDots)
    {
      Swipe(x);
      TimersStayFresh(timers);
      timers := StartAsWritten(timers);
    }

    /** `touchend` with the evident fix: clear the stored interval before starting one, so exactly one runs afterwards. */
    method TouchEndFixed(x: real)
      requires Valid()
      modifies this
      ensures Valid()
      ensures timers == Restart(old(timers))
      ensures SingleInterval(old(timers)) ==> SingleInterval(timers) && |timers.live| == 1
      ensures current == match SwipeOf(old(touchStartX), x)
        case Stay => old(current)
        case Forward => Next(old(current), cards)
        case Back => Prev(old(current), cards)
      ensures SwipeOf(old(touchStartX), x) != Stay ==> activeCards == ActiveAfterShow(current, cards, dots) && activeDots == activeCards
      ensures SwipeOf(old(touchStartX), x) == Stay ==> activeCards == old(activeCards) && activeDots == old(activeDots)
    {
      Swipe(x);
      TimersStayFresh(timers);
      if SingleInterval(timers) {
        RestartKeepsSingle(timers);
      }
      timers := Restart(timers);
    }
  }
}

/**
 * Entrance effects of `AnimationController` (scripts/animations.js): the
 * fade, slide and scale observers, which never unobserve and so replay on every
 * intersecting entry, and the stagger groups, which fire once.
 * `setTimeout` callbacks are kept as pending reveals, in scheduling order,
 * carrying the delay they were scheduled with.
 */
module Entrance {
  import opened Wrappers
  import opened Styles
  import opened Visibility

  /** `data-animate="fade" | "slide" | "scale"`. */
  datatype Effect = Fade | Slide | Zoom

  /** The inline style an entrance handler writes: opacity, transform and the transition duration in ms. */
  datatype Style = Style(opacity: real, transform: Transform, transitionMs: int)

  /** A scheduled `setTimeout` that will set the target's opacity and transform. */
  datatype Reveal = Reveal(delayMs: int, target: Element, opacity: real, transform: Transform)

  /**
   * The slide start offset for `dataset.direction || 'left'`: 'right' starts
   * 50px right, 'up' 50px low, 'down' 50px high, anything else 50px left.
   */
  function SlideFrom(direction: string): (t: Transform)
    ensures direction == "right" ==> t == TranslateX(50.0)
    ensures direction == "up" ==> t == TranslateY(50.0)
    ensures direction == "down" ==> t == TranslateY(-50.0)
    ensures direction !in {"right", "up", "down"} ==> t == TranslateX(-50.0)
  {
    var transform := TranslateX(-50.0);
    var transform := if direction == "right" then TranslateX(50.0) else transform;
    var transform := if direction == "up" then TranslateY(50.0) else transform;
    if direction == "down" then TranslateY(-50.0) else transform
  }

  /** The element's `data-direction`, with a missing or empty attribute read as 'left'. */
  function Direction(directions: map<Element, string>, el: Element): string {
    if el in directions && directions[el] != "" then directions[el] else "left"
  }

  /** The style applied synchronously when an entry intersects: invisible and displaced. */
  function StartStyle(effect: Effect, direction: string): (s: Style)
    ensures s.opacity == 0.0 && !IsIdentity(s.transform)
  {
    match effect
    case Fade => Style(0.0, TranslateY(30.0), 600)
    case Slide => Style(0.0, SlideFrom(direction), 800)
    case Zoom => Style(0.0, Scale(0.8), 500)
  }

  /** The end-state timer each handler schedules: fully opaque, back in place, after 100, 150 or 200 ms. */
  function RevealOf(effect: Effect, target: Element): (r: Reveal)
    ensures r.target == target && r.opacity == 1.0 && IsIdentity(r.transform)
    ensures 0 < r.delayMs <= 200
  {
    match effect
    case Fade => Reveal(100, target, 1.0, TranslateY(0.0))
    case Slide => Reveal(150, target, 1.0, Translate(0.0, 0.0))
    case Zoom => Reveal(200, target, 1.0, Scale(1.0))
  }

  /** What a reveal writes when it fires: opacity and transform; the transition stays. */
  function ApplyReveal(styles: map<Element, Style>, r: Reveal): map<Element, Style> {
    if r.target in styles then styles[r.target := styles[r.target].(opacity := r.opacity, transform := r.transform)]
    else styles
  }

  /** Styles after a handler has processed a stream of entries. */
  function Restyled(effect: Effect, directions: map<Element, string>, styles: map<Element, Style>, entries: seq<Entry>): map<Element, Style>
    decreases |entries|
  {
    if entries == [] then styles
    else
      var e := entries[0];
      var next := if e.isIntersecting then styles[e.target := StartStyle(effect, Direction(directions, e.target))] else styles;
      Restyled(effect, directions, next, entries[1..])
  }

  /** The reveals a handler schedules for a stream of entries: one per intersecting entry. */
  function Reveals(effect: Effect, entries: seq<Entry>): seq<Reveal>
  {
    if entries == [] then []
    else
      var e := entries[0];
      (if e.isIntersecting then [RevealOf(effect, e.target)] else []) + Reveals(effect, entries[1..])
  }

  /** How many entries of the stream report the target intersecting. */
  function Intersecting(entries: seq<Entry>): nat {
    if entries == [] then 0 else (if entries[0].isIntersecting then 1 else 0) + Intersecting(entries[1..])
  }

  /**
   * The handlers never unobserve: every intersecting entry, for the same
   * element or not, schedules one more reveal, and each reveal ends opaque and
   * in place.
   */
  lemma {:induction false} RevealPerIntersectingEntry(effect: Effect, entries: seq<Entry>)
    ensures |Reveals(effect, entries)| == Intersecting(entries)
    ensures forall k :: 0 <= k < |Reveals(effect, entries)| ==>
      Reveals(effect, entries)[k].opacity == 1.0 && IsIdentity(Reveals(effect, entries)[k].transform)
  {
    if entries != [] {
      RevealPerIntersectingEntry(effect, entries[1..]);
    }
  }

  /** Entries that do not intersect change no style and schedule nothing. */
  lemma {:induction false} HiddenEntriesAreIgnored(effect: Effect, directions: map<Element, string>, styles: map<Element, Style>, entries: seq<Entry>)
    requires forall k :: 0 <= k < |entries| ==> !entries[k].isIntersecting
    ensures Restyled(effect, directions, styles, entries) == styles
    ensures Reveals(effect, entries) == []
  {
    if entries != [] {
      HiddenEntriesAreIgnored(effect, directions, styles, entries[1..]);
    }
  }

  /** After the stream, an element reported intersecting at least once holds the start style again. */
  lemma {:induction false} SeenElementsRestart(effect: Effect, directions: map<Element, string>, styles: map<Element, Style>, entries: seq<Entry>, k: nat)
    requires k < |entries| && entries[k].isIntersecting
    decreases |entries|
    ensures var after := Restyled(effect, directions, styles, entries);
      entries[k].target in after && after[entries[k].target] == StartStyle(effect, Direction(directions, entries[k].target))
  {
    var e := entries[0];
    var next := if e.isIntersecting then styles[e.target := StartStyle(effect, Direction(directions, e.target))] else styles;
    if k == 0 {
      RestyledKeeps(effect, directions, next, entries[1..], e.target);
    } else {
      SeenElementsRestart(effect, directions, next, entries[1..], k - 1);
    }
  }

  /** An element that no entry reports intersecting keeps its style. */
  lemma {:induction false} RestyledKeeps(effect: Effect, directions: map<Element, string>, styles: map<Element, Style>, entries: seq<Entry>, el: Element)
    requires el in styles
    requires forall k :: 0 <= k < |entries| && entries[k].isIntersecting ==> entries[k].target != el || styles[el] == StartStyle(effect, Direction(directions, el))
    ensures var after := Restyled(effect, directions, styles, entries); el in after && after[el] == styles[el]
    decreases |entries|
  {
    if entries != [] {
      var e := entries[0];
      var next := if e.isIntersecting then styles[e.target := StartStyle(effect, Direction(directions, e.target))] else styles;
      RestyledKeeps(effect, directions, next, entries[1..], el);
    }
  }

  /** Once its reveal fires, a started element is fully opaque and in place, with the handler's transition. */
  lemma RevealFinishes(effect: Effect, directions: map<Element, string>, styles: map<Element, Style>, el: Element)
    requires el in styles && styles[el] == StartStyle(effect, Direction(directions, el))
    ensures var s := ApplyReveal(styles, RevealOf(effect, el))[el];
      s.opacity == 1.0 && IsIdentity(s.transform) && s.transitionMs == StartStyle(effect, "left").transitionMs
  {
  }

  /** One of the three `IntersectionObserver`s of `initScrollAnimations`, with the styles it writes. */
  class EntranceObserver {
    const effect: Effect
    const directions: map<Element, string>
    var styles: map<Element, Style>
    var pending: seq<Reveal>

    constructor (effect: Effect, directions: map<Element, string>, styles: map<Element, Style>)
      ensures this.effect == effect && this.directions == directions
      ensures this.styles == styles && pending == []
    {
      this.effect, this.directions := effect, directions;
      this.styles, pending := styles, [];
    }

    /** `handleFadeIn`, `handleSlideIn` or `handleScaleIn` over one batch of entries; nothing is unobserved. */
    method HandleEntries(entries: seq<Entry>)
      modifies this
      ensures styles == Restyled(effect, directions, old(styles), entries)
      ensures pending == old(pending) + Reveals(effect, entries)
    {
      var k := 0;
      while k < |entries|
        invariant k <= |entries|
        invariant Restyled(effect, directions, styles, entries[k..]) == Restyled(effect, directions, old(styles), entries)
        invariant pending + Reveals(effect, entries[k..]) == old(pending) + Reveals(effect, entries)
      {
        assert entries[k..][1..] == entries[k + 1..];
        var entry := entries[k];
        if entry.isIntersecting {
          styles := styles[entry.target := StartStyle(effect, Direction(directions, entry.target))];
          pending := pending + [RevealOf(effect, entry.target)];
        }
        k := k + 1;
      }
    }

    /** The oldest pending timer fires (all of one handler's timers share one delay, so they fire in order). */
    method FireNext()
      requires pending != []
      modifies this
      ensures styles == ApplyReveal(old(styles), old(pending)[0])
      ensures pending == old(pending)[1..]
    {
      styles := ApplyReveal(styles, pending[0]);
      pending := pending[1..];
    }
  }

  /** A stagger group's per-child delay: `parseInt(data-stagger) || 100`. */
  function StaggerDelay(attr: Option<int>): (d: int)
    ensures d != 0
    ensures attr == None || attr == Some(0) ==> d == 100
    ensures attr.Some? && attr.value != 0 ==> d == attr.value
  {
    IntOr(attr, 100)
  }

  /** A child's inline style: animation delay, opacity, transform and, once revealed, the transition. */
  datatype ChildStyle = ChildStyle(animationDelayMs: int, opacity: real, transform: Transform, transitionMs: Option<int>)

  /** A scheduled child reveal: the child's index in document order and its delay. */
  datatype ChildReveal = ChildReveal(delayMs: int, child: nat)

  /** The scan-time style of child `i`: hidden, 20px low, animation delay i × delay. */
  function HiddenChild(i: nat, delay: int): ChildStyle {
    ChildStyle(i * delay, 0.0, TranslateY(20.0), None)
  }

  /** The reveals a group schedules when it fires: child i after i × delay. */
  function Schedule(n: nat, delay: int): (s: seq<ChildReveal>)
    ensures |s| == n
  {
    seq(n, i requires 0 <= i < n => ChildReveal(i * delay, i))
  }

  /** Children are scheduled in document order, evenly spaced by the group delay, the first at once. */
  lemma ScheduleIsEvenlySpaced(n: nat, delay: int)
    ensures forall i :: 0 <= i < n ==> Schedule(n, delay)[i].child == i
    ensures n > 0 ==> Schedule(n, delay)[0].delayMs == 0
    ensures forall i :: 0 < i < n ==> Schedule(n, delay)[i].delayMs - Schedule(n, delay)[i - 1].delayMs == delay
    ensures delay > 0 ==> forall i, j :: 0 <= i < j < n ==> Schedule(n, delay)[i].delayMs < Schedule(n, delay)[j].delayMs
  {
    var s := Schedule(n, delay);
    forall i | 0 < i < n
      ensures s[i].delayMs - s[i - 1].delayMs == delay
    {
      assert s[i].delayMs == i * delay && s[i - 1].delayMs == (i - 1) * delay;
      assert i * delay == (i - 1) * delay + delay;
    }
    if delay > 0 {
      forall i, j | 0 <= i < j < n
        ensures s[i].delayMs < s[j].delayMs
      {
        assert s[i].delayMs == i * delay && s[j].delayMs == j * delay;
        assert j * delay == i * delay + (j - i) * delay;
        assert (j - i) * delay > 0;
      }
    }
  }

  /** A `[data-stagger]` group, its children's styles and the reveals it has scheduled. */
  class StaggerGroup {
    const delay: int
    var children: seq<ChildStyle>
    var observed: bool
    var pending: seq<ChildReveal>

    /** The scan in `initStaggeredAnimations`: every child is hidden up front, with its animation delay. */
    constructor (childCount: nat, staggerAttr: Option<int>)
      ensures delay == StaggerDelay(staggerAttr) && observed && pending == []
      ensures |children| == childCount
      ensures forall i :: 0 <= i < childCount ==> children[i] == HiddenChild(i, delay)
    {
      var d := StaggerDelay(staggerAttr);
      var styled: seq<ChildStyle> := [];
      var i := 0;
      while i < childCount
        invariant i <= childCount && |styled| == i
        invariant forall k :: 0 <= k < i ==> styled[k] == HiddenChild(k, d)
      {
        styled := styled + [HiddenChild(i, d)];
        i := i + 1;
      }
      delay, children, observed, pending := d, styled, true, [];
    }

    /** The group's observer callback for one entry: schedule every child, then `unobserve` the group. */
    method OnEntry(isIntersecting: bool)
      modifies this
      ensures children == old(children)
      ensures if isIntersecting && old(observed) then pending == old(pending) + Schedule(|children|, delay) && !observed
              else pending == old(pending) && observed == old(observed)
    {
      if isIntersecting && observed {
        var i := 0;
        var scheduled: seq<ChildReveal> := [];
        while i < |children|
          invariant i <= |children| && scheduled == Schedule(|children|, delay)[..i]
        {
          scheduled := scheduled + [ChildReveal(i * delay, i)];
          i := i + 1;
        }
        pending := pending + scheduled;
        observed := false;
      }
    }

    /** The k-th pending timer fires: that child gets the 0.6s transition, full opacity and no offset. */
    method Fire(k: nat)
      requires k < |pending|
      modifies this
      ensures pending == old(pending)[..k] + old(pending)[k + 1..]
      ensures var c := old(pending)[k].child;
        children == if c < |old(children)| then old(children)[c := old(children)[c].(transitionMs := Some(600), opacity := 1.0, transform := TranslateY(0.0))] else old(children)
    {
      var c := pending[k].child;
      if c < |children| {
        children := children[c := children[c].(transitionMs := Some(600), opacity := 1.0, transform := TranslateY(0.0))];
      }
      pending := pending[..k] + pending[k + 1..];
    }
  }

  /** A group observes only itself, so over any stream of entries it schedules its children at most once. */
  lemma {:induction false} GroupFiresAtMostOnce(group: Element, entries: seq<Entry>)
    ensures |Fired({group}, entries)| <= 1
  {
    if entries != [] {
      var e := entries[0];
      if e.isIntersecting && e.target == group {
        assert {group} - {e.target} == {};
        NothingFiresWhenNothingObserved(entries[1..]);
      } else {
        GroupFiresAtMostOnce(group, entries[1..]);
      }
    }
  }
}

/**
 * The page-level handlers of scripts/main.js: the navbar scroll class, the
 * hero parallax, feature-card animation delays, the 'aos-animate' observer
 * and the footer information modal.
 */
module Page {
  import opened Wrappers
  import opened Styles
  import opened Visibility
  import Continuous

  /** The navbar's class list after a scroll event at `scrollY`: 'scrolled' is present exactly above 50px; no other class changes. */
  function NavbarClasses(classes: set<string>, scrollY: real): (r: set<string>)
    ensures "scrolled" in r <==> scrollY > 50.0
    ensures r - {"scrolled"} == classes - {"scrolled"}
  {
    if scrollY > 50.0 then classes + {"scrolled"} else classes - {"scrolled"}
  }

  /** Only the latest scroll position matters: a later scroll event overrides whatever an earlier one did. */
  lemma NavbarFollowsLatestScroll(classes: set<string>, y1: real, y2: real)
    ensures NavbarClasses(NavbarClasses(classes, y1), y2) == NavbarClasses(classes, y2)
  {
    var a, b := NavbarClasses(NavbarClasses(classes, y1), y2), NavbarClasses(classes, y2);
    assert a - {"scrolled"} == b - {"scrolled"};
    assert forall c :: c in a <==> c in b by {
      forall c ensures c in a <==> c in b {
        if c != "scrolled" {
          assert c in a <==> c in a - {"scrolled"};
          assert c in b <==> c in b - {"scrolled"};
        }
      }
    }
  }

  /** `scrolled * -0.5`: the hero background's vertical offset. */
  function HeroOffset(scrolled: real): real {
    scrolled * -0.5
  }

  /** The hero background moves exactly like the first gradient orb, and (scrolling down) upwards. */
  lemma HeroMovesLikeFirstOrb(scrolled: real)
    ensures HeroOffset(scrolled) == Continuous.OrbOffset(0, scrolled)
    ensures 0.0 <= scrolled ==> HeroOffset(scrolled) <= 0.0
    ensures HeroOffset(2.0 * scrolled) == 2.0 * HeroOffset(scrolled)
  {
  }

  /** The hero scroll listener: `translateY(rate)` when the hero background exists, nothing otherwise. */
  function HeroTransform(hasBackground: bool, previous: Option<Transform>, scrolled: real): (t: Option<Transform>)
    ensures hasBackground ==> t == Some(TranslateY(HeroOffset(scrolled)))
    ensures !hasBackground ==> t == previous
  {
    if hasBackground then Some(TranslateY(HeroOffset(scrolled))) else previous
  }

  /** The inline style `initScrollAnimations` gives a feature card: `--animation-order` and `animation-delay` in seconds. */
  datatype CardStyle = CardStyle(order: int, delaySeconds: real)

  /** The forEach over `.feature-card`: card i gets order i and a delay of i tenths of a second. */
  method AssignFeatureDelays(cards: array<CardStyle>)
    modifies cards
    ensures forall i :: 0 <= i < cards.Length ==> cards[i] == CardStyle(i, i as real * 0.1)
  {
    for i := 0 to cards.Length
      invariant forall k :: 0 <= k < i ==> cards[k] == CardStyle(k, k as real * 0.1)
    {
      cards[i] := CardStyle(i, i as real * 0.1);
    }
  }

  /** The delays are evenly spaced a tenth of a second apart, so later cards start strictly later. */
  lemma FeatureDelaysStagger(cards: seq<CardStyle>, i: nat, j: nat)
    requires forall k :: 0 <= k < |cards| ==> cards[k] == CardStyle(k, k as real * 0.1)
    requires i < j < |cards|
    ensures cards[i].delaySeconds < cards[j].delaySeconds
    ensures cards[j].delaySeconds - cards[i].delaySeconds == (j - i) as real * 0.1
  {
  }

  /** The elements carrying 'aos-animate' after a run of entries: an intersecting entry adds its target; nothing removes. */
  function AosAnimated(animated: set<Element>, entries: seq<Entry>): set<Element>
    decreases |entries|
  {
    if entries == [] then animated
    else
      var now := if entries[0].isIntersecting then animated + {entries[0].target} else animated;
      AosAnimated(now, entries[1..])
  }

  /** 'aos-animate' is never removed, and an element carries it exactly when it had it or some entry saw it intersecting. */
  lemma {:induction false} AosOnlyAdds(animated: set<Element>, entries: seq<Entry>, el: Element)
    ensures animated <= AosAnimated(animated, entries)
    ensures el in AosAnimated(animated, entries) <==>
      el in animated || exists i :: 0 <= i < |entries| && entries[i].target == el && entries[i].isIntersecting
    decreases |entries|
  {
    if entries != [] {
      var now := if entries[0].isIntersecting then animated + {entries[0].target} else animated;
      AosOnlyAdds(now, entries[1..], el);
      var rest := entries[1..];
      if el in AosAnimated(animated, entries) && el !in animated {
        if el in now {
          assert entries[0].target == el && entries[0].isIntersecting;
        } else {
          var i :| 0 <= i < |rest| && rest[i].target == el && rest[i].isIntersecting;
          assert entries[i + 1] == rest[i];
        }
      }
      if exists i :: 0 <= i < |entries| && entries[i].target == el && entries[i].isIntersecting {
        var i :| 0 <= i < |entries| && entries[i].target == el && entries[i].isIntersecting;
        if i > 0 {
          assert rest[i - 1] == entries[i];
        }
      }
    }
  }

  /** The observer of `initScrollEffects`: every `[data-aos]` element stays observed. */
  class AosObserver {
    var animated: set<Element>

    constructor ()
      ensures animated == {}
    {
      animated := {};
    }

    /** One callback: the forEach over the delivered entries. */
    method HandleEntries(entries: seq<Entry>)
      modifies this
      ensures animated == AosAnimated(old(animated), entries)
    {
      var k := 0;
      while k < |entries|
        invariant k <= |entries|
        invariant AosAnimated(old(animated), entries) == AosAnimated(animated, entries[k..])
      {
        assert entries[k..][1..] == entries[k + 1..];
        if entries[k].isIntersecting {
          animated := animated + {entries[k].target};
        }
        k := k + 1;
      }
    }
  }

  /** The `data-modal` keys with content, each with the title its modal shows. */
  function ModalTitle(key: string): (title: Option<string>)
    ensures title.Some? <==> key in ModalKeys
    ensures title.Some? ==> title.value != ""
  {
    match key
    case "integrations" => Some("Integrations")
    case "about" => Some("About Us")
    case "careers" => Some("Careers")
    case "blog" => Some("Blog")
    case "press" => Some("Press")
    case "help" => Some("Help Center")
    case "docs" => Some("Documentation")
    case "status" => Some("System Status")
    case "privacy" => Some("Privacy Policy")
    case "terms" => Some("Terms of Service")
    case _ => None
  }

  const ModalKeys: set<string> := {"integrations", "about", "careers", "blog", "press", "help", "docs", "status", "privacy", "terms"}

  /**
   * The properties every object literal inherits from `Object.prototype`.
   * Looking one up in `modalContent` finds a truthy value (a function, or the
   * prototype itself for `__proto__`) with no `icon`, `title` or `content`.
   */
  const InheritedNames: set<string> := {
    "constructor", "hasOwnProperty", "isPrototypeOf", "propertyIsEnumerable", "toLocaleString", "toString", "valueOf",
    "__proto__", "__defineGetter__", "__defineSetter__", "__lookupGetter__", "__lookupSetter__"
  }

  /**
   * `modalContent[key]`, read as the title it puts in the body: an own key
   * gives its title, an inherited name the text "undefined", and any other
   * key nothing.
   */
  function ModalLookup(key: string): (title: Option<string>)
    ensures title.Some? <==> key in ModalKeys || key in InheritedNames
    ensures key in ModalKeys ==> title == ModalTitle(key)
    ensures key in InheritedNames ==> title == Some("undefined")
  {
    if key in InheritedNames then Some("undefined") else ModalTitle(key)
  }

  /**
   * The footer information modal. `wired` is false when `#infoModal`,
   * `#infoModalBody` or `#infoModalClose` is missing, in which case no
   * handler is attached. `shown` is the title of the content in the body;
   * `scrollLocked` is `document.body.style.overflow == 'hidden'`.
   */
  class InfoModal {
    const wired: bool
    var active: bool
    var shown: Option<string>
    var scrollLocked: bool

    constructor (wired: bool)
      ensures this.wired == wired && !active && shown == None && !scrollLocked
    {
      this.wired := wired;
      active, shown, scrollLocked := false, None, false;
    }

    /**
     * A click on a `[data-modal]` link: a key that `modalContent` finds fills
     * the body, shows the modal and locks scrolling; any other key does nothing.
     */
    method ClickTrigger(key: string)
      modifies this
      ensures wired && key in ModalKeys ==> active && shown == ModalTitle(key) && scrollLocked
      ensures wired && key in InheritedNames ==> active && shown == Some("undefined") && scrollLocked
      ensures !(wired && (key in ModalKeys || key in InheritedNames)) ==>
        active == old(active) && shown == old(shown) && scrollLocked == old(scrollLocked)
    {
      if wired {
        var content := ModalLookup(key);
        if content.Some? {
          shown := content;
          active := true;
          scrollLocked := true;
        }
      }
    }

    /** `closeInfoModal`: hide the modal and release scrolling; the body keeps its content. */
    method Close()
      modifies this
      ensures !active && !scrollLocked && shown == old(shown)
    {
      active := false;
      scrollLocked := false;
    }

    /** A click on the X button. */
    method ClickClose()
      modifies this
      ensures wired ==> !active && !scrollLocked
      ensures !wired ==> active == old(active) && scrollLocked == old(scrollLocked)
      ensures shown == old(shown)
    {
      if wired {
        Close();
      }
    }

    /** A click inside the modal element: it closes only when the click lands on the backdrop itself. */
    method ClickModal(onBackdrop: bool)
      modifies this
      ensures wired && onBackdrop ==> !active && !scrollLocked
      ensures !(wired && onBackdrop) ==> active == old(active) && scrollLocked == old(scrollLocked)
      ensures shown == old(shown)
    {
      if wired && onBackdrop {
        Close();
      }
    }

    /** A key press anywhere: Escape closes the modal, but only while it is active. */
    method KeyDown(key: string)
      modifies this
      ensures wired && key == "Escape" && old(active) ==> !active && !scrollLocked
      ensures !(wired && key == "Escape" && old(active)) ==> active == old(active) && scrollLocked == old(scrollLocked)
      ensures shown == old(shown)
    {
      if wired && key == "Escape" && active {
        Close();
      }
    }
  }
}

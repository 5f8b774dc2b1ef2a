/**
 * The one-shot visibility trigger shared by the stagger groups, the count-up
 * counters and the typewriter: an IntersectionObserver whose callback runs the
 * effect for an intersecting entry and then calls `unobserve` on its target.
 * Entries are delivered one at a time; the host delivers none for a target it
 * no longer observes.
 */
module Visibility {

  /** Opaque handle to a document element; the model never creates or destroys one. */
  type Element = nat

  /** One IntersectionObserver entry. */
  datatype Entry = Entry(target: Element, isIntersecting: bool)

  /** The elements a one-shot observer fires for, in order, over a stream of entries. */
  function Fired(observed: set<Element>, entries: seq<Entry>): seq<Element>
  {
    if entries == [] then []
    else
      var e := entries[0];
      if e.isIntersecting && e.target in observed then [e.target] + Fired(observed - {e.target}, entries[1..])
      else Fired(observed, entries[1..])
  }

  /** The elements still observed after the stream. */
  function StillObserved(observed: set<Element>, entries: seq<Entry>): set<Element>
  {
    if entries == [] then observed
    else
      var e := entries[0];
      if e.isIntersecting && e.target in observed then StillObserved(observed - {e.target}, entries[1..])
      else StillObserved(observed, entries[1..])
  }

  /** Only observed elements fire, and an element that fired is no longer observed. */
  lemma {:induction false} FiredWereObserved(observed: set<Element>, entries: seq<Entry>)
    ensures forall k :: 0 <= k < |Fired(observed, entries)| ==> Fired(observed, entries)[k] in observed
    ensures forall k :: 0 <= k < |Fired(observed, entries)| ==> Fired(observed, entries)[k] !in StillObserved(observed, entries)
    ensures StillObserved(observed, entries) <= observed
  {
    if entries != [] {
      var e := entries[0];
      if e.isIntersecting && e.target in observed {
        FiredWereObserved(observed - {e.target}, entries[1..]);
      } else {
        FiredWereObserved(observed, entries[1..]);
      }
    }
  }

  /** At most once: whatever the sequence of visibility changes, no element fires twice. */
  lemma {:induction false} FiresAtMostOnce(observed: set<Element>, entries: seq<Entry>)
    ensures forall i, j :: 0 <= i < j < |Fired(observed, entries)| ==> Fired(observed, entries)[i] != Fired(observed, entries)[j]
  {
    if entries != [] {
      var e := entries[0];
      if e.isIntersecting && e.target in observed {
        var rest := observed - {e.target};
        FiresAtMostOnce(rest, entries[1..]);
        FiredWereObserved(rest, entries[1..]);
      } else {
        FiresAtMostOnce(observed, entries[1..]);
      }
    }
  }

  /** At least once: an observed element that is ever reported intersecting fires. */
  lemma {:induction false} FiresWhenSeen(observed: set<Element>, entries: seq<Entry>, k: nat)
    requires k < |entries| && entries[k].isIntersecting && entries[k].target in observed
    ensures entries[k].target in Fired(observed, entries)
  {
    var e := entries[0];
    if e.isIntersecting && e.target in observed {
      if e.target != entries[k].target {
        FiresWhenSeen(observed - {e.target}, entries[1..], k - 1);
      }
    } else {
      FiresWhenSeen(observed, entries[1..], k - 1);
    }
  }

  /** An observer that has already fired for an element ignores every later entry for it. */
  lemma {:induction false} UnobservedNeverFires(observed: set<Element>, entries: seq<Entry>, x: Element)
    requires x !in observed
    ensures x !in Fired(observed, entries)
  {
    if entries != [] {
      var e := entries[0];
      if e.isIntersecting && e.target in observed {
        UnobservedNeverFires(observed - {e.target}, entries[1..], x);
      } else {
        UnobservedNeverFires(observed, entries[1..], x);
      }
    }
  }

  /** An observer with no targets left never fires. */
  lemma {:induction false} NothingFiresWhenNothingObserved(entries: seq<Entry>)
    ensures Fired({}, entries) == []
  {
    if entries != [] {
      NothingFiresWhenNothingObserved(entries[1..]);
    }
  }

  /** The observer object: the set of targets it still observes. */
  class OneShotObserver {
    var observed: set<Element>

    constructor (targets: set<Element>)
      ensures observed == targets
    {
      observed := targets;
    }

    /** The callback for one entry: fire and `unobserve` when the target is intersecting and still observed. */
    method Deliver(entry: Entry) returns (fire: bool)
      modifies this
      ensures fire == (entry.isIntersecting && entry.target in old(observed))
      ensures observed == if fire then old(observed) - {entry.target} else old(observed)
    {
      fire := entry.isIntersecting && entry.target in observed;
      if fire {
        observed := observed - {entry.target};
      }
    }

    /** Deliver a stream of entries, one by one, collecting the targets that fired. */
    method DeliverAll(entries: seq<Entry>) returns (fired: seq<Element>)
      modifies this
      ensures fired == Fired(old(observed), entries)
      ensures observed == StillObserved(old(observed), entries)
    {
      fired := [];
      var k := 0;
      while k < |entries|
        invariant k <= |entries|
        invariant fired + Fired(observed, entries[k..]) == Fired(old(observed), entries)
        invariant StillObserved(observed, entries[k..]) == StillObserved(old(observed), entries)
      {
        assert entries[k..][1..] == entries[k + 1..];
        var fire := Deliver(entries[k]);
        if fire {
          fired := fired + [entries[k].target];
        }
        k := k + 1;
      }
    }
  }
}

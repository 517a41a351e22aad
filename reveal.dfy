/** Reveal-on-scroll: `.reveal` elements gain `active` once their top is far
    enough inside the viewport, and never lose it. */
module ScrollReveal {

  /** Pixels above the viewport's bottom edge an element's top must pass. */
  const RevealPoint := 100

  /** One frame's measurements: each element's bounding top, in the order of
      the element list, and the viewport height. */
  datatype Measure = Measure(tops: seq<int>, viewportHeight: int)

  predicate InView(top: int, viewportHeight: int) {
    top < viewportHeight - RevealPoint
  }

  /** revealOnScroll over the element list, as a function of the old classes. */
  function RevealFrame(was: seq<bool>, m: Measure): (r: seq<bool>)
    requires |m.tops| == |was|
    ensures |r| == |was|
    ensures forall i | 0 <= i < |was| :: was[i] ==> r[i]
    ensures forall i | 0 <= i < |was| :: r[i] && !was[i] ==> InView(m.tops[i], m.viewportHeight)
    ensures forall i | 0 <= i < |was| :: InView(m.tops[i], m.viewportHeight) ==> r[i]
  {
    seq(|was|, i requires 0 <= i < |was| => was[i] || InView(m.tops[i], m.viewportHeight))
  }

  /** Some frame of `ms` saw element `i` inside the reveal point. */
  ghost predicate EverInView(ms: seq<Measure>, i: int) {
    exists k | 0 <= k < |ms| :: 0 <= i < |ms[k].tops| && InView(ms[k].tops[i], ms[k].viewportHeight)
  }

  /** The classes after a run of frames. */
  function RevealRun(was: seq<bool>, ms: seq<Measure>): (r: seq<bool>)
    requires forall k | 0 <= k < |ms| :: |ms[k].tops| == |was|
    ensures |r| == |was|
    decreases |ms|
  {
    if ms == [] then was else RevealRun(RevealFrame(was, ms[0]), ms[1..])
  }

  /** Over any run of frames an element ends revealed exactly when it
      started revealed or some frame saw it in view: nothing un-reveals. */
  lemma {:induction false} RevealRunMonotone(was: seq<bool>, ms: seq<Measure>)
    requires forall k | 0 <= k < |ms| :: |ms[k].tops| == |was|
    ensures forall i | 0 <= i < |was| :: was[i] ==> RevealRun(was, ms)[i]
    ensures forall i | 0 <= i < |was| :: RevealRun(was, ms)[i] <==> was[i] || EverInView(ms, i)
    decreases |ms|
  {
    if ms != [] {
      var next := RevealFrame(was, ms[0]);
      var rest := ms[1..];
      RevealRunMonotone(next, rest);
      forall i | 0 <= i < |was|
        ensures RevealRun(was, ms)[i] <==> was[i] || EverInView(ms, i)
      {
        if EverInView(rest, i) {
          var k :| 0 <= k < |rest| && 0 <= i < |rest[k].tops| && InView(rest[k].tops[i], rest[k].viewportHeight);
          assert rest[k] == ms[k + 1];
        }
        if EverInView(ms, i) && !InView(ms[0].tops[i], ms[0].viewportHeight) {
          var k :| 0 <= k < |ms| && 0 <= i < |ms[k].tops| && InView(ms[k].tops[i], ms[k].viewportHeight);
          assert k > 0 && ms[k] == rest[k - 1];
        }
      }
    }
  }

  /** The controller: the element list's `active` classes, the animation frames
      it has requested, and the handle kept in `scrollTimeout`. */
  class Reveal {
    /** `active` class of each `.reveal` element; the list is fixed at start-up. */
    const active: array<bool>
    /** Requested revealOnScroll frames not yet run or cancelled. */
    var pending: set<nat>
    /** The last frame handle stored in `scrollTimeout`; 0 while undefined. */
    var scrollTimeout: nat
    /** The handle the next requestAnimationFrame returns (handles start at 1). */
    var nextHandle: nat

    /** Latest wins: the only frame that can still run is the last one requested. */
    ghost predicate Valid()
      reads this
    {
      0 < nextHandle && scrollTimeout < nextHandle && pending <= {scrollTimeout} && 0 !in pending
    }

    /** initScrollEffects: the initial check, with no frame requested yet. */
    constructor (m: Measure)
      ensures Valid() && fresh(active) && pending == {} && scrollTimeout == 0
      ensures active[..] == RevealFrame(seq(|m.tops|, _ => false), m)
    {
      active := new bool[|m.tops|](_ => false);
      pending, scrollTimeout, nextHandle := {}, 0, 1;
      new;
      RevealOnScroll(m);
    }

    /** revealOnScroll: the forEach over the element list. */
    method RevealOnScroll(m: Measure)
      requires |m.tops| == active.Length
      modifies active
      ensures active[..] == RevealFrame(old(active[..]), m)
    {
      for i := 0 to active.Length
        invariant forall j | 0 <= j < i :: active[j] == (old(active[j]) || InView(m.tops[j], m.viewportHeight))
        invariant forall j | i <= j < active.Length :: active[j] == old(active[j])
      {
        if m.tops[i] < m.viewportHeight - RevealPoint {
          active[i] := true;
        }
      }
    }

    /** The scroll listener: cancel the frame stored last, request a new one. */
    method OnScroll()
      requires Valid()
      modifies this
      ensures Valid()
      ensures scrollTimeout == old(nextHandle) && nextHandle == old(nextHandle) + 1
      ensures pending == {scrollTimeout}
    {
      if scrollTimeout != 0 {
        pending := pending - {scrollTimeout};
      }
      scrollTimeout := nextHandle;
      pending := pending + {nextHandle};
      nextHandle := nextHandle + 1;
    }

    /** A requested frame runs revealOnScroll with that moment's measurements. */
    method OnFrame(handle: nat, m: Measure)
      requires Valid() && handle in pending && |m.tops| == active.Length
      modifies this, active
      ensures Valid()
      ensures pending == {} && scrollTimeout == old(scrollTimeout) && nextHandle == old(nextHandle)
      ensures active[..] == RevealFrame(old(active[..]), m)
    {
      pending := pending - {handle};
      RevealOnScroll(m);
    }
  }
}

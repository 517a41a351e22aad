/** The header's `scrolled` class, recomputed at most once per animation frame. */
module HeaderScroll {
  import opened Gate

  /** Offsets strictly above this many pixels compact the header. */
  const ScrolledThreshold := 50

  /** The state updateHeaderState gives the header for a scroll offset. */
  function IsScrolled(offset: int): (r: bool)
    ensures offset <= ScrolledThreshold ==> !r
    ensures offset > ScrolledThreshold ==> r
  {
    offset > ScrolledThreshold
  }

  class Header {
    /** The header carries the `scrolled` class. */
    var scrolled: bool
    var ticking: bool
    /** updateHeaderState callbacks requested and not yet run. */
    var pendingFrames: nat

    ghost predicate Valid()
      reads this
    {
      pendingFrames == if ticking then 1 else 0
    }

    constructor ()
      ensures Valid() && !scrolled && !ticking
    {
      scrolled, ticking, pendingFrames := false, false, 0;
    }

    /** The scroll listener: the gate lets one request through until the frame runs. */
    method OnScroll()
      requires Valid()
      modifies this
      ensures Valid()
      ensures ticking == GateStep(old(ticking), Trigger)
      ensures pendingFrames == old(pendingFrames) + (if old(ticking) then 0 else 1)
      ensures scrolled == old(scrolled)
    {
      if !ticking {
        pendingFrames := pendingFrames + 1;
        ticking := true;
      }
    }

    /** The requested frame runs updateHeaderState with the offset of that moment. */
    method OnFrame(offset: int)
      requires Valid() && pendingFrames > 0
      modifies this
      ensures Valid()
      ensures ticking == GateStep(old(ticking), Release)
      ensures pendingFrames == old(pendingFrames) - 1
      ensures scrolled == IsScrolled(offset)
    {
      pendingFrames := pendingFrames - 1;
      scrolled := offset > ScrolledThreshold;
      ticking := false;
    }
  }
}

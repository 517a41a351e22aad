/** The back-to-top button: its `visible` class, refreshed through a throttle. */
module BackToTop {
  import opened RateLimit

  /** Offsets strictly above this many pixels show the button. */
  const VisibleThreshold := 300

  function IsVisible(offset: int): (r: bool)
    ensures offset <= VisibleThreshold ==> !r
    ensures offset > VisibleThreshold ==> r
  {
    offset > VisibleThreshold
  }

  class Button {
    /** The button carries the `visible` class. */
    var visible: bool
    const gate: Throttle

    ghost predicate Valid()
      reads this, gate
    {
      gate.Valid()
    }

    constructor ()
      ensures Valid() && fresh(gate) && !visible && !gate.inThrottle
    {
      visible := false;
      gate := new Throttle();
    }

    /** The throttled scroll listener with the offset of that moment. */
    method OnScroll(offset: int)
      requires Valid()
      modifies this, gate
      ensures Valid()
      ensures visible == if old(gate.inThrottle) then old(visible) else IsVisible(offset)
      ensures gate.inThrottle
    {
      var run := gate.Call();
      if run {
        visible := offset > VisibleThreshold;
      }
    }

    /** The throttle's 150 ms timer expires. */
    method OnTimer()
      requires Valid() && gate.pendingTimers > 0
      modifies gate
      ensures Valid() && !gate.inThrottle
      ensures visible == old(visible)
    {
      gate.TimerExpires();
    }
  }
}

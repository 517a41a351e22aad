/** The scroll destination of the in-page anchor and scroll-to handlers. */
module SmoothScroll {
  import opened Wrappers

  /** Room left for the fixed header above the target. */
  const HeaderOffset := 80

  /** Where an anchor click scrolls: nowhere for the bare `#` or a missing
      target, otherwise the target's document position less the header room.
      `targetTop` is the found element's viewport-relative top. */
  function AnchorDestination(href: string, targetTop: Option<int>, pageYOffset: int): (r: Option<int>)
    ensures r.Some? <==> href != "#" && targetTop.Some?
    ensures r.Some? ==> r.value + HeaderOffset == targetTop.value + pageYOffset
  {
    if href == "#" then None
    else match targetTop
      case None => None
      case Some(top) => Some(top + pageYOffset - HeaderOffset)
  }

  /** Where a `data-scroll-to` button scrolls: the same arithmetic, with no
      check for a bare `#` (the id is looked up by `getElementById`). */
  function ButtonDestination(targetTop: Option<int>, pageYOffset: int): (r: Option<int>)
    ensures r.Some? <==> targetTop.Some?
    ensures r.Some? ==> r.value + HeaderOffset == targetTop.value + pageYOffset
  {
    match targetTop
    case None => None
    case Some(top) => Some(top + pageYOffset - HeaderOffset)
  }
}

/** The mobile navigation menu: one open/closed state mirrored into five
    attributes of the toggle button, the nav panel and the page body. */
module MobileMenu {

  /** What the menu's handlers read and write: the toggle's and the nav
      panel's `active` classes, `body.style.overflow`, the toggle's
      `aria-expanded`, the panel's `aria-hidden`, and whether the Escape
      handler has moved focus to the toggle. */
  datatype MenuView = MenuView(
    toggleActive: bool,
    navActive: bool,
    overflow: string,
    ariaExpanded: string,
    ariaHidden: string,
    toggleFocused: bool)
  {
    /** The open state: the nav panel carries `active`. */
    predicate IsOpen() { navActive }
  }

  /** The user actions the menu listens to. A click on the toggle stops
      propagation, so it never reaches the document handler. */
  datatype MenuEvent =
    | ToggleClick
    | NavLinkClick
    | DocumentClick(insideNav: bool, onToggle: bool)
    | KeyDown(key: string)

  /** All five attributes agree with the open state. */
  predicate Mirrored(v: MenuView) {
    && v.toggleActive == v.navActive
    && v.overflow == (if v.navActive then "hidden" else "")
    && v.ariaExpanded == (if v.navActive then "true" else "false")
    && v.ariaHidden == (if v.navActive then "false" else "true")
  }

  /** setMenuState(isOpen). */
  function SetMenuState(v: MenuView, isOpen: bool): (r: MenuView)
    ensures Mirrored(r) && r.IsOpen() == isOpen
    ensures r.toggleFocused == v.toggleFocused
  {
    v.(toggleActive := isOpen,
       navActive := isOpen,
       overflow := if isOpen then "hidden" else "",
       ariaExpanded := if isOpen then "true" else "false",
       ariaHidden := if isOpen then "false" else "true")
  }

  /** The effect of one event on the menu. */
  function MenuStep(v: MenuView, e: MenuEvent): (r: MenuView)
    ensures Mirrored(v) ==> Mirrored(r)
    ensures e.ToggleClick? ==> Mirrored(r) && r.IsOpen() == !v.IsOpen()
    ensures e.NavLinkClick? ==> Mirrored(r) && !r.IsOpen()
    ensures e.DocumentClick? && !e.insideNav && !e.onToggle && v.IsOpen() ==> Mirrored(r) && !r.IsOpen()
    ensures e.DocumentClick? && (e.insideNav || e.onToggle || !v.IsOpen()) ==> r == v
    ensures e.KeyDown? && e.key == "Escape" && v.IsOpen() ==> Mirrored(r) && !r.IsOpen() && r.toggleFocused
    ensures e.KeyDown? && (e.key != "Escape" || !v.IsOpen()) ==> r == v
    ensures !r.IsOpen() || e.ToggleClick? || r == v
    ensures !(e.KeyDown? && e.key == "Escape" && v.IsOpen()) ==> r.toggleFocused == v.toggleFocused
  {
    match e
    case ToggleClick => SetMenuState(v, !v.navActive)
    case NavLinkClick => SetMenuState(v, false)
    case DocumentClick(insideNav, onToggle) =>
      if !insideNav && !onToggle && v.navActive then SetMenuState(v, false) else v
    case KeyDown(key) =>
      if key == "Escape" && v.navActive then SetMenuState(v, false).(toggleFocused := true) else v
  }

  /** The menu after a run of events. */
  function MenuRun(v: MenuView, es: seq<MenuEvent>): MenuView
    decreases |es|
  {
    if es == [] then v else MenuRun(MenuStep(v, es[0]), es[1..])
  }

  /** Once every attribute mirrors the state, any run of events keeps it so;
      and a run ending in an event that sets the state leaves it mirrored
      from whatever attributes the markup started with. */
  lemma {:induction false} MenuRunMirrored(v: MenuView, es: seq<MenuEvent>)
    requires Mirrored(v) || (es != [] && (es[|es| - 1].ToggleClick? || es[|es| - 1].NavLinkClick?))
    ensures Mirrored(MenuRun(v, es))
    decreases |es|
  {
    if es != [] {
      var w := MenuStep(v, es[0]);
      if Mirrored(v) {
        MenuRunMirrored(w, es[1..]);
      } else if |es| == 1 {
        assert MenuRun(w, es[1..]) == w;
      } else {
        assert es[1..][|es[1..]| - 1] == es[|es| - 1];
        MenuRunMirrored(w, es[1..]);
      }
    }
  }

  /** Two toggle clicks return a mirrored menu to where it was. */
  lemma ToggleTwice(v: MenuView)
    requires Mirrored(v)
    ensures MenuStep(MenuStep(v, ToggleClick), ToggleClick) == v
  {
  }

  /** The menu as the page holds it: the fields the handlers mutate in place. */
  class Menu {
    var toggleActive: bool
    var navActive: bool
    var overflow: string
    var ariaExpanded: string
    var ariaHidden: string
    var toggleFocused: bool

    function View(): MenuView
      reads this
    {
      MenuView(toggleActive, navActive, overflow, ariaExpanded, ariaHidden, toggleFocused)
    }

    /** initMobileMenu: the panel is marked hidden; the rest is what the markup
        says, a closed menu with `aria-expanded` as given. */
    constructor (markupAriaExpanded: string)
      ensures View() == MenuView(false, false, "", markupAriaExpanded, "true", false)
      ensures markupAriaExpanded == "false" ==> Mirrored(View())
    {
      toggleActive, navActive, overflow := false, false, "";
      ariaExpanded, ariaHidden, toggleFocused := markupAriaExpanded, "true", false;
    }

    method SetState(isOpen: bool)
      modifies this
      ensures View() == SetMenuState(old(View()), isOpen)
    {
      toggleActive := isOpen;
      navActive := isOpen;
      overflow := if isOpen then "hidden" else "";
      ariaExpanded := if isOpen then "true" else "false";
      ariaHidden := if isOpen then "false" else "true";
    }

    method OnToggleClick()
      modifies this
      ensures View() == MenuStep(old(View()), ToggleClick)
    {
      var isOpen := navActive;
      SetState(!isOpen);
    }

    method OnNavLinkClick()
      modifies this
      ensures View() == MenuStep(old(View()), NavLinkClick)
    {
      SetState(false);
    }

    method OnDocumentClick(insideNav: bool, onToggle: bool)
      modifies this
      ensures View() == MenuStep(old(View()), DocumentClick(insideNav, onToggle))
    {
      if !insideNav && !onToggle && navActive {
        SetState(false);
      }
    }

    method OnKeyDown(key: string)
      modifies this
      ensures View() == MenuStep(old(View()), KeyDown(key))
    {
      if key == "Escape" && navActive {
        SetState(false);
        toggleFocused := true;
      }
    }
  }
}

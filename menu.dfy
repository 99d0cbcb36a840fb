/**
 * The mobile sidebar of `initMobileMenu` (assets/js/main.js): the sidebar's
 * class list holds `open` while the menu is shown, and the toggle button's
 * `aria-expanded` attribute is meant to mirror it.
 */
module MobileMenu {
  import opened Dom

  const OpenClass := "open"
  const EscapeKey := "Escape"
  /** Widest viewport, in CSS pixels, at which a sidebar link click closes the menu. */
  const MobileMaxWidth := 1024

  /** `setAttribute` stringifies a boolean. */
  function BoolString(b: bool): (s: string)
    ensures s == "true" || s == "false"
    ensures s == "true" <==> b
  {
    if b then "true" else "false"
  }

  /** The sidebar's class list and the toggle button's `aria-expanded` attribute. */
  datatype MenuState = MenuState(sidebarClasses: set<string>, ariaExpanded: Option<string>)
  {
    predicate IsOpen() {
      OpenClass in sidebarClasses
    }

    /** The accessibility attribute states what the sidebar shows. */
    predicate Mirrors() {
      ariaExpanded == Some(BoolString(IsOpen()))
    }
  }

  /** The events the script listens for. */
  datatype MenuEvent =
    | ToggleClick
    | OverlayClick
    | SidebarLinkClick(innerWidth: int)
    | KeyDown(key: string)

  /** The closing step shared by the overlay, link and Escape handlers. */
  function Closed(m: MenuState): MenuState {
    MenuState(m.sidebarClasses - {OpenClass}, Some("false"))
  }

  /** Toggle button click: `classList.toggle('open')`, then `aria-expanded` from the new state. */
  function OnToggleClick(m: MenuState): (r: MenuState)
    ensures r.IsOpen() == !m.IsOpen()
    ensures r.Mirrors()
    ensures r.sidebarClasses - {OpenClass} == m.sidebarClasses - {OpenClass}
  {
    var classes := if OpenClass in m.sidebarClasses then m.sidebarClasses - {OpenClass}
                   else m.sidebarClasses + {OpenClass};
    MenuState(classes, Some(BoolString(OpenClass in classes)))
  }

  /** Overlay click: closed, whatever the state before. */
  function OnOverlayClick(m: MenuState): (r: MenuState)
    ensures !r.IsOpen() && r.Mirrors() && r.ariaExpanded == Some("false")
    ensures r.sidebarClasses == m.sidebarClasses - {OpenClass}
  {
    Closed(m)
  }

  /** Sidebar link click: closes the menu only on a viewport at most 1024 wide. */
  function OnSidebarLinkClick(m: MenuState, innerWidth: int): (r: MenuState)
    ensures innerWidth <= MobileMaxWidth ==> !r.IsOpen() && r.ariaExpanded == Some("false")
    ensures innerWidth > MobileMaxWidth ==> r == m
    ensures r.sidebarClasses - {OpenClass} == m.sidebarClasses - {OpenClass}
  {
    if innerWidth <= MobileMaxWidth then Closed(m) else m
  }

  /** Key press anywhere in the document: only Escape on an open menu closes it. */
  function OnKeyDown(m: MenuState, key: string): (r: MenuState)
    ensures r != m ==> key == EscapeKey && m.IsOpen()
    ensures key == EscapeKey && m.IsOpen() ==> !r.IsOpen() && r.ariaExpanded == Some("false")
    ensures r.sidebarClasses - {OpenClass} == m.sidebarClasses - {OpenClass}
  {
    if key == EscapeKey && m.IsOpen() then Closed(m) else m
  }

  /**
   * One event. The overlay listener exists only when the page has an overlay,
   * so without one an overlay click changes nothing.
   */
  function Step(m: MenuState, e: MenuEvent, hasOverlay: bool): MenuState {
    match e
    case ToggleClick => OnToggleClick(m)
    case OverlayClick => if hasOverlay then OnOverlayClick(m) else m
    case SidebarLinkClick(w) => OnSidebarLinkClick(m, w)
    case KeyDown(k) => OnKeyDown(m, k)
  }

  /** A sequence of events, handled in order. */
  function Run(m: MenuState, events: seq<MenuEvent>, hasOverlay: bool): MenuState
    decreases |events|
  {
    if events == [] then m else Run(Step(m, events[0], hasOverlay), events[1..], hasOverlay)
  }

  /** Every handler keeps `aria-expanded` mirroring the sidebar once it does. */
  lemma StepKeepsMirror(m: MenuState, e: MenuEvent, hasOverlay: bool)
    requires m.Mirrors()
    ensures Step(m, e, hasOverlay).Mirrors()
  {
  }

  lemma {:induction false} RunKeepsMirror(m: MenuState, events: seq<MenuEvent>, hasOverlay: bool)
    requires m.Mirrors()
    ensures Run(m, events, hasOverlay).Mirrors()
    decreases |events|
  {
    if events != [] {
      StepKeepsMirror(m, events[0], hasOverlay);
      RunKeepsMirror(Step(m, events[0], hasOverlay), events[1..], hasOverlay);
    }
  }

  /**
   * Whatever the markup started with, `aria-expanded` mirrors the sidebar from
   * the first toggle click on.
   */
  lemma {:induction false} RunMirrorsAfterToggle(m: MenuState, events: seq<MenuEvent>, hasOverlay: bool, i: nat)
    requires i < |events| && events[i] == ToggleClick
    ensures Run(m, events, hasOverlay).Mirrors()
    decreases |events|
  {
    if i == 0 {
      RunKeepsMirror(OnToggleClick(m), events[1..], hasOverlay);
    } else {
      RunMirrorsAfterToggle(Step(m, events[0], hasOverlay), events[1..], hasOverlay, i - 1);
    }
  }

  /** Two toggle clicks give back the sidebar's classes, with `aria-expanded` mirroring them. */
  lemma ToggleTwice(m: MenuState)
    ensures OnToggleClick(OnToggleClick(m)).sidebarClasses == m.sidebarClasses
    ensures !m.IsOpen() ==> OnToggleClick(OnToggleClick(m)).ariaExpanded == Some("false")
  {
  }

  /** An overlay click is idempotent. */
  lemma OverlayIdempotent(m: MenuState)
    ensures OnOverlayClick(OnOverlayClick(m)) == OnOverlayClick(m)
  {
  }

  /** The sidebar and its toggle button as the handlers update them. */
  class MenuWidgets {
    var sidebarClasses: set<string>
    var ariaExpanded: Option<string>
    /** Whether the page has a `.sidebar-overlay` to attach a listener to. */
    const hasOverlay: bool

    function State(): MenuState
      reads this
    {
      MenuState(sidebarClasses, ariaExpanded)
    }

    constructor (classes: set<string>, aria: Option<string>, overlay: bool)
      ensures State() == MenuState(classes, aria) && hasOverlay == overlay
    {
      sidebarClasses := classes;
      ariaExpanded := aria;
      hasOverlay := overlay;
    }

    method ToggleClicked()
      modifies this
      ensures State() == OnToggleClick(old(State()))
    {
      if OpenClass in sidebarClasses {
        sidebarClasses := sidebarClasses - {OpenClass};
      } else {
        sidebarClasses := sidebarClasses + {OpenClass};
      }
      var isOpen := OpenClass in sidebarClasses;
      ariaExpanded := Some(BoolString(isOpen));
    }

    method OverlayClicked()
      requires hasOverlay
      modifies this
      ensures State() == OnOverlayClick(old(State()))
    {
      sidebarClasses := sidebarClasses - {OpenClass};
      ariaExpanded := Some("false");
    }

    method SidebarLinkClicked(innerWidth: int)
      modifies this
      ensures State() == OnSidebarLinkClick(old(State()), innerWidth)
    {
      if innerWidth <= MobileMaxWidth {
        sidebarClasses := sidebarClasses - {OpenClass};
        ariaExpanded := Some("false");
      }
    }

    method KeyPressed(key: string)
      modifies this
      ensures State() == OnKeyDown(old(State()), key)
    {
      if key == EscapeKey && OpenClass in sidebarClasses {
        sidebarClasses := sidebarClasses - {OpenClass};
        ariaExpanded := Some("false");
      }
    }
  }
}

/**
  The sidebar context (components/sidebar-provider.tsx): whether the
  sidebar is open and whether the window is narrow enough to count as
  mobile. Every resize re-derives both from the window width; the toggle
  button acts only on a mobile layout.
 */
module Sidebar {
  import opened Wrappers

  /** Windows narrower than this many pixels use the mobile layout. */
  const MobileBreakpoint := 1024

  const OutsideProviderError := "useSidebar must be used within a SidebarProvider"

  /** The value the provider shares (its `toggleSidebar` is the `Toggle` below). */
  datatype SidebarState = SidebarState(isOpen: bool, isMobile: bool)

  const InitialState := SidebarState(true, false)

  /** What the layout promises: outside the mobile layout the sidebar is always open. */
  predicate DesktopOpen(s: SidebarState) {
    !s.isMobile ==> s.isOpen
  }

  /** The state `checkMobile` leaves for a window `width` pixels wide. */
  function AfterResize(width: int): (s: SidebarState)
    ensures s.isMobile <==> width < MobileBreakpoint
    ensures s.isOpen <==> !s.isMobile
  {
    var mobile := width < MobileBreakpoint;
    SidebarState(!mobile, mobile)
  }

  /** The state `toggleSidebar` leaves. */
  function Toggle(s: SidebarState): (r: SidebarState)
    ensures r.isMobile == s.isMobile
    ensures s.isMobile ==> r.isOpen == !s.isOpen
    ensures !s.isMobile ==> r == s
  {
    if s.isMobile then s.(isOpen := !s.isOpen) else s
  }

  /** Toggling twice restores the state. */
  lemma ToggleTwice(s: SidebarState)
    ensures Toggle(Toggle(s)) == s
  {
  }

  /** The initial state, every resize and every toggle keep the sidebar open on a wide window. */
  lemma DesktopAlwaysOpen(s: SidebarState, width: int)
    ensures DesktopOpen(InitialState)
    ensures DesktopOpen(AfterResize(width))
    ensures DesktopOpen(s) ==> DesktopOpen(Toggle(s))
  {
  }

  /** `useSidebar`: the provider's value, or the error raised outside any provider. */
  function UseSidebar(context: Option<SidebarState>): (r: Result<SidebarState>)
    ensures r.Failure? <==> context.None?
    ensures r.Failure? ==> r.error == OutsideProviderError
    ensures r.Success? ==> r.value == context.value
  {
    match context
    case None => Failure(OutsideProviderError)
    case Some(s) => Success(s)
  }

  /** `SidebarProvider`'s two state variables and their updates. */
  class SidebarProvider {
    var isOpen: bool
    var isMobile: bool

    /** The shared context value. */
    function State(): SidebarState
      reads this
    {
      SidebarState(isOpen, isMobile)
    }

    constructor ()
      ensures State() == InitialState && DesktopOpen(State())
    {
      isOpen := true;
      isMobile := false;
    }

    /** `checkMobile`, run on mount and on every `resize` event with the window's inner width. */
    method CheckMobile(innerWidth: int)
      modifies this
      ensures isMobile == (innerWidth < MobileBreakpoint) && isOpen == !isMobile
      ensures State() == AfterResize(innerWidth) && DesktopOpen(State())
    {
      var mobile := innerWidth < MobileBreakpoint;
      isMobile := mobile;
      if mobile {
        isOpen := false;
      } else {
        isOpen := true;
      }
    }

    /** `toggleSidebar`: flips `isOpen` on a mobile layout and does nothing otherwise. */
    method ToggleSidebar()
      modifies this`isOpen
      ensures isMobile == old(isMobile)
      ensures old(isMobile) ==> isOpen == !old(isOpen)
      ensures !old(isMobile) ==> isOpen == old(isOpen)
      ensures State() == Toggle(old(State()))
      ensures old(DesktopOpen(State())) ==> DesktopOpen(State())
    {
      if isMobile {
        isOpen := !isOpen;
      }
    }
  }
}

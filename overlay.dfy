/** The mobile navigation overlay (`initNav`, src/main.js).  The toggle
    button opens the overlay (`is-open`) and locks page scrolling
    (`document.body.style.overflow = 'hidden'`); the close button and every
    link inside the overlay run the same `closeNav`, which removes `is-open`
    and restores scrolling (`overflow = ''`).  No listener is installed
    unless both the toggle and the overlay exist; the close button is
    optional. */
module MenuOverlay {

  /** The values the handlers write to `document.body.style.overflow`. */
  const ScrollLocked: string := "hidden"
  const ScrollFree: string := ""

  /** The overlay's `is-open` flag and the body's `overflow` style. */
  datatype MenuView = MenuView(isOpen: bool, overflow: string)

  /** The page as loaded: overlay closed, no inline overflow style. */
  const Closed: MenuView := MenuView(false, ScrollFree)
  const Opened: MenuView := MenuView(true, ScrollLocked)

  /** Which of the three controls the page has. */
  datatype Wiring = Wiring(hasToggle: bool, hasOverlay: bool, hasCloseButton: bool)

  /** A click the menu listens for. */
  datatype Click = ToggleClick | CloseButtonClick | OverlayLinkClick

  /** The overlay is open exactly when page scrolling is locked. */
  predicate Agrees(v: MenuView) {
    v.isOpen <==> v.overflow == ScrollLocked
  }

  /** Whether `initNav`, on a page with a `.nav` header, installed the
      menu's listeners at all. */
  predicate Wired(w: Wiring) {
    w.hasToggle && w.hasOverlay
  }

  /** The toggle's click handler. */
  function Open(v: MenuView): (r: MenuView)
    ensures r.isOpen && r.overflow == ScrollLocked
  {
    MenuView(true, ScrollLocked)
  }

  /** `closeNav`, shared by the close button and the overlay's links. */
  function Close(v: MenuView): (r: MenuView)
    ensures !r.isOpen && r.overflow == ScrollFree
  {
    MenuView(false, ScrollFree)
  }

  /** The effect of one click on a page wired as `w`: a click on a control
      that has no listener changes nothing. */
  function Handle(w: Wiring, v: MenuView, c: Click): (r: MenuView)
    ensures !Wired(w) ==> r == v
    ensures Wired(w) && c == ToggleClick ==> r == Opened
    ensures Wired(w) && c == OverlayLinkClick ==> r == Closed
    ensures c == CloseButtonClick ==> r == (if Wired(w) && w.hasCloseButton then Closed else v)
    ensures Agrees(v) ==> Agrees(r)
  {
    if !Wired(w) then v
    else match c
      case ToggleClick => Open(v)
      case CloseButtonClick => if w.hasCloseButton then Close(v) else v
      case OverlayLinkClick => Close(v)
  }

  /** The menu after a series of clicks, in order. */
  function Run(w: Wiring, v: MenuView, clicks: seq<Click>): MenuView
    decreases |clicks|
  {
    if clicks == [] then v else Run(w, Handle(w, v, clicks[0]), clicks[1..])
  }

  /** Closing twice is closing once, and so is opening. */
  lemma OpenCloseIdempotent(v: MenuView)
    ensures Close(Close(v)) == Close(v)
    ensures Open(Open(v)) == Open(v)
    ensures Close(Open(v)) == Closed && Open(Close(v)) == Opened
  {
  }

  /** From the page as loaded, whatever the clicks, the overlay is either
      closed with scrolling free or open with scrolling locked. */
  lemma {:induction false} RunAgrees(w: Wiring, v: MenuView, clicks: seq<Click>)
    requires v == Closed || v == Opened
    ensures Run(w, v, clicks) == Closed || Run(w, v, clicks) == Opened
    ensures Agrees(Run(w, v, clicks))
    decreases |clicks|
  {
    if clicks != [] {
      RunAgrees(w, Handle(w, v, clicks[0]), clicks[1..]);
    }
  }

  /** Without both the toggle and the overlay, no click has any effect. */
  lemma {:induction false} UnwiredRunInert(w: Wiring, v: MenuView, clicks: seq<Click>)
    requires !Wired(w)
    ensures Run(w, v, clicks) == v
    decreases |clicks|
  {
    if clicks != [] {
      UnwiredRunInert(w, Handle(w, v, clicks[0]), clicks[1..]);
    }
  }

  /** On a wired page the menu ends open exactly when the last effective
      click was the toggle: a run ending in either close path leaves it
      closed, whatever came before. */
  lemma {:induction false} RunEndsWithLastClick(w: Wiring, v: MenuView, clicks: seq<Click>, c: Click)
    requires Wired(w) && (c != CloseButtonClick || w.hasCloseButton)
    ensures Run(w, v, clicks + [c]) == (if c == ToggleClick then Opened else Closed)
    decreases |clicks|
  {
    if clicks == [] {
      assert clicks + [c] == [c];
    } else {
      assert (clicks + [c])[1..] == clicks[1..] + [c];
      RunEndsWithLastClick(w, Handle(w, v, clicks[0]), clicks[1..], c);
    }
  }

  /** The overlay and the body style, as the handlers mutate them. */
  class MobileMenu {
    const wiring: Wiring
    var isOpen: bool
    var overflow: string

    function View(): MenuView
      reads this
    {
      MenuView(isOpen, overflow)
    }

    ghost predicate Valid()
      reads this
    {
      View() == Closed || View() == Opened
    }

    /** `initNav` on a page with the given controls; the overlay starts closed. */
    constructor (w: Wiring)
      ensures wiring == w && View() == Closed && Valid()
    {
      wiring := w;
      isOpen, overflow := false, ScrollFree;
    }

    /** The toggle's click listener. */
    method ClickToggle()
      requires Valid()
      modifies this
      ensures View() == Handle(wiring, old(View()), ToggleClick) && Valid()
    {
      if wiring.hasToggle && wiring.hasOverlay {
        isOpen := true;
        overflow := ScrollLocked;
      }
    }

    /** `closeNav`: removes `is-open` and clears the overflow style. */
    method CloseNav()
      requires Valid()
      modifies this
      ensures View() == Closed && Valid()
    {
      isOpen := false;
      overflow := ScrollFree;
    }

    /** The close button's click listener, present only when the button is. */
    method ClickCloseButton()
      requires Valid()
      modifies this
      ensures View() == Handle(wiring, old(View()), CloseButtonClick) && Valid()
    {
      if wiring.hasToggle && wiring.hasOverlay && wiring.hasCloseButton {
        CloseNav();
      }
    }

    /** The listener on each link inside the overlay. */
    method ClickOverlayLink()
      requires Valid()
      modifies this
      ensures View() == Handle(wiring, old(View()), OverlayLinkClick) && Valid()
    {
      if wiring.hasToggle && wiring.hasOverlay {
        CloseNav();
      }
    }
  }
}

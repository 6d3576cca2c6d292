/**
 * The navigation bar (script.js:12-57): the "scrolled" style past a scroll
 * threshold, the mobile menu toggle with its three-bar icon, and the menu
 * links that close the menu.
 *
 * The icon is the list of `span` elements inside the toggle control, in
 * document order (every descendant, not only the children). The
 * handlers write to the first three of them in order; when fewer exist,
 * the first missing one makes the handler throw a TypeError, after the
 * writes before it have taken effect.
 */
module Navigation {

  /** The scroll offset, in CSS pixels, past which the bar takes its "scrolled" style. */
  const ScrollThreshold: int := 50

  /** Inline transform of the top bar while the menu is open. */
  const OpenTopTransform: string := "rotate(45deg) translate(5px, 5px)"
  /** Inline transform of the bottom bar while the menu is open. */
  const OpenBottomTransform: string := "rotate(-45deg) translate(5px, -5px)"
  /** Inline opacity of the middle bar while the menu is open. */
  const OpenMiddleOpacity: string := "0"

  /** `handleNavScroll`'s test on `window.scrollY`. */
  predicate IsScrolled(scrollY: real) {
    scrollY > ScrollThreshold as real
  }

  /** One bar of the icon: its inline transform and opacity. */
  datatype Bar = Bar(transform: string, opacity: string)

  /** The bars after the handler's three writes for the given menu state (only those bars that exist). */
  function Morph(bars: seq<Bar>, open: bool): (r: seq<Bar>)
    ensures |r| == |bars|
  {
    seq(|bars|, i requires 0 <= i < |bars| =>
      if i == 0 then bars[i].(transform := if open then OpenTopTransform else "")
      else if i == 1 then bars[i].(opacity := if open then OpenMiddleOpacity else "")
      else if i == 2 then bars[i].(transform := if open then OpenBottomTransform else "")
      else bars[i])
  }

  /** The icon shows the menu's state: an X when open, the plain bars when closed. */
  predicate IconFollows(bars: seq<Bar>, open: bool) {
    && (|bars| > 0 ==> bars[0].transform == (if open then OpenTopTransform else ""))
    && (|bars| > 1 ==> bars[1].opacity == (if open then OpenMiddleOpacity else ""))
    && (|bars| > 2 ==> bars[2].transform == (if open then OpenBottomTransform else ""))
  }

  /** After the writes the icon follows the state written; an icon that already follows it is left as is. */
  lemma MorphFollows(bars: seq<Bar>, open: bool)
    ensures IconFollows(Morph(bars, open), open)
    ensures IconFollows(bars, open) ==> Morph(bars, open) == bars
  {
  }

  /** With all three bars present, they form the X exactly when the menu is open. */
  lemma XIffOpen(bars: seq<Bar>, open: bool)
    requires |bars| >= 3 && IconFollows(bars, open)
    ensures (bars[0].transform == OpenTopTransform && bars[1].opacity == OpenMiddleOpacity &&
             bars[2].transform == OpenBottomTransform) <==> open
  {
  }

  /** Two toggles restore an icon that followed the menu: the later writes overwrite the earlier ones. */
  lemma TwoTogglesRestore(bars: seq<Bar>, open: bool)
    requires IconFollows(bars, open)
    ensures Morph(Morph(bars, !open), open) == bars
  {
    assert Morph(Morph(bars, !open), open) == Morph(bars, open);
  }

  /** The navigation bar, the menu it opens, and the toggle control's bars. */
  class NavBar {
    /** Whether the bar has the "nav--scrolled" class. */
    var scrolled: bool
    /** Whether the menu (`nav-links`) has the "active" class. */
    var menuOpen: bool
    /** The toggle control's descendant `span` elements, in document order. */
    const bars: array<Bar>

    /** The icon shows the menu's state. */
    ghost predicate Valid()
      reads this, bars
    {
      IconFollows(bars[..], menuOpen)
    }

    /** The page at load: menu closed, no inline bar styles, and `handleNavScroll` run once. */
    constructor (scrollY: real, barCount: nat)
      ensures Valid() && fresh(bars)
      ensures !menuOpen && scrolled == IsScrolled(scrollY)
      ensures bars.Length == barCount && forall i :: 0 <= i < barCount ==> bars[i] == Bar("", "")
    {
      bars := new Bar[barCount](_ => Bar("", ""));
      menuOpen := false;
      scrolled := scrollY > ScrollThreshold as real;
    }

    /** `handleNavScroll`: the "scrolled" class is set exactly when `scrollY` exceeds the threshold. */
    method HandleScroll(scrollY: real)
      modifies this
      ensures scrolled <==> IsScrolled(scrollY)
      ensures menuOpen == old(menuOpen)
      ensures Valid() == old(Valid())
    {
      if scrollY > ScrollThreshold as real {
        scrolled := true;
      } else {
        scrolled := false;
      }
    }

    /** The handlers' three writes to the bars, for the given menu state. */
    method SetIcon(open: bool) returns (thrown: bool)
      modifies bars
      ensures bars[..] == Morph(old(bars[..]), open)
      ensures thrown <==> bars.Length < 3
    {
      thrown := true;
      if bars.Length < 1 {
        return;
      }
      bars[0] := bars[0].(transform := if open then OpenTopTransform else "");
      if bars.Length < 2 {
        return;
      }
      bars[1] := bars[1].(opacity := if open then OpenMiddleOpacity else "");
      if bars.Length < 3 {
        return;
      }
      bars[2] := bars[2].(transform := if open then OpenBottomTransform else "");
      thrown := false;
    }

    /** A click on the toggle control: the menu flips, and the icon follows the new state. */
    method Toggle() returns (thrown: bool)
      modifies this, bars
      ensures menuOpen == !old(menuOpen) && scrolled == old(scrolled)
      ensures bars[..] == Morph(old(bars[..]), menuOpen)
      ensures thrown <==> bars.Length < 3
      ensures Valid()
    {
      menuOpen := !menuOpen;
      thrown := SetIcon(menuOpen);
      MorphFollows(old(bars[..]), menuOpen);
    }

    /** A click on a menu link: the menu is closed and the icon reset, whatever the state was. */
    method CloseFromLink() returns (thrown: bool)
      modifies this, bars
      ensures !menuOpen && scrolled == old(scrolled)
      ensures bars[..] == Morph(old(bars[..]), false)
      ensures thrown <==> bars.Length < 3
      ensures Valid()
    {
      menuOpen := false;
      thrown := SetIcon(false);
      MorphFollows(old(bars[..]), false);
    }
  }

  /** Two clicks on the toggle control restore the menu and the icon. */
  method ToggleTwice(nav: NavBar)
    requires nav.Valid()
    modifies nav, nav.bars
    ensures nav.menuOpen == old(nav.menuOpen) && nav.bars[..] == old(nav.bars[..])
  {
    ghost var before := nav.bars[..];
    var _ := nav.Toggle();
    var _ := nav.Toggle();
    TwoTogglesRestore(before, nav.menuOpen);
  }
}

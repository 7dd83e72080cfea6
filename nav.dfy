/** The fixed header of the page (`initNav`, src/main.js).  On every scroll
    update it compares the new offset with two fixed depths and with the
    offset of the previous update, and sets or clears two classes on the
    header: `nav--scrolled` (compact style) and `nav--hidden` (slid away). */
module NavHeader {

  /** Depth, in pixels, past which the header takes its compact style. */
  const CompactDepth: real := 100.0
  /** Depth, in pixels, past which scrolling down hides the header. */
  const HideDepth: real := 200.0

  /** What one scroll update reads and writes: the `nav--scrolled` and
      `nav--hidden` flags and the offset remembered from the previous update. */
  datatype NavView = NavView(scrolled: bool, hidden: bool, lastScroll: real)

  /** The header before its first update: neither class set, `lastScroll` 0. */
  const Initial: NavView := NavView(false, false, 0.0)

  /** The header is only ever hidden while it is compact. */
  predicate Consistent(v: NavView) {
    v.hidden ==> v.scrolled
  }

  /** One `onUpdate` call with the current scroll offset `scrollTop`.  The new
      flags depend on `v` only through the remembered offset. */
  function Step(v: NavView, scrollTop: real): (r: NavView)
    ensures r.lastScroll == scrollTop
    ensures scrollTop <= CompactDepth ==> !r.scrolled && !r.hidden
    ensures scrollTop > CompactDepth ==> r.scrolled
    ensures r.hidden <==> scrollTop > v.lastScroll && scrollTop > HideDepth
    ensures Consistent(r)
  {
    if scrollTop > CompactDepth then
      NavView(true, scrollTop > v.lastScroll && scrollTop > HideDepth, scrollTop)
    else
      NavView(false, false, scrollTop)
  }

  /** The header after a series of scroll updates, in order. */
  function Run(v: NavView, scrolls: seq<real>): NavView
    decreases |scrolls|
  {
    if scrolls == [] then v else Run(Step(v, scrolls[0]), scrolls[1..])
  }

  /** The offset the header compares against when the last sample of
      `scrolls` arrives: the sample before it, or `v`'s own for a single one. */
  function PreviousOffset(v: NavView, scrolls: seq<real>): real
    requires |scrolls| > 0
  {
    if |scrolls| == 1 then v.lastScroll else scrolls[|scrolls| - 2]
  }

  /** However long the history, the header's classes are decided by the last
      two offsets alone: compact past 100, hidden past 200 while moving down,
      and the last offset is remembered. */
  lemma {:induction false} RunDecidedByLastTwo(v: NavView, scrolls: seq<real>)
    requires |scrolls| > 0
    ensures var last := scrolls[|scrolls| - 1];
            var r := Run(v, scrolls);
            r.lastScroll == last &&
            (r.scrolled <==> last > CompactDepth) &&
            (r.hidden <==> last > PreviousOffset(v, scrolls) && last > HideDepth)
    decreases |scrolls|
  {
    var rest := scrolls[1..];
    if |rest| > 0 {
      RunDecidedByLastTwo(Step(v, scrolls[0]), rest);
      assert rest[|rest| - 1] == scrolls[|scrolls| - 1];
      assert PreviousOffset(Step(v, scrolls[0]), rest) == PreviousOffset(v, scrolls);
    }
  }

  /** Whatever the history, the header is never hidden without being compact. */
  lemma {:induction false} RunConsistent(v: NavView, scrolls: seq<real>)
    requires Consistent(v)
    ensures Consistent(Run(v, scrolls))
    decreases |scrolls|
  {
    if scrolls != [] {
      RunConsistent(Step(v, scrolls[0]), scrolls[1..]);
    }
  }

  /** A jump from 50 to 250 in one sample, after scrolling up from 300, hides
      the header: the offset grew and passed 200. */
  lemma JumpDownAfterScrollingUpHides(v: NavView)
    ensures Run(v, [300.0, 50.0, 250.0]).hidden
    ensures Run(v, [300.0, 50.0, 250.0]).scrolled
  {
    RunDecidedByLastTwo(v, [300.0, 50.0, 250.0]);
  }

  /** The header element: its two classes and the closure's `lastScroll`. */
  class Nav {
    var scrolled: bool
    var hidden: bool
    var lastScroll: real

    function View(): NavView
      reads this
    {
      NavView(scrolled, hidden, lastScroll)
    }

    ghost predicate Valid()
      reads this
    {
      Consistent(View())
    }

    /** `initNav` on a header found in the page: no class yet, `lastScroll` 0. */
    constructor ()
      ensures View() == Initial && Valid()
    {
      scrolled, hidden, lastScroll := false, false, 0.0;
    }

    /** The scroll trigger's `onUpdate` with the current offset. */
    method Update(scrollTop: real)
      modifies this
      ensures View() == Step(old(View()), scrollTop)
      ensures Valid()
    {
      if scrollTop > CompactDepth {
        scrolled := true;
        if scrollTop > lastScroll && scrollTop > HideDepth {
          hidden := true;
        } else {
          hidden := false;
        }
      } else {
        scrolled := false;
        hidden := false;
      }
      lastScroll := scrollTop;
    }
  }
}

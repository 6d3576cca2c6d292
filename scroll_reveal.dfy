/**
 * Reveal-on-scroll (script.js:63-79) and the reduced-motion reveal
 * (script.js:265-275).
 *
 * Each reveal element is seen through the top of its bounding box, relative
 * to the viewport, and whether it has the "active" class. A pass marks as
 * active every element whose top lies more than 100 pixels above the bottom
 * of the viewport; no pass ever removes the class.
 */
module ScrollReveal {

  /** How far above the viewport's bottom edge an element's top must be to be revealed. */
  const RevealPoint: int := 100

  /** A reveal element: its bounding box's top (in CSS pixels) and whether it is active. */
  datatype RevealElement = RevealElement(top: real, active: bool)

  /** The reveal test for one element, against the viewport's `innerHeight`. */
  predicate InRevealZone(top: real, windowHeight: int) {
    top < (windowHeight - RevealPoint) as real
  }

  /** The elements after one pass over them with the given viewport height. */
  function Pass(elements: seq<RevealElement>, windowHeight: int): (r: seq<RevealElement>)
    ensures |r| == |elements|
  {
    seq(|elements|, i requires 0 <= i < |elements| =>
      if InRevealZone(elements[i].top, windowHeight) then elements[i].(active := true) else elements[i])
  }

  /** The set of positions whose element is active. */
  function ActiveSet(elements: seq<RevealElement>): set<nat> {
    set i: nat | i < |elements| && elements[i].active
  }

  /**
   * After a pass, an element is active exactly when it was active before or
   * its top is in the reveal zone; positions never change.
   */
  lemma PassActivates(elements: seq<RevealElement>, windowHeight: int)
    ensures forall i :: 0 <= i < |elements| ==>
      Pass(elements, windowHeight)[i].top == elements[i].top &&
      (Pass(elements, windowHeight)[i].active <==>
        elements[i].active || InRevealZone(elements[i].top, windowHeight))
  {
  }

  /** A pass only adds to the active set. */
  lemma PassMonotone(elements: seq<RevealElement>, windowHeight: int)
    ensures ActiveSet(elements) <= ActiveSet(Pass(elements, windowHeight))
  {
  }

  /** For fixed positions and viewport, a second pass changes nothing. */
  lemma PassIdempotent(elements: seq<RevealElement>, windowHeight: int)
    ensures Pass(Pass(elements, windowHeight), windowHeight) == Pass(elements, windowHeight)
  {
  }

  /** What one scroll event presents to the handler: each element's new top and the viewport height. */
  datatype Frame = Frame(tops: seq<real>, windowHeight: int)

  /** The elements as scrolling moved them: new tops, same flags. */
  function MoveTo(elements: seq<RevealElement>, tops: seq<real>): (r: seq<RevealElement>)
    requires |tops| == |elements|
    ensures |r| == |elements|
  {
    seq(|elements|, i requires 0 <= i < |elements| => elements[i].(top := tops[i]))
  }

  /** Whether every frame gives a top for each of `count` elements. */
  predicate FitsFrames(frames: seq<Frame>, count: nat) {
    forall k :: 0 <= k < |frames| ==> |frames[k].tops| == count
  }

  /** The elements after a series of scroll events, each moving them and then running a pass. */
  function Replay(elements: seq<RevealElement>, frames: seq<Frame>): (r: seq<RevealElement>)
    requires FitsFrames(frames, |elements|)
    ensures |r| == |elements|
    decreases |frames|
  {
    if frames == [] then elements
    else
      var moved := Pass(MoveTo(elements, frames[0].tops), frames[0].windowHeight);
      Replay(moved, frames[1..])
  }

  /**
   * However the page scrolls between passes, the active set only grows:
   * an element once revealed stays revealed.
   */
  lemma {:induction false} ReplayMonotone(elements: seq<RevealElement>, frames: seq<Frame>)
    requires FitsFrames(frames, |elements|)
    ensures ActiveSet(elements) <= ActiveSet(Replay(elements, frames))
    decreases |frames|
  {
    if frames != [] {
      var moved := Pass(MoveTo(elements, frames[0].tops), frames[0].windowHeight);
      assert ActiveSet(elements) <= ActiveSet(moved);
      ReplayMonotone(moved, frames[1..]);
    }
  }

  /** An element that was in the reveal zone at any scroll event is active afterwards. */
  lemma {:induction false} ReplayRevealsEveryVisited(elements: seq<RevealElement>, frames: seq<Frame>, k: nat, i: nat)
    requires FitsFrames(frames, |elements|)
    requires k < |frames| && i < |elements|
    requires InRevealZone(frames[k].tops[i], frames[k].windowHeight)
    ensures Replay(elements, frames)[i].active
    decreases k
  {
    var moved := Pass(MoveTo(elements, frames[0].tops), frames[0].windowHeight);
    if k == 0 {
      ReplayMonotone(moved, frames[1..]);
      assert i in ActiveSet(moved);
    } else {
      ReplayRevealsEveryVisited(moved, frames[1..], k - 1, i);
    }
  }

  /** `revealOnScroll`: one pass over the elements in place. */
  method RevealOnScroll(elements: array<RevealElement>, windowHeight: int)
    modifies elements
    ensures elements[..] == Pass(old(elements[..]), windowHeight)
  {
    var i := 0;
    while i < elements.Length
      invariant 0 <= i <= elements.Length
      invariant forall k :: 0 <= k < i ==> elements[k] == Pass(old(elements[..]), windowHeight)[k]
      invariant forall k :: i <= k < elements.Length ==> elements[k] == old(elements[k])
    {
      if elements[i].top < (windowHeight - RevealPoint) as real {
        elements[i] := elements[i].(active := true);
      }
      i := i + 1;
    }
  }

  /** The reduced-motion branch: every reveal element is made active at once. */
  method RevealAll(elements: array<RevealElement>)
    modifies elements
    ensures forall k :: 0 <= k < elements.Length ==> elements[k] == old(elements[k]).(active := true)
  {
    var i := 0;
    while i < elements.Length
      invariant 0 <= i <= elements.Length
      invariant forall k :: 0 <= k < i ==> elements[k] == old(elements[k]).(active := true)
      invariant forall k :: i <= k < elements.Length ==> elements[k] == old(elements[k])
    {
      elements[i] := elements[i].(active := true);
      i := i + 1;
    }
  }
}

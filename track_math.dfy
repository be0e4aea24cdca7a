/**
 * The arithmetic of the image track: the clamp helper, the total content
 * width, the percentage-to-pixel mapping of the pan, the percentage steps of
 * a drag and of a wheel event, and the circular index used to move the
 * focus between wrappers. Percentages and pixel widths are exact reals.
 */
module TrackMath {

  /** Scale of one wheel event, in percent of the scrollable width per pixel of deltaY. */
  const ScrollSensitivity: real := 30.0
  /** A drag farther than this many pixels from its anchor is a drag, not a click. */
  const DragThreshold: real := 5.0
  /** The pan position is a percentage in [MinPercentage, MaxPercentage]. */
  const MinPercentage: real := -100.0
  const MaxPercentage: real := 0.0

  function Abs(v: real): real {
    if v < 0.0 then -v else v
  }

  /** Math.max(lo, Math.min(hi, v)). */
  function Clamp(v: real, lo: real, hi: real): (r: real)
    ensures lo <= r
    ensures lo <= hi ==> r <= hi
    ensures lo <= v <= hi ==> r == v
    ensures v < lo ==> r == lo
    ensures lo <= hi < v ==> r == hi
  {
    var m := if v < hi then v else hi;
    if lo < m then m else lo
  }

  /** Clamping preserves the order of its inputs. */
  lemma ClampMonotone(v: real, w: real, lo: real, hi: real)
    requires v <= w
    ensures Clamp(v, lo, hi) <= Clamp(w, lo, hi)
  {
  }

  /** The reduce of calculateTotalWidth: a left fold adding the wrapper widths to 0. */
  function SumWidths(widths: seq<real>): real
  {
    if widths == [] then 0.0 else SumWidths(widths[..|widths| - 1]) + widths[|widths| - 1]
  }

  /** The total content width: every wrapper's width plus the viewport width. */
  function TotalWidth(widths: seq<real>, viewportWidth: real): real
  {
    SumWidths(widths) + viewportWidth
  }

  lemma {:induction false} SumWidthsNonNegative(widths: seq<real>)
    requires forall i :: 0 <= i < |widths| ==> widths[i] >= 0.0
    ensures SumWidths(widths) >= 0.0
  {
    if widths != [] {
      SumWidthsNonNegative(widths[..|widths| - 1]);
    }
  }

  /**
   * When no wrapper has a negative width and at least one has a positive
   * width (hidden or not yet loaded wrappers may measure 0), the scrollable
   * width is positive, which is what the divisions of a drag and a wheel
   * event need.
   */
  lemma {:induction false} ScrollableWidthPositive(widths: seq<real>, viewportWidth: real)
    requires forall i :: 0 <= i < |widths| ==> widths[i] >= 0.0
    requires exists i :: 0 <= i < |widths| && widths[i] > 0.0
    ensures TotalWidth(widths, viewportWidth) - viewportWidth == SumWidths(widths) > 0.0
  {
    var prefix := widths[..|widths| - 1];
    if widths[|widths| - 1] > 0.0 {
      SumWidthsNonNegative(prefix);
    } else {
      var k :| 0 <= k < |widths| && widths[k] > 0.0;
      assert prefix[k] == widths[k];
      ScrollableWidthPositive(prefix, viewportWidth);
    }
  }

  /** The pixel offset of the track for a pan percentage (updatePosition's translateX). */
  function Translate(percentage: real, maxTranslate: real): (r: real)
    ensures MinPercentage <= percentage <= MaxPercentage && maxTranslate >= 0.0 ==>
              -maxTranslate <= r <= 0.0
  {
    (percentage / 100.0) * maxTranslate
  }

  /**
   * At the start of the track the offset is zero; at the end it is minus the
   * whole scrollable width, that is minus the sum of the wrapper widths.
   */
  lemma TranslateEnds(widths: seq<real>, viewportWidth: real)
    ensures Translate(MaxPercentage, TotalWidth(widths, viewportWidth) - viewportWidth) == 0.0
    ensures Translate(MinPercentage, TotalWidth(widths, viewportWidth) - viewportWidth) == -SumWidths(widths)
  {
  }

  /** The horizontal object-position, in percent, given to each image for an offset. */
  function ImagePosition(translateX: real, maxTranslate: real): real
    requires maxTranslate != 0.0
  {
    50.0 - (translateX / maxTranslate) * 50.0
  }

  /**
   * The image crop pans against the track: from 50% at the start of the
   * track to 100% at its end, half a percent per percent of pan.
   */
  lemma ImagePositionRange(percentage: real, maxTranslate: real)
    requires maxTranslate != 0.0
    ensures ImagePosition(Translate(percentage, maxTranslate), maxTranslate) == 50.0 - percentage / 2.0
    ensures MinPercentage <= percentage <= MaxPercentage ==>
              50.0 <= ImagePosition(Translate(percentage, maxTranslate), maxTranslate) <= 100.0
  {
    var t := percentage / 100.0;
    assert Translate(percentage, maxTranslate) == t * maxTranslate;
    assert (t * maxTranslate) / maxTranslate == t;
    assert ImagePosition(Translate(percentage, maxTranslate), maxTranslate) == 50.0 - t * 50.0;
  }

  /**
   * The pan percentage while dragging: the pointer's distance from the
   * anchor, as a share of the scrollable width, added to the percentage
   * committed when the last drag ended, and clamped.
   */
  function DragPercentage(prevPercentage: real, anchor: real, pointerX: real, maxDelta: real): (r: real)
    requires maxDelta != 0.0
    ensures MinPercentage <= r <= MaxPercentage
    ensures MinPercentage <= prevPercentage <= MaxPercentage && pointerX == anchor ==> r == prevPercentage
  {
    var mouseDelta := anchor - pointerX;
    var percentage := (mouseDelta / maxDelta) * -100.0;
    Clamp(prevPercentage + percentage, MinPercentage, MaxPercentage)
  }

  /** Moving the pointer to the right pans the track toward its start (toward 0%). */
  lemma DragMonotone(prevPercentage: real, anchor: real, x1: real, x2: real, maxDelta: real)
    requires maxDelta > 0.0
    requires x1 <= x2
    ensures DragPercentage(prevPercentage, anchor, x1, maxDelta) <= DragPercentage(prevPercentage, anchor, x2, maxDelta)
  {
    var d1, d2 := anchor - x1, anchor - x2;
    assert d2 / maxDelta <= d1 / maxDelta by {
      assert d2 <= d1;
      assert d1 / maxDelta - d2 / maxDelta == (d1 - d2) / maxDelta;
    }
    ClampMonotone(prevPercentage + (d1 / maxDelta) * -100.0, prevPercentage + (d2 / maxDelta) * -100.0,
                  MinPercentage, MaxPercentage);
  }

  /** The pan percentage after a wheel event, built on the current percentage. */
  function ScrollPercentage(currentPercentage: real, deltaY: real, maxDelta: real): (r: real)
    requires maxDelta != 0.0
    ensures MinPercentage <= r <= MaxPercentage
    ensures MinPercentage <= currentPercentage <= MaxPercentage && deltaY == 0.0 ==> r == currentPercentage
  {
    var percentage := (deltaY / maxDelta) * -ScrollSensitivity;
    Clamp(currentPercentage + percentage, MinPercentage, MaxPercentage)
  }

  /**
   * Wheeling down (positive deltaY) never pans back toward the start, and
   * wheeling up never pans toward the end.
   */
  lemma ScrollDirection(currentPercentage: real, deltaY: real, maxDelta: real)
    requires maxDelta > 0.0
    requires MinPercentage <= currentPercentage <= MaxPercentage
    ensures deltaY >= 0.0 ==> ScrollPercentage(currentPercentage, deltaY, maxDelta) <= currentPercentage
    ensures deltaY <= 0.0 ==> ScrollPercentage(currentPercentage, deltaY, maxDelta) >= currentPercentage
  {
  }

  /**
   * The index focused after a click on the right (next) or left (previous)
   * half of the viewport, circularly over `count` wrappers.
   */
  function NextIndex(current: nat, count: nat, isRightHalf: bool): (r: nat)
    requires current < count
    ensures r < count
    ensures isRightHalf ==> r == (if current == count - 1 then 0 else current + 1)
    ensures !isRightHalf ==> r == (if current == 0 then count - 1 else current - 1)
  {
    var x := if isRightHalf then current + 1 else current - 1 + count;
    WrapOnce(x, count);
    x % count
  }

  /** The remainder of a number below twice the divisor needs at most one subtraction. */
  lemma WrapOnce(x: nat, n: nat)
    requires 0 < n && x < 2 * n
    ensures x % n == if x < n then x else x - n
  {
  }

  /** A left-half click undoes a right-half click, and the other way round. */
  lemma NavigationRoundTrip(current: nat, count: nat)
    requires current < count
    ensures NextIndex(NextIndex(current, count, true), count, false) == current
    ensures NextIndex(NextIndex(current, count, false), count, true) == current
  {
  }

  /** The index reached by `steps` right-half clicks in a row. */
  function StepsRight(current: nat, count: nat, steps: nat): (r: nat)
    requires current < count
    ensures r < count
    decreases steps
  {
    if steps == 0 then current else StepsRight(NextIndex(current, count, true), count, steps - 1)
  }

  lemma {:induction false} StepsRightNoWrap(current: nat, count: nat, steps: nat)
    requires current + steps < count
    ensures StepsRight(current, count, steps) == current + steps
    decreases steps
  {
    if steps > 0 {
      StepsRightNoWrap(current + 1, count, steps - 1);
    }
  }

  lemma {:induction false} StepsRightSplit(current: nat, count: nat, a: nat, b: nat)
    requires current < count
    ensures StepsRight(current, count, a + b) == StepsRight(StepsRight(current, count, a), count, b)
    decreases a
  {
    if a > 0 {
      StepsRightSplit(NextIndex(current, count, true), count, a - 1, b);
    }
  }

  /** `count` right-half clicks in a row bring the focus back where it started. */
  lemma FullCycle(current: nat, count: nat)
    requires current < count
    ensures StepsRight(current, count, count) == current
  {
    var toLast := count - 1 - current;
    StepsRightNoWrap(current, count, toLast);
    StepsRightSplit(current, count, toLast, 1);
    assert StepsRight(current, count, toLast + 1) == 0;
    StepsRightSplit(current, count, toLast + 1, current);
    StepsRightNoWrap(0, count, current);
  }

  /** Right-half clicks alone reach every wrapper, each within fewer than `count` clicks. */
  lemma ReachesEveryWrapper(current: nat, target: nat, count: nat)
    requires current < count && target < count
    ensures var steps := if current <= target then target - current else count - current + target;
            steps < count && StepsRight(current, count, steps) == target
  {
    if current <= target {
      StepsRightNoWrap(current, count, target - current);
    } else {
      var toLast := count - 1 - current;
      StepsRightNoWrap(current, count, toLast);
      StepsRightSplit(current, count, toLast, 1);
      StepsRightSplit(current, count, toLast + 1, target);
      StepsRightNoWrap(0, count, target);
    }
  }

  /** The worked example of five wrappers. */
  lemma FiveWrapperExample()
    ensures NextIndex(0, 5, true) == 1
    ensures NextIndex(1, 5, false) == 0
    ensures NextIndex(0, 5, false) == 4
  {
  }
}

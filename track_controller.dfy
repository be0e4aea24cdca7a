/**
 * The TrackController of the image gallery: the shared pan and layout state,
 * the image wrappers it moves and re-classes, and one method per input
 * handler. A wrapper is identified by its index in the fixed wrapper array.
 */
module TrackControl {
  import opened TrackMath

  /** The layout marker classes layout-0 (focused), layout-1 (panning) and layout-2 (background). */
  datatype Layout = Focused | Panning | Background

  /** One image wrapper: the layout classes on it and its horizontal offset in pixels. */
  datatype Wrapper = Wrapper(classes: set<Layout>, x: real)

  /** Where a click landed: inside the wrapper at `index`, or outside every wrapper. */
  datatype Target = Outside | Inside(index: nat)

  /** Focus layout: the wrapper at `f` carries only layout-0, every other one only layout-2. */
  predicate FocusedOn(ws: seq<Wrapper>, f: nat)
  {
    f < |ws| && forall j :: 0 <= j < |ws| ==> ws[j].classes == if j == f then {Focused} else {Background}
  }

  /** Panning layout: no wrapper carries layout-0 or layout-2. */
  predicate Unfocused(ws: seq<Wrapper>)
  {
    forall j :: 0 <= j < |ws| ==> Focused !in ws[j].classes && Background !in ws[j].classes
  }

  /** Every wrapper sits at the same horizontal offset `x`. */
  predicate AtOffset(ws: seq<Wrapper>, x: real)
  {
    forall j :: 0 <= j < |ws| ==> ws[j].x == x
  }

  /** The click target lies inside a wrapper that carries layout-0. */
  predicate InsideFocused(ws: seq<Wrapper>, target: Target)
  {
    target.Inside? && target.index < |ws| && Focused in ws[target.index].classes
  }

  /** In the focus layout exactly one wrapper carries layout-0. */
  lemma FocusIsUnique(ws: seq<Wrapper>, f: nat)
    requires FocusedOn(ws, f)
    ensures (set j | 0 <= j < |ws| && Focused in ws[j].classes) == {f}
    ensures forall g: nat :: FocusedOn(ws, g) ==> g == f
  {
  }

  /** Whatever layout classes a wrapper had, toggleLayout leaves the clicked one with layout-0 alone. */
  lemma PromotedToFocused(c: set<Layout>)
    ensures c - {Panning, Background} + {Focused} == {Focused}
  {
    forall l: Layout ensures l in c - {Panning, Background} + {Focused} <==> l == Focused {
      if l == Panning || l == Background {
        assert l != Focused;
      }
    }
  }

  /** Whatever layout classes a wrapper had, toggleLayout leaves the others with layout-2 alone. */
  lemma DemotedToBackground(c: set<Layout>)
    ensures c - {Focused, Panning} + {Background} == {Background}
  {
    forall l: Layout ensures l in c - {Focused, Panning} + {Background} <==> l == Background {
      if l == Focused || l == Panning {
        assert l != Background;
      }
    }
  }

  class TrackController {
    /** The pointer X at which the current drag started; 0 when no drag is in progress. */
    var mouseDownAt: real
    /** The pan percentage committed when the last drag ended. */
    var prevPercentage: real
    /** The pan percentage shown now. */
    var currentPercentage: real
    /** Whether the pointer has moved far enough from its anchor to count as a drag. */
    var isDragging: bool
    /** Panning while the track can be dragged and wheeled, Focused once a wrapper was clicked. */
    var currentLayout: Layout
    /** The content width computed at the last resize. */
    var totalWidth: real
    /** The viewport width (window.innerWidth). */
    var viewportWidth: real
    /** The image wrappers, in document order. */
    const wrappers: array<Wrapper>

    ghost predicate PercentagesInRange()
      reads this
    {
      && MinPercentage <= prevPercentage <= MaxPercentage
      && MinPercentage <= currentPercentage <= MaxPercentage
    }

    /** The layout classes agree with the layout mode. */
    ghost predicate LayoutConsistent()
      reads this, wrappers
    {
      && (currentLayout == Panning ==> Unfocused(wrappers[..]))
      && (currentLayout == Focused ==> exists f :: FocusedOn(wrappers[..], f))
      && currentLayout != Background
    }

    /**
     * The controller's invariant: percentages within [-100, 0], classes that
     * match the layout mode, and, while panning, every wrapper at the offset
     * of the current percentage.
     */
    ghost predicate Valid()
      reads this, wrappers
    {
      && PercentagesInRange()
      && LayoutConsistent()
      && (currentLayout == Panning ==>
            AtOffset(wrappers[..], Translate(currentPercentage, totalWidth - viewportWidth)))
    }

    /**
     * The initial State, then init: strip layout-0 and layout-2 from every
     * wrapper and run the resize handler.
     */
    constructor (ws: array<Wrapper>, widths: seq<real>, viewport: real)
      requires |widths| == ws.Length
      modifies ws
      ensures Valid()
      ensures wrappers == ws
      ensures mouseDownAt == 0.0 && prevPercentage == 0.0 && currentPercentage == 0.0
      ensures !isDragging && currentLayout == Panning
      ensures totalWidth == TotalWidth(widths, viewport) && viewportWidth == viewport
      ensures forall j :: 0 <= j < ws.Length ==>
                ws[j] == Wrapper(old(ws[j].classes) - {Focused, Background}, 0.0)
    {
      wrappers := ws;
      mouseDownAt, prevPercentage, currentPercentage := 0.0, 0.0, 0.0;
      isDragging := false;
      currentLayout := Panning;
      totalWidth := 0.0;
      viewportWidth := viewport;
      new;
      ResetClasses();
      Resize(widths, viewport);
    }

    /** The class reset of init: layout-0 and layout-2 are removed from every wrapper. */
    method ResetClasses()
      modifies wrappers
      ensures Unfocused(wrappers[..])
      ensures forall j :: 0 <= j < wrappers.Length ==>
                wrappers[j] == old(wrappers[j]).(classes := old(wrappers[j].classes) - {Focused, Background})
    {
      var i := 0;
      while i < wrappers.Length
        invariant 0 <= i <= wrappers.Length
        invariant forall j :: 0 <= j < i ==>
                    wrappers[j] == old(wrappers[j]).(classes := old(wrappers[j].classes) - {Focused, Background})
        invariant forall j :: i <= j < wrappers.Length ==> wrappers[j] == old(wrappers[j])
      {
        wrappers[i] := wrappers[i].(classes := wrappers[i].classes - {Focused, Background});
        i := i + 1;
      }
    }

    /**
     * The resize handler: recompute the content width from the wrapper
     * widths and the new viewport width, then move the track to the current
     * percentage.
     */
    method Resize(widths: seq<real>, viewport: real)
      requires |widths| == wrappers.Length
      requires PercentagesInRange() && LayoutConsistent()
      modifies this`totalWidth, this`viewportWidth, wrappers
      ensures Valid()
      ensures totalWidth == TotalWidth(widths, viewport) && viewportWidth == viewport
      ensures totalWidth - viewportWidth == SumWidths(widths)
      ensures forall j :: 0 <= j < wrappers.Length ==>
                wrappers[j] == old(wrappers[j]).(x := Translate(currentPercentage, SumWidths(widths)))
    {
      totalWidth := TotalWidth(widths, viewport);
      viewportWidth := viewport;
      UpdatePosition(currentPercentage);
      KeepsLayoutConsistent(old(wrappers[..]), wrappers[..], currentLayout);
    }

    /** Moving only the offsets keeps the classes in agreement with the layout mode. */
    static lemma KeepsLayoutConsistent(before: seq<Wrapper>, after: seq<Wrapper>, mode: Layout)
      requires |before| == |after|
      requires forall j :: 0 <= j < |after| ==> after[j].classes == before[j].classes
      requires mode == Panning ==> Unfocused(before)
      requires mode == Focused ==> exists f :: FocusedOn(before, f)
      ensures mode == Panning ==> Unfocused(after)
      ensures mode == Focused ==> exists f :: FocusedOn(after, f)
    {
      if mode == Focused {
        var f :| FocusedOn(before, f);
        assert FocusedOn(after, f);
      }
    }

    /**
     * updatePosition: every wrapper is moved to the offset of `percentage`
     * (the target of its tween); the layout classes are untouched.
     */
    method UpdatePosition(percentage: real)
      modifies wrappers
      ensures AtOffset(wrappers[..], Translate(percentage, totalWidth - viewportWidth))
      ensures forall j :: 0 <= j < wrappers.Length ==>
                wrappers[j] == old(wrappers[j]).(x := Translate(percentage, totalWidth - viewportWidth))
    {
      var maxTranslate := totalWidth - viewportWidth;
      var translateX := (percentage / 100.0) * maxTranslate;
      var i := 0;
      while i < wrappers.Length
        invariant 0 <= i <= wrappers.Length
        invariant forall j :: 0 <= j < i ==> wrappers[j] == old(wrappers[j]).(x := translateX)
        invariant forall j :: i <= j < wrappers.Length ==> wrappers[j] == old(wrappers[j])
      {
        wrappers[i] := wrappers[i].(x := translateX);
        i := i + 1;
      }
    }

    /** handleDragStart: anchor the drag at the pointer and clear the dragging flag. */
    method DragStart(pointerX: real)
      requires Valid()
      modifies this`mouseDownAt, this`isDragging
      ensures Valid()
      ensures mouseDownAt == pointerX && !isDragging
    {
      mouseDownAt := pointerX;
      isDragging := false;
    }

    /** handleDragEnd: commit the current percentage, drop the anchor, clear the dragging flag. */
    method DragEnd()
      requires Valid()
      modifies this`mouseDownAt, this`prevPercentage, this`isDragging
      ensures Valid()
      ensures mouseDownAt == 0.0 && prevPercentage == currentPercentage && !isDragging
    {
      mouseDownAt := 0.0;
      prevPercentage := currentPercentage;
      isDragging := false;
    }

    /**
     * handleDragMove: nothing happens without an anchor or outside the
     * panning layout. Otherwise the flag is raised once the pointer is more
     * than 5 pixels from the anchor (and is never lowered here), and the
     * track moves to the committed percentage plus the drag distance, clamped.
     */
    method DragMove(pointerX: real)
      requires Valid()
      requires mouseDownAt != 0.0 && currentLayout == Panning ==> totalWidth - viewportWidth > 0.0
      modifies this`isDragging, this`currentPercentage, wrappers
      ensures Valid()
      ensures mouseDownAt == 0.0 || currentLayout != Panning ==>
                isDragging == old(isDragging) && currentPercentage == old(currentPercentage) && unchanged(wrappers)
      ensures mouseDownAt != 0.0 && currentLayout == Panning ==>
                && isDragging == (old(isDragging) || Abs(mouseDownAt - pointerX) > DragThreshold)
                && currentPercentage == DragPercentage(prevPercentage, mouseDownAt, pointerX, totalWidth - viewportWidth)
                && forall j :: 0 <= j < wrappers.Length ==>
                     wrappers[j] == old(wrappers[j]).(x := Translate(currentPercentage, totalWidth - viewportWidth))
    {
      if mouseDownAt == 0.0 || currentLayout != Panning {
        return;
      }
      var mouseDelta := mouseDownAt - pointerX;
      var maxDelta := totalWidth - viewportWidth;
      if Abs(mouseDelta) > DragThreshold {
        isDragging := true;
      }
      var percentage := (mouseDelta / maxDelta) * -100.0;
      var nextPercentageUnconstrained := prevPercentage + percentage;
      currentPercentage := Clamp(nextPercentageUnconstrained, MinPercentage, MaxPercentage);
      UpdatePosition(currentPercentage);
    }

    /**
     * handleScroll: nothing happens outside the panning layout. Otherwise the
     * wheel step is added to the current percentage (not the committed one),
     * clamped, and the track moves there; the committed percentage is kept.
     */
    method Scroll(deltaY: real)
      requires Valid()
      requires currentLayout == Panning ==> totalWidth - viewportWidth > 0.0
      modifies this`currentPercentage, wrappers
      ensures Valid()
      ensures currentLayout != Panning ==>
                currentPercentage == old(currentPercentage) && unchanged(wrappers)
      ensures currentLayout == Panning ==>
                && currentPercentage == ScrollPercentage(old(currentPercentage), deltaY, totalWidth - viewportWidth)
                && forall j :: 0 <= j < wrappers.Length ==>
                     wrappers[j] == old(wrappers[j]).(x := Translate(currentPercentage, totalWidth - viewportWidth))
    {
      if currentLayout != Panning {
        return;
      }
      var maxDelta := totalWidth - viewportWidth;
      var percentage := (deltaY / maxDelta) * -ScrollSensitivity;
      var nextPercentageUnconstrained := currentPercentage + percentage;
      currentPercentage := Clamp(nextPercentageUnconstrained, MinPercentage, MaxPercentage);
      UpdatePosition(currentPercentage);
    }

    /**
     * Array.some over the wrappers: whether any of them carries layout-0. The
     * body-level click listener runs the layout navigation only then.
     */
    method AnyFocused() returns (found: bool)
      ensures found <==> exists j :: 0 <= j < wrappers.Length && Focused in wrappers[j].classes
    {
      found := false;
      var i := 0;
      while i < wrappers.Length && !found
        invariant 0 <= i <= wrappers.Length
        invariant found <==> exists j :: 0 <= j < i && Focused in wrappers[j].classes
      {
        found := Focused in wrappers[i].classes;
        i := i + 1;
      }
    }

    /**
     * toggleLayout for a click on the wrapper at `clicked`, in any mode and
     * whether or not a drag just happened: that wrapper becomes the only one
     * with layout-0, all others get layout-2, every offset is reset to 0 and
     * the mode becomes the focus layout.
     */
    method ToggleLayout(clicked: nat)
      requires Valid()
      requires clicked < wrappers.Length
      modifies this`currentLayout, wrappers
      ensures Valid()
      ensures currentLayout == Focused
      ensures FocusedOn(wrappers[..], clicked)
      ensures AtOffset(wrappers[..], 0.0)
    {
      // The source's check that the clicked element is a wrapper always holds for a listener bound on a wrapper.
      var w := wrappers[clicked];
      PromotedToFocused(w.classes);
      wrappers[clicked] := w.(classes := w.classes - {Panning, Background} + {Focused});
      var i := 0;
      while i < wrappers.Length
        invariant 0 <= i <= wrappers.Length
        invariant wrappers[clicked].classes == {Focused}
        invariant forall j :: 0 <= j < i && j != clicked ==> wrappers[j].classes == {Background}
      {
        if i != clicked {
          var v := wrappers[i];
          DemotedToBackground(v.classes);
          wrappers[i] := v.(classes := v.classes - {Focused, Panning} + {Background});
        }
        i := i + 1;
      }
      i := 0;
      while i < wrappers.Length
        invariant 0 <= i <= wrappers.Length
        invariant FocusedOn(wrappers[..], clicked)
        invariant forall j :: 0 <= j < i ==> wrappers[j].x == 0.0
      {
        wrappers[i] := wrappers[i].(x := 0.0);
        i := i + 1;
      }
      currentLayout := Focused;
      assert FocusedOn(wrappers[..], clicked);
    }

    /**
     * handleLayoutNavigation: nothing happens unless the click landed inside
     * the wrapper carrying layout-0. Otherwise the focus moves to the next
     * wrapper for a click on the right half of the viewport and to the
     * previous one for the left half, circularly: the new wrapper gets
     * layout-0 in place of layout-2, every other one layout-2 in place of
     * layout-0. Offsets are untouched.
     */
    method LayoutNavigation(target: Target, clickX: real)
      requires Valid()
      modifies wrappers
      ensures Valid()
      ensures !InsideFocused(old(wrappers[..]), target) ==> unchanged(wrappers)
      ensures InsideFocused(old(wrappers[..]), target) ==>
                var next := NextIndex(target.index, wrappers.Length, clickX > viewportWidth / 2.0);
                && currentLayout == Focused
                && FocusedOn(wrappers[..], next)
                && forall j :: 0 <= j < wrappers.Length ==> wrappers[j].x == old(wrappers[j].x)
    {
      if !(target.Inside? && target.index < wrappers.Length && Focused in wrappers[target.index].classes) {
        return;
      }
      ghost var f :| FocusedOn(wrappers[..], f);
      var isRightHalf := clickX > viewportWidth / 2.0;
      var currentIndex := target.index;
      var nextIndex := if isRightHalf then (currentIndex + 1) % wrappers.Length
                       else (currentIndex - 1 + wrappers.Length) % wrappers.Length;
      assert nextIndex == NextIndex(currentIndex, wrappers.Length, isRightHalf);
      var i := 0;
      while i < wrappers.Length
        invariant 0 <= i <= wrappers.Length
        invariant forall j :: 0 <= j < i ==> wrappers[j].classes == if j == nextIndex then {Focused} else {Background}
        invariant forall j :: i <= j < wrappers.Length ==> wrappers[j] == old(wrappers[j])
        invariant forall j :: 0 <= j < wrappers.Length ==> wrappers[j].x == old(wrappers[j].x)
      {
        var w := wrappers[i];
        assert w.classes == {Focused} || w.classes == {Background};
        if i == nextIndex {
          wrappers[i] := w.(classes := w.classes - {Background} + {Focused});
        } else {
          wrappers[i] := w.(classes := w.classes - {Focused} + {Background});
        }
        i := i + 1;
      }
      assert FocusedOn(wrappers[..], nextIndex);
    }

    /**
     * A click on the wrapper at `clicked`: its own listener runs toggleLayout,
     * then the body listener, finding a wrapper with layout-0, runs the
     * layout navigation from that same wrapper. The focus therefore ends on
     * the clicked wrapper's neighbour, on the side of the click.
     */
    method Click(clicked: nat, clickX: real)
      requires Valid()
      requires clicked < wrappers.Length
      modifies this`currentLayout, wrappers
      ensures Valid()
      ensures currentLayout == Focused
      ensures FocusedOn(wrappers[..], NextIndex(clicked, wrappers.Length, clickX > viewportWidth / 2.0))
      ensures AtOffset(wrappers[..], 0.0)
    {
      ToggleLayout(clicked);
      var any := AnyFocused();
      if any {
        LayoutNavigation(Inside(clicked), clickX);
      }
    }

    /**
     * A whole drag gesture in the panning layout: mousedown at `downX`, one
     * mousemove to `moveX`, mouseup. The percentage the drag reached is
     * committed, and the next drag builds on it.
     */
    method DragGesture(downX: real, moveX: real)
      requires Valid()
      requires currentLayout == Panning && totalWidth - viewportWidth > 0.0
      requires downX != 0.0
      modifies this`mouseDownAt, this`prevPercentage, this`currentPercentage, this`isDragging, wrappers
      ensures Valid()
      ensures currentPercentage == DragPercentage(old(prevPercentage), downX, moveX, totalWidth - viewportWidth)
      ensures prevPercentage == currentPercentage
      ensures mouseDownAt == 0.0 && !isDragging
      ensures AtOffset(wrappers[..], Translate(currentPercentage, totalWidth - viewportWidth))
      ensures forall j :: 0 <= j < wrappers.Length ==> wrappers[j].classes == old(wrappers[j].classes)
    {
      DragStart(downX);
      DragMove(moveX);
      DragEnd();
    }

    /**
     * A wheel event followed by a press and a move that has not yet left the
     * anchor: because the wheel step was never committed, the track returns
     * to the percentage of the last drag, whatever the wheel did.
     */
    method ScrollThenPress(deltaY: real, pressX: real)
      requires Valid()
      requires currentLayout == Panning && totalWidth - viewportWidth > 0.0
      requires pressX != 0.0
      modifies this`mouseDownAt, this`currentPercentage, this`isDragging, wrappers
      ensures Valid()
      ensures prevPercentage == old(prevPercentage)
      ensures currentPercentage == old(prevPercentage)
      ensures mouseDownAt == pressX && !isDragging
      ensures AtOffset(wrappers[..], Translate(old(prevPercentage), totalWidth - viewportWidth))
      ensures forall j :: 0 <= j < wrappers.Length ==> wrappers[j].classes == old(wrappers[j].classes)
    {
      Scroll(deltaY);
      DragStart(pressX);
      DragMove(pressX);
    }
  }
}

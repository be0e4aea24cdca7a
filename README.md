# Image track controller — a Dafny model

This project models the `TrackController` of a one-page image gallery
(`script.js`). A horizontal track of image wrappers is panned by dragging
and by the mouse wheel. Clicking a wrapper switches the page from the
panning layout (`layout-1`) to a focus layout. In the focus layout one
wrapper carries `layout-0` and every other wrapper carries `layout-2`.
Clicks then move the focus to the next or previous wrapper, circularly.

The model has two modules:

- `TrackMath` (`track_math.dfy`) holds the pure arithmetic: `clamp`, the
  width fold of `calculateTotalWidth`, the percentage-to-offset mapping of
  `updatePosition`, the percentage steps of a drag and of a wheel event, and
  the circular index of the layout navigation. Percentages and pixel widths
  are exact `real`s.
- `TrackControl` (`track_controller.dfy`) holds `TrackController`, a class
  over the fields of the `State` object, the content width, the viewport
  width and a fixed array of wrappers. Each wrapper is a set of layout
  classes and an x-offset. There is one method per handler. The loops of
  `init`, `updatePosition`, `toggleLayout` and `handleLayoutNavigation`
  become `while` loops over the array. The class invariant `Valid()` has
  three parts:
  - both percentages lie in [-100, 0];
  - in the panning layout no wrapper carries `layout-0` or `layout-2`, and
    every wrapper sits at the offset of the current percentage;
  - in the focus layout exactly one wrapper is focused.

The model follows the code in several places:

- A click on a wrapper reaches two listeners. The wrapper's listener runs
  `toggleLayout`. The body's listener then finds a wrapper with `layout-0`
  and runs the layout navigation from that same wrapper. So, as written,
  the focus ends on the clicked wrapper's neighbour, on the side of the
  click, and not on the clicked wrapper (`Click`).
- The layout navigation returns early unless, at the moment it runs, the
  click target lies inside the wrapper that carries `layout-0`
  (`LayoutNavigation`). In the page the wrapper's own listener has already
  given the clicked wrapper `layout-0`, so only a click outside every
  wrapper leaves the navigation idle.
- `toggleLayout` checks neither the layout mode nor the dragging flag.
- A wheel event moves `currentPercentage` but does not commit it to
  `prevPercentage`. Every pointer release commits it, a plain click
  included. The next drag builds on `prevPercentage`, so the track jumps
  back to the percentage committed at the last pointer release
  (`ScrollThenPress`).
- Inputs from the browser are parameters: the pointer X, the wheel delta,
  the click X, the index of the wrapper a click landed in, and the measured
  wrapper widths and viewport width at a resize.

## Model

| member | source | states |
|---|---|---|
| `TrackMath.Clamp` | script.js:38 | The result is never below `lo`, and never above `hi` when `lo <= hi`. A value already in range is returned unchanged. A value below the range gives `lo`; one above it gives `hi`. |
| `TrackMath.ClampMonotone` | script.js:38 | Clamping preserves the order of its inputs. |
| `TrackMath.SumWidths` | script.js:2 | The `reduce` over the wrapper widths as a left fold from 0. It has no contract of its own; its properties are in `SumWidthsNonNegative` and `ScrollableWidthPositive`. |
| `TrackMath.TotalWidth` | script.js:1-3 | `calculateTotalWidth`: the sum of the wrapper widths plus the viewport width. It has no contract of its own; `ScrollableWidthPositive` and `TranslateEnds` state its properties. |
| `TrackMath.SumWidthsNonNegative` | script.js:1-3 | The fold of non-negative wrapper widths is non-negative. |
| `TrackMath.ScrollableWidthPositive` | script.js:1-3 | The total width minus the viewport width is exactly the sum of the wrapper widths. That sum is positive when no width is negative and at least one wrapper has a positive width (others may measure 0), which is what the divisions of a drag and a wheel event need. |
| `TrackMath.Translate` | script.js:42-43 | For a percentage in [-100, 0] and a non-negative scrollable width, the offset lies between minus that width and 0. |
| `TrackMath.TranslateEnds` | script.js:42-43 | The offset is 0 at 0% and minus the sum of the wrapper widths at -100%. |
| `TrackMath.ImagePosition` | script.js:53 | The image's object-position for an offset. It has no contract of its own; `ImagePositionRange` states its value and range. |
| `TrackMath.ImagePositionRange` | script.js:52-53 | The image's object-position is `50 - p/2` for pan percentage `p`, so it lies in [50, 100] while `p` is in [-100, 0]. |
| `TrackMath.DragPercentage` | script.js:77-86 | The dragged percentage always lies in [-100, 0]. A pointer back at its anchor restores the committed percentage. |
| `TrackMath.DragMonotone` | script.js:77-86 | Moving the pointer further right never pans further toward the end of the track. |
| `TrackMath.ScrollPercentage` | script.js:93-97 | The scrolled percentage always lies in [-100, 0]. A zero wheel delta leaves an in-range percentage unchanged. |
| `TrackMath.ScrollDirection` | script.js:93-97 | Wheeling down never pans toward the start, and wheeling up never pans toward the end. |
| `TrackMath.NextIndex` | script.js:107-119 | The new index is within [0, n). A right-half click gives the next index, wrapping from the last index to 0. A left-half click gives the previous index, wrapping from 0 to the last index. |
| `TrackMath.NavigationRoundTrip` | script.js:115-119 | A left-half click undoes a right-half click, and the other way round. |
| `TrackMath.StepsRight` | script.js:116 | Any number of right-half clicks in a row stays within [0, n). |
| `TrackMath.StepsRightNoWrap` | script.js:116 | Right-half clicks that do not pass the last wrapper advance the index by one each. |
| `TrackMath.StepsRightSplit` | script.js:116 | Clicking a+b times equals clicking a times, then b times. |
| `TrackMath.FullCycle` | script.js:116 | Exactly n right-half clicks bring the focus back to where it started. |
| `TrackMath.ReachesEveryWrapper` | script.js:116 | Every wrapper is reached from any focused wrapper by fewer than n right-half clicks. |
| `TrackMath.FiveWrapperExample` | script.js:115-119 | With five wrappers: right from 0 gives 1, left from 1 gives 0, left from 0 gives 4. |
| `TrackControl.FocusIsUnique` | script.js:123-131 | In the focus layout the set of wrappers with `layout-0` is exactly the focused one, so the focused index is unique. |
| `TrackControl.PromotedToFocused` | script.js:144-145 | Whatever layout classes the clicked wrapper had, removing `layout-1` and `layout-2` and adding `layout-0` leaves exactly `layout-0`. |
| `TrackControl.DemotedToBackground` | script.js:147-152 | Whatever layout classes another wrapper had, removing `layout-0` and `layout-1` and adding `layout-2` leaves exactly `layout-2`. |
| `TrackControl.TrackController.constructor` | script.js:207-211 | The initial `State` values hold (percentages 0, no anchor, not dragging, panning layout). Every wrapper loses `layout-0` and `layout-2` and sits at offset 0. The content width is the sum of the widths plus the viewport width. The invariant holds. |
| `TrackControl.TrackController.ResetClasses` | script.js:208-210 | Every wrapper loses `layout-0` and `layout-2` and keeps everything else, so no wrapper is focused or in the background. |
| `TrackControl.TrackController.Resize` | script.js:183-186 | The total width is recomputed, and the total minus the viewport width equals the sum of the wrapper widths. Every wrapper moves to the offset of the current percentage. The classes are kept and the invariant holds. |
| `TrackControl.TrackController.UpdatePosition` | script.js:41-50 | Every wrapper's offset becomes `(p/100)·(totalWidth − viewportWidth)`. Its classes are untouched. |
| `TrackControl.TrackController.DragStart` | script.js:63-66 | The anchor is set to the pointer X and the dragging flag is cleared. Nothing else changes. |
| `TrackControl.TrackController.DragEnd` | script.js:68-72 | The anchor is cleared to 0, the current percentage is committed to `prevPercentage`, and the dragging flag is cleared. Nothing else changes. |
| `TrackControl.TrackController.DragMove` | script.js:74-89 | Without an anchor or outside the panning layout, nothing changes. Otherwise the flag is raised when the pointer is more than 5 px from the anchor, and is never lowered. The current percentage becomes the clamped committed percentage plus the drag share, and every wrapper moves to its offset. `prevPercentage` is untouched. |
| `TrackControl.TrackController.Scroll` | script.js:91-100 | Outside the panning layout nothing changes. Otherwise the clamped wheel step is added to the current percentage, not to the committed one, and every wrapper moves to its offset. `prevPercentage` and the dragging flag are untouched. |
| `TrackControl.TrackController.AnyFocused` | script.js:200-201 | The result is true exactly when some wrapper carries `layout-0`. |
| `TrackControl.TrackController.ToggleLayout` | script.js:140-180 | In either mode, the clicked wrapper ends with only `layout-0` and every other wrapper with only `layout-2`. Every offset becomes 0 and the layout becomes the focus layout. |
| `TrackControl.TrackController.LayoutNavigation` | script.js:102-138 | Unless the click lies inside the wrapper carrying `layout-0`, nothing changes. Otherwise exactly the wrapper at the next index (right half) or the previous index (left half), taken circularly, is focused. Every other wrapper is in the background, and the offsets are kept. |
| `TrackControl.TrackController.Click` | script.js:197-204 | After the wrapper's listener and then the body's listener, the layout is the focus layout and all offsets are 0. Exactly the clicked wrapper's circular neighbour on the side of the click is focused. |
| `TrackControl.TrackController.DragGesture` | script.js:190-195 | A press, one move and a release in the panning layout commit the dragged percentage to both percentages. They clear the anchor and the flag, and leave every wrapper at that percentage's offset. Every wrapper keeps its classes. |
| `TrackControl.TrackController.ScrollThenPress` | script.js:85-97 | A wheel event followed by a press and a move at the press point returns the track to the last committed percentage, and every wrapper to that percentage's offset. The wheel step is lost, and every wrapper keeps its classes. |

## Left out

- The animation engine: tween durations, easing, staggering and the snapshot-and-replay layout transitions (script.js:46-59, 121, 133-137, 158-176). A wrapper's x-offset in the model is the target of its last tween or `set`. The in-between frames are not modelled, and neither is a tween still running after a later `set`.
- The image's `objectPosition` string: only its numeric value is modelled, by `ImagePosition` and `ImagePositionRange`. It is not stored on the wrappers.
- The smooth-scroll driver and the per-frame loop (script.js:29-34, 213). They hold no logic of this component.
- Event registration and DOM lookup (script.js:188-205, 103, 111-112). A click is given as the index of the wrapper it landed in. The list the navigation queries is taken to be the same wrapper list the controller holds. `init` runs twice (script.js:216-217), which may bind every listener except the resize one twice (`handleResize` is the same function both times, so it is bound once); this is not modelled. The visible effect is on the wheel: `handleScroll` is the only handler whose result differs when it runs twice, so each wheel event would apply its step twice, each clamped. The drag, release and click handlers give the same result whether they run once or twice.
- IEEE-754 arithmetic, `parseFloat`, and the `clientX || touches[0].clientX` fallback (script.js:64, 77). The pointer X is a plain real. A pointer at X = 0 falls back to the touch list in the source. For a mouse event `e.touches` is undefined, so `handleDragStart` and, past its guard, `handleDragMove` throw a TypeError and leave `State` as it was. The model instead sets the anchor to 0 in `DragStart`, and pans as if the pointer were at X = 0 in `DragMove`.
- `TrackControl.TrackController.DragMove`: requires a positive scrollable width once past its guard. With no wrapper width the source divides by zero: a nonzero pointer delta gives an infinite step, which the clamp turns into -100 or 0, and a zero delta gives NaN, which the clamp passes through and which is then stored.
- `TrackControl.TrackController.Scroll`: requires a positive scrollable width once past its guard, for the same reason: a nonzero wheel delta is clamped to -100 or 0, and a zero delta stores NaN.
- `isAnimating`, `maxPercentage` and the duration constants (script.js:8-10, 19). No logic reads them.

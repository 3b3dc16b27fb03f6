# Draggable invite-bot widget — Dafny model

This project models the controller inside the `App` component of the React
draggable widget. The widget is a floating icon cluster. It can be dragged around
the viewport and snaps to the left or right edge when the drag ends. It remembers
which side it is on, tracks whether the pointer is over it, and cycles through
three lifecycle states when its icon is clicked: idle → bot in meeting → bot
paused → idle.

Modules:

- `WidgetState` (`widget_state.dfy`). The component's state as a value (`Widget`)
  and one pure transition per event: `AfterDrag`, `AfterStop`, `AfterResize`,
  `AfterClick`, `AfterHover`. It also holds the midpoint test `IsRightOf` and the
  click cycle `Next`.
- `WidgetTraces` (`widget_traces.dfy`). Event sequences (`Event`, `Run`) and what
  holds after any of them.
- `WidgetView` (`widget_view.dfy`). What each render derives from the state. This
  is the container's class attribute, with its class list as the browser splits
  it (`ClassName`, `ClassList`). It is also the side-dependent radii, margins and
  flex direction (`LayoutFor`), and the lifecycle icon shown (`GlyphFor`).
- `App` (`app.dfy`). Class `Controller` has the component's state hooks as fields
  (`x`, `y`, `isRightSide`, `isHovered`, `state`), plus `width`, the last
  `window.innerWidth` a handler read. It has one method per handler. Each method
  is proved to change the fields exactly as the matching `WidgetState` transition
  says.

Modelling choices:

- `window.innerWidth` is a `nat` argument of every handler that reads it (drag,
  drag end, resize).
- The source compares `x > innerWidth / 2` with floating-point division. The model
  uses `2 * x > w` over integers, and `IsRightOf` proves that this is the same as
  the real-number comparison.
- The drag library's `ui.deltaX` and `ui.deltaY` are arguments. `handleStop`
  receives `deltaY` but never uses it: the code snaps with `position.y`, and the
  model keeps `y` unchanged.
- At drag end the side is decided by `position.x + ui.deltaX` (src/App.js:28-29),
  not by the stored `x`. The model follows the code.
- In the `"loading"` state the code renders no lifecycle icon, so there is no
  click handler. A click there changes nothing. No handler ever sets
  `"loading"`, and `NeverLoading` proves that no event sequence reaches it from
  the other three states.
- A right snap puts `x` at `width - 5`. That is past the midpoint only when the
  width is more than 10 pixels. So the invariant "side agrees with position"
  survives a drag end only in viewports wider than 10 pixels.
  `StopConsistentIff` states this exactly, and `NarrowViewportStop` gives a
  concrete 8-pixel case.

## Model

| member | source | states |
|---|---|---|
| `WidgetState.Initial` | src/App.js:7-11 | the start state: x = 0, y = 50, left side, not hovered, idle; its side flag is consistent with its position for every width |
| `WidgetState.IsRightOf` | src/App.js:13-16 | the integer test `2*x > w` equals the JavaScript test `x > innerWidth / 2` on reals; a position exactly at the midpoint is left |
| `WidgetState.MidpointIsLeft` | src/App.js:13-16 | the midpoint itself counts as left and one pixel past it counts as right (the boundary is exclusive) |
| `WidgetState.Next` | src/App.js:157-231 | a click never produces or leaves `Loading`; in each of the three visible states it changes the state |
| `WidgetState.AfterDrag` | src/App.js:19-24 | a drag moves the position by exactly (dx, dy); afterwards the side agrees with the new x against the width read; hover and lifecycle are unchanged |
| `WidgetState.AfterStop` | src/App.js:27-39 | a drag end leaves x at 0 or at width - 5; it is right (and at width - 5) exactly when x + dx is past the real midpoint; y, hover and lifecycle are unchanged |
| `WidgetState.AfterResize` | src/App.js:42-45 | a resize moves neither x nor y; the side is recomputed from the stored x against the new width |
| `WidgetState.AfterClick` | src/App.js:157-231 | a click changes only the lifecycle state and never brings in or removes `Loading` |
| `WidgetState.AfterHover` | src/App.js:116-117 | mouse enter / leave set the hover flag to true / false and change nothing else |
| `WidgetState.InitialState` | src/App.js:7-11 | the start state is x = 0, y = 50, left, not hovered, idle, and its side flag is consistent for every width |
| `WidgetState.ClickCycle` | src/App.js:159-231 | from any visible state, three clicks return to it, passing through all three of idle, bot-in-meeting and bot-paused |
| `WidgetState.StopConsistentIff` | src/App.js:27-39 | after a drag end, side and position agree exactly when the snap was to the left or the width exceeds 10 |
| `WidgetState.NarrowViewportStop` | src/App.js:31-37 | in an 8-pixel viewport a right snap leaves x = 3 flagged right though 3 is not past the midpoint |
| `WidgetState.HoverIndependent` | src/App.js:116-117 | hover events commute with drag, drag end, resize and click: they do not interact with position, side or lifecycle |
| `WidgetTraces.NeverLoading` | src/App.js:157-231 | no sequence of events reaches `Loading` from a visible lifecycle state |
| `WidgetTraces.StaysConsistent` | src/App.js:13-48 | the side flag agrees with the position after every event sequence whose drag ends all happen in viewports wider than 10 pixels |
| `WidgetTraces.EndsDocked` | src/App.js:27-39 | after any history, a drag end leaves the widget at x = 0 or x = width - 5, on the side where the drag ended, at the same height |
| `WidgetTraces.ClickCycles` | src/App.js:159-231 | any multiple of three clicks from a visible state returns the whole widget to where it was |
| `WidgetTraces.HoverTrace` | src/App.js:116-117 | a run of enter/leave events changes only the hover flag, which ends as set by the last event |
| `WidgetTraces.SnapThenWiden` | src/App.js:27-48 | released at x = 800 in a 1000-pixel viewport the widget snaps to 995 on the right; widening the window to 1600 keeps it right and unmoved |
| `WidgetView.ClassName` | src/App.js:66-70 | the class attribute starts with `side-widget-container `; an empty slot leaves its separating space in place (a trailing space when not hovered) |
| `WidgetView.ClassNames` | src/App.js:66-70 | the container's class list is `side-widget-container`, then `loading` iff loading, `right-side` iff right (else `left-side`), then `hovered` iff hovered |
| `WidgetView.LayoutFor` | src/App.js:73-112 | radii are {100, 10} with the round corner top-left iff right; the handle has one 5-pixel margin and one 0 margin, the 5 on its left iff right; the icons run `row-reverse` iff right |
| `WidgetView.LayoutMirrored` | src/App.js:73-112 | the right-side layout is the left-right mirror image of the left-side one |
| `WidgetView.GlyphFor` | src/App.js:157-248 | an icon is shown exactly outside `Loading`; the invite icon exactly when idle |
| `WidgetView.GlyphSequence` | src/App.js:157-248 | clicks step the shown icon invite → pause → resume → invite; a click changes the state exactly when an icon (and so its handler) is shown |
| `WidgetView.InitialView` | src/App.js:7-11 | the freshly mounted widget has classes `side-widget-container left-side`, lays out left to right, and shows the invite icon |
| `App.Controller.constructor` | src/App.js:7-11 | the fields start with the initial values of the state hooks |
| `App.Controller.UpdateSide` | src/App.js:13-16 | sets the side flag to the midpoint test of the given x; the position, hover and lifecycle are unchanged |
| `App.Controller.HandleDrag` | src/App.js:19-24 | the fields become `AfterDrag` of the old fields; x and y move by the deltas and the side is consistent |
| `App.Controller.HandleStop` | src/App.js:27-39 | the fields become `AfterStop` of the old fields; x ends at 0 or width - 5; y is kept; side is consistent when the width exceeds 10 |
| `App.Controller.HandleResize` | src/App.js:42-48 | the fields become `AfterResize` of the old fields; the position is unchanged and the side is consistent |
| `App.Controller.Click` | src/App.js:157-231 | the fields become `AfterClick` of the old fields; a visible state always changes and never becomes `Loading` |
| `App.Controller.MouseEnter` | src/App.js:116 | the fields become `AfterHover(old, true)` |
| `App.Controller.MouseLeave` | src/App.js:117 | the fields become `AfterHover(old, false)` |

## Left out

- The JSX tree and the inline SVG path data are not modelled. They are static art. Only which lifecycle icon is shown is kept (`GlyphFor`).
- The `react-draggable` library is not modelled: its pointer tracking, its 25-pixel grid and how it computes `deltaX`/`deltaY`. The deltas are taken as arguments.
- `ScaleLoader` is imported but never rendered. Nothing sets the `"loading"` state, so nothing models how it would be set.
- Listener registration and removal in `useEffect`, and `useRef`, are not modelled. They are host-environment plumbing. The resize handler is modelled as a method that the host calls with the new width.
- React's asynchronous state batching is not modelled. Each handler is one atomic update of the fields, and the last setter wins, as React applies them.
- Reading `window.innerWidth` is modelled as an integer argument. The floating-point midpoint is handled exactly as described above.
- The stylesheet and the constant style values are not modelled (z-index, display, alignment). Only the side-dependent radii, margins and flex direction are kept.
- Fractional pixel positions are not modelled: `x`, `y` and the deltas are integers, where the source holds JavaScript numbers. With the 25-pixel grid the drag library reports whole-number deltas and `x` starts at 0, so positions stay whole numbers in practice.

/** The state of the floating widget and the effect of each event on it, as values.
    The class in `App` keeps the same fields and is proved to follow these functions. */
module WidgetState {

  /** The values `widgetState` takes: "idle", "bot-in-meeting", "bot-paused" and the
      "loading" value that the rendering tests for but no handler ever sets. */
  datatype Lifecycle = Idle | InMeeting | Paused | Loading

  /** Everything the widget owns (position, side, hover, lifecycle) together with the
      viewport width (`window.innerWidth`) that the last handler read. */
  datatype Widget = Widget(
    x: int,
    y: int,
    width: nat,
    isRightSide: bool,
    isHovered: bool,
    state: Lifecycle)

  /** The gap, in pixels, left between a right-docked widget and the right edge. */
  const RightEdgeGap: int := 5

  /** The state the component starts in, for a viewport of width `w`. */
  function Initial(w: nat): (s: Widget)
    ensures s.x == 0 && s.y == 50 && s.width == w
    ensures !s.isRightSide && !s.isHovered && s.state == Idle
    ensures Consistent(s)
  {
    Widget(0, 50, w, false, false, Idle)
  }

  /** The midpoint test of `updateSide` and `handleStop`: `x > innerWidth / 2`, where the
      division is JavaScript's floating-point one; over integers it is `2 * x > w`. */
  function IsRightOf(x: int, w: int): (r: bool)
    ensures r <==> x as real > w as real / 2.0
  {
    2 * x > w
  }

  /** The side flag agrees with the stored position against the last width read. */
  predicate Consistent(s: Widget) {
    s.isRightSide == IsRightOf(s.x, s.width)
  }

  /** The click handler of the icon currently shown. In `Loading` no icon, and so no
      handler, is rendered, and a click changes nothing. */
  function Next(st: Lifecycle): (r: Lifecycle)
    ensures r == Loading <==> st == Loading
    ensures st != Loading ==> r != st
  {
    match st
    case Idle => InMeeting
    case InMeeting => Paused
    case Paused => Idle
    case Loading => Loading
  }

  /** `handleDrag`: move by the library's deltas and recompute the side. */
  function AfterDrag(s: Widget, dx: int, dy: int, w: nat): (r: Widget)
    ensures r.x - s.x == dx && r.y - s.y == dy && r.width == w
    ensures Consistent(r)
    ensures r.isHovered == s.isHovered && r.state == s.state
  {
    s.(x := s.x + dx, y := s.y + dy, width := w, isRightSide := IsRightOf(s.x + dx, w))
  }

  /** `handleStop`: the side is decided by where the drag ended (`x + dx`), then the
      widget is snapped to the matching edge. The vertical delta is not used. */
  function AfterStop(s: Widget, dx: int, dy: int, w: nat): (r: Widget)
    ensures r.x == 0 || r.x == w - RightEdgeGap
    ensures r.isRightSide <==> (s.x + dx) as real > w as real / 2.0
    ensures r.x == (if r.isRightSide then w - RightEdgeGap else 0)
    ensures r.y == s.y && r.width == w
    ensures r.isHovered == s.isHovered && r.state == s.state
  {
    var newX := s.x + dx;
    var right := IsRightOf(newX, w);
    s.(x := if right then w - RightEdgeGap else 0, width := w, isRightSide := right)
  }

  /** The resize listener: the side is recomputed from the stored `x` and the new width;
      the widget does not move. */
  function AfterResize(s: Widget, w: nat): (r: Widget)
    ensures r.x == s.x && r.y == s.y && r.width == w
    ensures Consistent(r)
    ensures r.isHovered == s.isHovered && r.state == s.state
  {
    s.(width := w, isRightSide := IsRightOf(s.x, w))
  }

  /** A click on the lifecycle icon. */
  function AfterClick(s: Widget): (r: Widget)
    ensures r.state != Loading <==> s.state != Loading
    ensures r.(state := s.state) == s
  {
    s.(state := Next(s.state))
  }

  /** `onMouseEnter` (`inside` true) and `onMouseLeave` (`inside` false). */
  function AfterHover(s: Widget, inside: bool): (r: Widget)
    ensures r.isHovered == inside
    ensures r.(isHovered := s.isHovered) == s
  {
    s.(isHovered := inside)
  }

  /** The initial state: at the left edge, 50 pixels down, left side, not hovered, idle;
      its side flag is consistent whatever the width. */
  lemma InitialState(w: nat)
    ensures var s := Initial(w);
      s.x == 0 && s.y == 50 && !s.isRightSide && !s.isHovered && s.state == Idle
    ensures Consistent(Initial(w))
  {
  }

  /** A position exactly at the midpoint counts as left; one pixel past it as right. */
  lemma MidpointIsLeft(w: nat)
    ensures w % 2 == 0 ==> !IsRightOf(w / 2, w)
    ensures IsRightOf(w / 2 + 1, w)
  {
  }

  /** Three clicks bring each of the three visible states back to itself, passing
      through all three; a click never produces `Loading`. */
  lemma ClickCycle(s: Widget)
    requires s.state != Loading
    ensures AfterClick(AfterClick(AfterClick(s))) == s
    ensures {s.state, Next(s.state), Next(Next(s.state))} == {Idle, InMeeting, Paused}
  {
  }

  /** After a stop the side flag agrees with the snapped position exactly when the widget
      was snapped left or the viewport is wider than 10 pixels: a right snap puts `x` at
      `w - 5`, which is past the midpoint only when `w > 10`. */
  lemma StopConsistentIff(s: Widget, dx: int, dy: int, w: nat)
    ensures Consistent(AfterStop(s, dx, dy, w)) <==> (!IsRightOf(s.x + dx, w) || w > 10)
  {
  }

  /** A concrete narrow viewport where the flag and the position disagree after a stop. */
  lemma NarrowViewportStop()
    ensures var r := AfterStop(Initial(8), 5, 0, 8);
      r.x == 3 && r.isRightSide && !Consistent(r)
  {
  }

  /** Position, side and lifecycle are independent of hover: entering or leaving changes
      only the hover flag, and the other transitions leave the hover flag alone. */
  lemma HoverIndependent(s: Widget, inside: bool, dx: int, dy: int, w: nat)
    ensures AfterDrag(AfterHover(s, inside), dx, dy, w) == AfterHover(AfterDrag(s, dx, dy, w), inside)
    ensures AfterStop(AfterHover(s, inside), dx, dy, w) == AfterHover(AfterStop(s, dx, dy, w), inside)
    ensures AfterResize(AfterHover(s, inside), w) == AfterHover(AfterResize(s, w), inside)
    ensures AfterClick(AfterHover(s, inside)) == AfterHover(AfterClick(s), inside)
  {
  }
}

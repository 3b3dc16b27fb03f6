/** The `App` component's controller: the fields its state hooks hold, and one method per
    event handler, each proved to move the fields as the matching transition of
    `WidgetState` says. The viewport width is an argument of each handler. */
module App {
  import opened WidgetState

  class Controller {
    var x: int
    var y: int
    /** The `window.innerWidth` read by the last handler. */
    var width: nat
    var isRightSide: bool
    var isHovered: bool
    var state: Lifecycle

    /** The fields as one value. */
    function Model(): Widget
      reads this
    {
      Widget(x, y, width, isRightSide, isHovered, state)
    }

    /** The initial values of the state hooks. */
    constructor (w: nat)
      ensures Model() == Initial(w)
      ensures x == 0 && y == 50 && !isRightSide && !isHovered && state == Idle
    {
      x, y := 0, 50;
      width := w;
      isRightSide, isHovered := false, false;
      state := Idle;
    }

    /** `updateSide`: right side exactly when `newX` is past half the current width. */
    method UpdateSide(newX: int, w: nat)
      modifies this
      ensures isRightSide == IsRightOf(newX, w) && width == w
      ensures x == old(x) && y == old(y)
      ensures isHovered == old(isHovered) && state == old(state)
    {
      width := w;
      isRightSide := IsRightOf(newX, w);
    }

    /** `handleDrag`. */
    method HandleDrag(dx: int, dy: int, w: nat)
      modifies this
      ensures Model() == AfterDrag(old(Model()), dx, dy, w)
      ensures x == old(x) + dx && y == old(y) + dy
      ensures Consistent(Model())
    {
      var newX := x + dx;
      var newY := y + dy;
      x, y := newX, newY;
      UpdateSide(newX, w);
    }

    /** `handleStop`: the side is first set from where the drag ended, then the snap
        sets position and side again. */
    method HandleStop(dx: int, dy: int, w: nat)
      modifies this
      ensures Model() == AfterStop(old(Model()), dx, dy, w)
      ensures x == 0 || x == w - RightEdgeGap
      ensures y == old(y)
      ensures w > 10 ==> Consistent(Model())
    {
      var newX := x + dx;
      UpdateSide(newX, w);
      if IsRightOf(newX, w) {
        x := w - RightEdgeGap;
        isRightSide := true;
      } else {
        x := 0;
        isRightSide := false;
      }
      StopConsistentIff(old(Model()), dx, dy, w);
    }

    /** The `resize` listener. */
    method HandleResize(w: nat)
      modifies this
      ensures Model() == AfterResize(old(Model()), w)
      ensures x == old(x) && y == old(y)
      ensures Consistent(Model())
    {
      UpdateSide(x, w);
    }

    /** The `onClick` of whichever lifecycle icon is shown; none is shown in `Loading`. */
    method Click()
      modifies this
      ensures Model() == AfterClick(old(Model()))
      ensures old(state) != Loading ==> state != old(state) && state != Loading
    {
      match state
      case Idle => state := InMeeting;
      case InMeeting => state := Paused;
      case Paused => state := Idle;
      case Loading =>
    }

    /** `onMouseEnter` of the widget body. */
    method MouseEnter()
      modifies this
      ensures Model() == AfterHover(old(Model()), true)
    {
      isHovered := true;
    }

    /** `onMouseLeave` of the widget body. */
    method MouseLeave()
      modifies this
      ensures Model() == AfterHover(old(Model()), false)
    {
      isHovered := false;
    }
  }
}

/** Sequences of the events the widget reacts to, and what holds after any of them. */
module WidgetTraces {
  import opened WidgetState

  /** One event delivered to the component. Widths are the `window.innerWidth` read by the
      handler; deltas are the ones the drag library reports. */
  datatype Event =
    | Drag(dx: int, dy: int, w: nat)
    | Stop(dx: int, dy: int, w: nat)
    | Resize(w: nat)
    | Click
    | MouseEnter
    | MouseLeave

  function Step(s: Widget, e: Event): Widget {
    match e
    case Drag(dx, dy, w) => AfterDrag(s, dx, dy, w)
    case Stop(dx, dy, w) => AfterStop(s, dx, dy, w)
    case Resize(w) => AfterResize(s, w)
    case Click => AfterClick(s)
    case MouseEnter => AfterHover(s, true)
    case MouseLeave => AfterHover(s, false)
  }

  /** The state after the events of `evs`, in order. */
  function Run(s: Widget, evs: seq<Event>): Widget
    decreases |evs|
  {
    if evs == [] then s else Run(Step(s, evs[0]), evs[1..])
  }

  /** Every drag end in `evs` happens in a viewport wider than 10 pixels. */
  predicate WideStops(evs: seq<Event>) {
    forall i :: 0 <= i < |evs| && evs[i].Stop? ==> evs[i].w > 10
  }

  /** Running two traces one after the other is running their concatenation. */
  lemma {:induction false} RunAppend(s: Widget, a: seq<Event>, b: seq<Event>)
    ensures Run(s, a + b) == Run(Run(s, a), b)
    decreases |a|
  {
    if a == [] {
      assert a + b == b;
    } else {
      assert (a + b)[0] == a[0];
      assert (a + b)[1..] == a[1..] + b;
      RunAppend(Step(s, a[0]), a[1..], b);
    }
  }

  /** No sequence of events ever reaches `Loading` from a visible lifecycle state. */
  lemma {:induction false} NeverLoading(s: Widget, evs: seq<Event>)
    requires s.state != Loading
    ensures Run(s, evs).state != Loading
    decreases |evs|
  {
    if evs != [] {
      NeverLoading(Step(s, evs[0]), evs[1..]);
    }
  }

  /** The side flag stays consistent with the position along any trace whose drag ends all
      happen in viewports wider than 10 pixels. */
  lemma {:induction false} StaysConsistent(s: Widget, evs: seq<Event>)
    requires Consistent(s)
    requires WideStops(evs)
    ensures Consistent(Run(s, evs))
    decreases |evs|
  {
    if evs != [] {
      assert Consistent(Step(s, evs[0])) by {
        if evs[0].Stop? {
          assert evs[0].w > 10;
          StopConsistentIff(s, evs[0].dx, evs[0].dy, evs[0].w);
        }
      }
      assert WideStops(evs[1..]) by {
        forall i | 0 <= i < |evs[1..]| && evs[1..][i].Stop?
          ensures evs[1..][i].w > 10
        {
          assert evs[1..][i] == evs[i + 1];
        }
      }
      StaysConsistent(Step(s, evs[0]), evs[1..]);
    }
  }

  /** Whatever came before, once a drag ends the widget rests on one of the two edges, on
      the side where the drag ended, at the height it had. */
  lemma EndsDocked(s: Widget, evs: seq<Event>, dx: int, dy: int, w: nat)
    ensures var before := Run(s, evs);
      var r := Run(s, evs + [Stop(dx, dy, w)]);
      (r.x == 0 || r.x == w - RightEdgeGap) &&
      (r.isRightSide <==> IsRightOf(before.x + dx, w)) &&
      r.y == before.y
  {
    RunAppend(s, evs, [Stop(dx, dy, w)]);
  }

  /** `n` clicks in a row. */
  function Clicks(n: nat): (evs: seq<Event>)
    ensures |evs| == n && forall i :: 0 <= i < n ==> evs[i] == Click
  {
    if n == 0 then [] else [Click] + Clicks(n - 1)
  }

  /** Clicks in multiples of three bring a visible lifecycle state back to itself and
      leave everything else alone. */
  lemma {:induction false} ClickCycles(s: Widget, k: nat)
    requires s.state != Loading
    ensures Run(s, Clicks(3 * k)) == s
    decreases k
  {
    if k > 0 {
      assert Clicks(3 * k) == [Click, Click, Click] + Clicks(3 * (k - 1));
      RunAppend(s, [Click, Click, Click], Clicks(3 * (k - 1)));
      ClickCycle(s);
      ClickCycles(s, k - 1);
    }
  }

  /** Hover events only: position, side and lifecycle are untouched, and the hover flag is
      set by the last of them. */
  predicate HoverOnly(evs: seq<Event>) {
    forall i :: 0 <= i < |evs| ==> evs[i].MouseEnter? || evs[i].MouseLeave?
  }

  lemma {:induction false} HoverTrace(s: Widget, evs: seq<Event>)
    requires HoverOnly(evs)
    ensures Run(s, evs).(isHovered := s.isHovered) == s
    ensures evs != [] ==> Run(s, evs).isHovered == evs[|evs| - 1].MouseEnter?
    decreases |evs|
  {
    if evs != [] {
      var t := Step(s, evs[0]);
      assert HoverOnly(evs[1..]) by {
        forall i | 0 <= i < |evs[1..]|
          ensures evs[1..][i].MouseEnter? || evs[1..][i].MouseLeave?
        {
          assert evs[1..][i] == evs[i + 1];
        }
      }
      HoverTrace(t, evs[1..]);
      if evs[1..] != [] {
        assert evs[1..][|evs[1..]| - 1] == evs[|evs| - 1];
      }
    }
  }

  /** An example: released at x = 800 in a 1000-pixel viewport, the widget snaps
      to 995 on the right; widening the window to 1600 keeps it on the right. */
  lemma SnapThenWiden(s: Widget)
    requires s.x == 800
    ensures var r := Run(s, [Stop(0, 0, 1000)]);
      r.x == 995 && r.isRightSide && r.y == s.y
    ensures var r := Run(s, [Stop(0, 0, 1000), Resize(1600)]);
      r.x == 995 && r.isRightSide && r.y == s.y
  {
    var r1 := Step(s, Stop(0, 0, 1000));
    assert Run(s, [Stop(0, 0, 1000)]) == Run(r1, []);
    assert Run(s, [Stop(0, 0, 1000), Resize(1600)]) == Run(r1, [Resize(1600)]);
    assert Run(r1, [Resize(1600)]) == Run(Step(r1, Resize(1600)), []);
  }
}

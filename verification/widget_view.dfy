/** The presentation facts the component derives from its state on each render: the
    class attribute of the container, the side-dependent style values and the icon shown. */
module WidgetView {
  import opened WidgetState

  /** The `className` template of the container: four slots joined by single spaces, the
      optional ones left empty (so the string can hold doubled or trailing spaces). */
  function ClassName(s: Widget): (c: string)
    ensures |c| > 22 && c[..22] == "side-widget-container "
    ensures !s.isHovered ==> c[|c| - 1] == ' '
  {
    Slots("side-widget-container", LoadingSlot(s), SideSlot(s), HoverSlot(s))
  }

  function Slots(a: string, b: string, c: string, d: string): string {
    a + " " + b + " " + c + " " + d
  }

  function LoadingSlot(s: Widget): string {
    if s.state == Loading then "loading" else ""
  }

  function SideSlot(s: Widget): string {
    if s.isRightSide then "right-side" else "left-side"
  }

  function HoverSlot(s: Widget): string {
    if s.isHovered then "hovered" else ""
  }

  /** The characters that separate class names in a class attribute. */
  predicate IsSpace(c: char) {
    c == ' ' || c == '\t' || c == '\n' || c == '\r' || c == '\U{000C}'
  }

  predicate NoSpace(t: string) {
    forall i :: 0 <= i < |t| ==> !IsSpace(t[i])
  }

  /** A pending class name, if any. */
  function Flush(cur: string): seq<string> {
    if cur == [] then [] else [cur]
  }

  /** Splits `s` at spaces, dropping empty pieces; `cur` is the name read so far. */
  function Tokens(s: string, cur: string): seq<string>
    decreases |s|
  {
    if s == [] then Flush(cur)
    else if IsSpace(s[0]) then Flush(cur) + Tokens(s[1..], [])
    else Tokens(s[1..], cur + [s[0]])
  }

  /** The class names a class attribute denotes, in order. */
  function ClassList(s: string): seq<string> {
    Tokens(s, [])
  }

  /** A run of non-space characters extends the pending name. */
  lemma {:induction false} TokensWord(t: string, rest: string, cur: string)
    requires NoSpace(t)
    ensures Tokens(t + rest, cur) == Tokens(rest, cur + t)
    decreases |t|
  {
    if t == [] {
      assert t + rest == rest;
      assert cur + t == cur;
    } else {
      assert (t + rest)[0] == t[0];
      assert (t + rest)[1..] == t[1..] + rest;
      assert NoSpace(t[1..]) by {
        forall i | 0 <= i < |t[1..]| ensures !IsSpace(t[1..][i]) {
          assert t[1..][i] == t[i + 1];
        }
      }
      TokensWord(t[1..], rest, cur + [t[0]]);
      assert cur + [t[0]] + t[1..] == cur + t;
    }
  }

  /** `word`, then a space, then `rest`: the word (when not empty) is one class name. */
  lemma WordThenSpace(word: string, rest: string)
    requires NoSpace(word)
    ensures Tokens(word + (" " + rest), []) == Flush(word) + Tokens(rest, [])
  {
    TokensWord(word, " " + rest, []);
    assert [] + word == word;
    assert (" " + rest)[1..] == rest;
  }

  /** The last slot on its own. */
  lemma LastWord(word: string)
    requires NoSpace(word)
    ensures Tokens(word, []) == Flush(word)
  {
    TokensWord(word, [], []);
    assert word + [] == word;
    assert [] + word == word;
  }

  /** Four slots separated by single spaces, the first and third never empty. */
  lemma FourSlots(a: string, b: string, c: string, d: string)
    requires NoSpace(a) && NoSpace(b) && NoSpace(c) && NoSpace(d)
    requires a != [] && c != []
    ensures Tokens(Slots(a, b, c, d), []) == [a] + Flush(b) + [c] + Flush(d)
  {
    var fromC := c + (" " + d);
    var fromB := b + (" " + fromC);
    assert Slots(a, b, c, d) == a + (" " + fromB);
    WordThenSpace(c, d);
    LastWord(d);
    assert Tokens(fromC, []) == [c] + Flush(d);
    WordThenSpace(b, fromC);
    WordThenSpace(a, fromB);
    assert [a] + (Flush(b) + ([c] + Flush(d))) == [a] + Flush(b) + [c] + Flush(d);
  }

  /** The words the template can put in a slot contain no space. */
  lemma SlotWords()
    ensures NoSpace("side-widget-container") && NoSpace("loading") && NoSpace("")
    ensures NoSpace("right-side") && NoSpace("left-side") && NoSpace("hovered")
  {
  }

  /** The class list of the container in slot order. */
  function ExpectedClasses(s: Widget): seq<string> {
    ["side-widget-container"]
      + (if s.state == Loading then ["loading"] else [])
      + [if s.isRightSide then "right-side" else "left-side"]
      + (if s.isHovered then ["hovered"] else [])
  }

  /** The class attribute splits into exactly the expected names, slot by slot. */
  lemma ClassListShape(s: Widget)
    ensures ClassList(ClassName(s)) == ExpectedClasses(s)
  {
    SlotWords();
    FourSlots("side-widget-container", LoadingSlot(s), SideSlot(s), HoverSlot(s));
    assert Flush(SideSlot(s)) == [SideSlot(s)];
  }

  /** The class names of the container: always `side-widget-container`, then `loading`
      exactly in the loading state, `right-side` or `left-side` by the side flag, and
      `hovered` exactly while hovered. */
  lemma ClassNames(s: Widget)
    ensures ClassList(ClassName(s)) ==
      ["side-widget-container"]
      + (if s.state == Loading then ["loading"] else [])
      + [if s.isRightSide then "right-side" else "left-side"]
      + (if s.isHovered then ["hovered"] else [])
    ensures "right-side" in ClassList(ClassName(s)) <==> s.isRightSide
    ensures "left-side" in ClassList(ClassName(s)) <==> !s.isRightSide
    ensures "hovered" in ClassList(ClassName(s)) <==> s.isHovered
    ensures "loading" in ClassList(ClassName(s)) <==> s.state == Loading
  {
    ClassListShape(s);
    assert "right-side" != "left-side" && "hovered" != "loading";
    assert "side-widget-container" != "right-side" && "side-widget-container" != "left-side";
    assert "side-widget-container" != "hovered" && "side-widget-container" != "loading";
    assert "right-side" != "hovered" && "left-side" != "hovered";
    assert "right-side" != "loading" && "left-side" != "loading";
  }

  /** Which way the icons inside the body are laid out. */
  datatype FlexDirection = Row | RowReverse

  /** The side-dependent style values: the container's two top corner radii, the drag
      handle's horizontal margins and the body's flex direction. */
  datatype Layout = Layout(
    topLeftRadius: nat,
    topRightRadius: nat,
    handleMarginLeft: nat,
    handleMarginRight: nat,
    direction: FlexDirection)

  const RoundRadius: nat := 100
  const TightRadius: nat := 10
  const HandleGap: nat := 5

  /** On the right side the round corner is the top-left one (away from the right edge),
      the handle keeps its gap on its left and the icons run right to left. */
  function LayoutFor(isRightSide: bool): (l: Layout)
    ensures {l.topLeftRadius, l.topRightRadius} == {RoundRadius, TightRadius}
    ensures l.topLeftRadius > l.topRightRadius <==> isRightSide
    ensures l.handleMarginLeft + l.handleMarginRight == HandleGap
    ensures l.handleMarginLeft > 0 <==> isRightSide
    ensures l.handleMarginLeft == 0 || l.handleMarginRight == 0
    ensures l.direction == RowReverse <==> isRightSide
  {
    if isRightSide then Layout(RoundRadius, TightRadius, HandleGap, 0, RowReverse)
    else Layout(TightRadius, RoundRadius, 0, HandleGap, Row)
  }

  /** The left-right mirror image of a layout. */
  function Mirror(l: Layout): Layout {
    Layout(l.topRightRadius, l.topLeftRadius, l.handleMarginRight, l.handleMarginLeft,
      if l.direction == Row then RowReverse else Row)
  }

  /** The two sides' layouts are mirror images of each other. */
  lemma LayoutMirrored(isRightSide: bool)
    ensures LayoutFor(!isRightSide) == Mirror(LayoutFor(isRightSide))
  {
  }

  /** The lifecycle icons, named after their tooltips. */
  datatype Glyph = InviteBot | PauseRecording | ResumeRecording

  datatype Option<T> = None | Some(value: T)

  /** The icon rendered in the body, and so the one whose click handler is live. */
  function GlyphFor(st: Lifecycle): (g: Option<Glyph>)
    ensures g == None <==> st == Loading
    ensures g == Some(InviteBot) <==> st == Idle
  {
    match st
    case Idle => Some(InviteBot)
    case InMeeting => Some(PauseRecording)
    case Paused => Some(ResumeRecording)
    case Loading => None
  }

  /** Clicking follows the icons: invite, then pause, then resume, then invite again; a
      click changes the state exactly when an icon is shown. */
  lemma GlyphSequence(st: Lifecycle)
    ensures GlyphFor(st) == Some(InviteBot) ==> GlyphFor(Next(st)) == Some(PauseRecording)
    ensures GlyphFor(st) == Some(PauseRecording) ==> GlyphFor(Next(st)) == Some(ResumeRecording)
    ensures GlyphFor(st) == Some(ResumeRecording) ==> GlyphFor(Next(st)) == Some(InviteBot)
    ensures Next(st) != st <==> GlyphFor(st).Some?
  {
  }

  /** What the freshly mounted widget shows. */
  lemma InitialView(w: nat)
    ensures ClassList(ClassName(Initial(w))) == ["side-widget-container", "left-side"]
    ensures LayoutFor(Initial(w).isRightSide).direction == Row
    ensures GlyphFor(Initial(w).state) == Some(InviteBot)
  {
    ClassNames(Initial(w));
  }
}

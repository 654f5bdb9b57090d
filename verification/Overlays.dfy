/** All overlays laid over the content, the one with the greatest focus order on top. */
module Overlays {
  import opened Wrappers
  import opened Strings
  import opened AnsiTracker
  import opened AnsiRoundTrip
  import opened Wrap
  import opened WrapProofs
  import opened Columns
  import opened Compositor
  import opened CompositeLine
  import opened OverlayBox
  import StableSort

  /** `render` is what the component shows at a given width. */
  datatype Overlay = Overlay(options: Options, focusOrder: nat, visible: bool, render: int -> seq<Line>)

  datatype Rendered = Rendered(lines: seq<Line>, row: int, col: int, w: int)

  predicate Touches(o: Rendered, r: int) {
    0 <= r - o.row < |o.lines|
  }

  /** Render an overlay at the width its box has, cut it to the height allowed, and place it. */
  function Place(o: Overlay, termWidth: nat, termHeight: nat): Rendered {
    var first := Resolve(o.options, 0, termWidth, termHeight);
    var lines := o.render(first.width);
    var shown := if first.maxHeight.Some? && 0 <= first.maxHeight.value < |lines| then lines[..first.maxHeight.value] else lines;
    var box := Resolve(o.options, |shown|, termWidth, termHeight);
    Rendered(shown, box.row, box.col, first.width)
  }

  function Visible(overlays: seq<Overlay>): seq<Overlay> {
    if overlays == [] then []
    else
      var last := overlays[|overlays| - 1];
      Visible(overlays[..|overlays| - 1]) + if last.visible then [last] else []
  }

  function PlaceAll(overlays: seq<Overlay>, termWidth: nat, termHeight: nat): (r: seq<Rendered>)
    ensures |r| == |overlays|
  {
    seq(|overlays|, i requires 0 <= i < |overlays| => Place(overlays[i], termWidth, termHeight))
  }

  /** The overlays to draw, bottom to top. */
  function Stacked(overlays: seq<Overlay>, termWidth: nat, termHeight: nat): seq<Rendered> {
    PlaceAll(StableSort.Sort(Visible(overlays), (o: Overlay) => o.focusOrder), termWidth, termHeight)
  }

  function LinesNeeded(rendered: seq<Rendered>, least: int): (n: int)
    ensures n >= least
  {
    if rendered == [] then least
    else
      var o := rendered[|rendered| - 1];
      Max(LinesNeeded(rendered[..|rendered| - 1], least), o.row + |o.lines|)
  }

  function WorkingHeight(rendered: seq<Rendered>, lines: seq<Line>, termHeight: nat): (n: nat)
    ensures |lines| <= n && termHeight <= n
  {
    Max(Max(|lines|, termHeight), LinesNeeded(rendered, |lines|))
  }

  function Row(lines: seq<Line>, r: nat): Line {
    if r < |lines| then lines[r] else []
  }

  /** A line wider than its box is cut to it beforehand. */
  function Clip(line: Line, w: nat): Line {
    if Width(line) > w then Sliced(line, 0, w, true) else line
  }

  /** One row after the first `k` overlays; `r` counts from the top of the screen. */
  function RowAfter(base: Line, rendered: seq<Rendered>, k: nat, r: int, termWidth: nat): Line
    requires k <= |rendered| && Sane(rendered)
  {
    if k == 0 then base
    else
      var below := RowAfter(base, rendered, k - 1, r, termWidth);
      var o := rendered[k - 1];
      if Touches(o, r) then CompositeAt(below, Clip(o.lines[r - o.row], o.w), o.col, o.w, termWidth) else below
  }

  predicate Sane(rendered: seq<Rendered>) {
    forall i :: 0 <= i < |rendered| ==> rendered[i].row >= 0 && rendered[i].col >= 0 && rendered[i].w >= 1
  }

  lemma StackedSane(overlays: seq<Overlay>, termWidth: nat, termHeight: nat)
    ensures Sane(Stacked(overlays, termWidth, termHeight))
  {
  }

  /** The overlays with one focus order, as they follow each other. */
  function WithOrder(overlays: seq<Overlay>, order: int): seq<Overlay> {
    StableSort.WithKey(overlays, (o: Overlay) => o.focusOrder, order)
  }

  /** The visible overlays are drawn in ascending focus order, each once, equal ones in the order they were shown. */
  lemma StackedInOrder(overlays: seq<Overlay>)
    ensures var sorted := StableSort.Sort(Visible(overlays), (o: Overlay) => o.focusOrder);
      && multiset(sorted) == multiset(Visible(overlays))
      && (forall i, j :: 0 <= i < j < |sorted| ==> sorted[i].focusOrder <= sorted[j].focusOrder)
      && forall order :: WithOrder(sorted, order) == WithOrder(Visible(overlays), order)
  {
    StableSort.SortFacts(Visible(overlays), (o: Overlay) => o.focusOrder);
  }

  /** What all overlays make of `lines`: as many rows as are needed, the last of which fill the screen. */
  ghost predicate Layered(result: seq<Line>, lines: seq<Line>, rendered: seq<Rendered>, termWidth: nat, termHeight: nat)
    requires Sane(rendered)
  {
    && |result| == WorkingHeight(rendered, lines, termHeight)
    && forall i: nat :: i < |result| ==>
      result[i] == RowAfter(Row(lines, i), rendered, |rendered|, i - (|result| - termHeight), termWidth)
  }

  /** `compositeOverlays`. */
  method CompositeOverlays(overlays: seq<Overlay>, lines: seq<Line>, termWidth: nat, termHeight: nat)
    returns (result: seq<Line>)
    ensures overlays == [] ==> result == lines
    ensures overlays != [] ==>
      Sane(Stacked(overlays, termWidth, termHeight))
      && Layered(result, lines, Stacked(overlays, termWidth, termHeight), termWidth, termHeight)
  {
    hide Sane, Stacked, Layered, Resolve, CompositeAt, Clip, Width, Sliced;
    result := lines;
    if overlays == [] { return; }
    var visible := [];
    for i := 0 to |overlays|
      invariant visible == Visible(overlays[..i])
    {
      assert overlays[..i + 1][..i] == overlays[..i];
      if overlays[i].visible { visible := visible + [overlays[i]]; }
    }
    assert overlays[..|overlays|] == overlays;
    var sorted := StableSort.Sort(visible, (o: Overlay) => o.focusOrder);
    var rendered, minLinesNeeded := RenderOverlays(sorted, |lines|, termWidth, termHeight);
    StackedIs(overlays, termWidth, termHeight, sorted, rendered);
    StackedSane(overlays, termWidth, termHeight);
    var workingHeight := Max(Max(|result|, termHeight), minLinesNeeded);
    while |result| < workingHeight
      invariant |lines| <= |result| <= workingHeight
      invariant forall r: nat :: r < |result| ==> result[r] == Row(lines, r)
    {
      result := result + [[]];
    }
    result := DrawAll(lines, result, rendered, termWidth, termHeight);
  }

  /** Where every overlay goes, and how many lines that takes. */
  method RenderOverlays(sorted: seq<Overlay>, least: nat, termWidth: nat, termHeight: nat)
    returns (rendered: seq<Rendered>, needed: int)
    ensures rendered == PlaceAll(sorted, termWidth, termHeight)
    ensures needed == LinesNeeded(rendered, least)
  {
    hide Resolve;
    rendered, needed := [], least;
    for i := 0 to |sorted|
      invariant rendered == PlaceAll(sorted, termWidth, termHeight)[..i]
      invariant needed == LinesNeeded(rendered, least)
    {
      var entry := sorted[i];
      var first := Resolve(entry.options, 0, termWidth, termHeight);
      var overlayLines := entry.render(first.width);
      if first.maxHeight.Some? && |overlayLines| > first.maxHeight.value >= 0 {
        overlayLines := overlayLines[..first.maxHeight.value];
      }
      var box := Resolve(entry.options, |overlayLines|, termWidth, termHeight);
      var o := Rendered(overlayLines, box.row, box.col, first.width);
      assert o == Place(entry, termWidth, termHeight);
      assert (rendered + [o])[..|rendered|] == rendered;
      rendered := rendered + [o];
      needed := Max(needed, box.row + |overlayLines|);
    }
  }

  lemma StackedIs(overlays: seq<Overlay>, termWidth: nat, termHeight: nat, sorted: seq<Overlay>, rendered: seq<Rendered>)
    requires sorted == StableSort.Sort(Visible(overlays), (o: Overlay) => o.focusOrder)
    requires rendered == PlaceAll(sorted, termWidth, termHeight)
    ensures Stacked(overlays, termWidth, termHeight) == rendered
  {
  }

  /** Lay the overlays over the padded lines one after the other, row by row. */
  method DrawAll(lines: seq<Line>, padded: seq<Line>, rendered: seq<Rendered>, termWidth: nat, termHeight: nat)
    returns (result: seq<Line>)
    requires Sane(rendered) && |padded| == WorkingHeight(rendered, lines, termHeight)
    requires forall r: nat :: r < |padded| ==> padded[r] == Row(lines, r)
    ensures Layered(result, lines, rendered, termWidth, termHeight)
  {
    hide CompositeAt, Clip, WorkingHeight, Row;
    result := padded;
    var viewportStart := Max(0, |padded| - termHeight);
    assert |padded| >= termHeight by { assert WorkingHeight(rendered, lines, termHeight) >= termHeight; }
    for k := 0 to |rendered|
      invariant |result| == |padded|
      invariant forall r: nat :: r < |result| ==>
        result[r] == RowAfter(Row(lines, r), rendered, k, r - viewportStart, termWidth)
    {
      result := DrawOne(lines, result, rendered, k, viewportStart, termWidth);
    }
  }

  method DrawOne(lines: seq<Line>, before: seq<Line>, rendered: seq<Rendered>, k: nat, viewportStart: nat, termWidth: nat)
    returns (result: seq<Line>)
    requires k < |rendered| && Sane(rendered)
    requires forall r: nat :: r < |before| ==>
      before[r] == RowAfter(Row(lines, r), rendered, k, r - viewportStart, termWidth)
    ensures |result| == |before|
    ensures forall r: nat :: r < |result| ==>
      result[r] == RowAfter(Row(lines, r), rendered, k + 1, r - viewportStart, termWidth)
  {
    hide CompositeAt, Row, Sliced, Width;
    result := before;
    var o := rendered[k];
    for i := 0 to |o.lines|
      invariant |result| == |before|
      invariant forall r: nat :: r < |result| ==>
        result[r] == RowAfter(Row(lines, r), rendered, if 0 <= r - viewportStart - o.row < i then k + 1 else k,
                              r - viewportStart, termWidth)
    {
      var idx := viewportStart + o.row + i;
      if 0 <= idx < |result| {
        var truncated := o.lines[i];
        if Width(o.lines[i]) > o.w {
          var width;
          truncated, width := SliceWithWidth(o.lines[i], 0, o.w, true);
        }
        assert truncated == Clip(o.lines[i], o.w);
        var line := CompositeLineAt(result[idx], truncated, o.col, o.w, termWidth);
        result := result[idx := line];
      }
    }
  }

  /* ---------- Lines stay plain ---------- */

  ghost predicate PlainAtom(a: Atom) {
    a.Code? ==> IsCode(a.code) && !("\U{1B}_G" <= a.code) && !("\U{1B}]1337;File=" <= a.code)
  }

  /** Whole escape codes, and no image among them. */
  ghost predicate Plain(line: Line) {
    forall i :: 0 <= i < |line| ==> PlainAtom(line[i])
  }

  lemma PlainIs(line: Line)
    requires Plain(line)
    ensures Readable(line) && !IsImageLine(line)
  {
    forall i | 0 <= i < |line| ensures PlainAtom(line[i]) {}
  }

  lemma PlainParts(line: Line, m: nat, n: nat)
    requires Plain(line) && m <= n <= |line|
    ensures Plain(line[m..n])
  {
  }

  /** Only a code that starts like an image is one. */
  lemma NoImage(code: string)
    requires |code| >= 3 && code[1] != '_' && !(code[1] == ']' && code[2] == '1')
    ensures !("\U{1B}_G" <= code) && !("\U{1B}]1337;File=" <= code)
  {
    assert "\U{1B}_G"[1] == '_' && "\U{1B}]1337;File="[1] == ']' && "\U{1B}]1337;File="[2] == '1';
  }

  lemma PlainResets()
    ensures Plain(SEGMENT_RESET)
  {
    var sgr := [ESC, '['] + "0" + "m";
    SgrReadsBack("0", "");
    assert sgr + "" == sgr == SGR_RESET;
    var link := LINK_RESET;
    assert OscEnd(link, 5) == Some(6) && OscEnd(link, 4) == Some(6) && OscEnd(link, 3) == Some(6);
    assert link[0..6] == link;
    NoImage(sgr);
    NoImage(link);
  }

  lemma SgrIsNoImage(s: Style)
    requires SgrText(s) != ""
    ensures !("\U{1B}_G" <= SgrText(s)) && !("\U{1B}]1337;File=" <= SgrText(s))
  {
    hide SgrCodes, Join;
    assert SgrText(s)[1] == '[';
    NoImage(SgrText(s));
  }

  lemma LinkIsNoImage(s: Style)
    requires s.link.Some?
    ensures !("\U{1B}_G" <= LinkText(s)) && !("\U{1B}]1337;File=" <= LinkText(s))
  {
    assert LinkText(s)[1] == ']' && LinkText(s)[2] == '8';
    NoImage(LinkText(s));
  }

  lemma PlainActive(s: Style)
    requires WellFormed(s)
    ensures Plain(ActiveAtoms(s))
  {
    hide WellFormed, SgrText, LinkText, IsCode;
    ActiveReopens(s);
    if SgrText(s) != "" { SgrIsNoImage(s); }
    if s.link.Some? { LinkIsNoImage(s); }
  }

  lemma PlainConcat(a: Line, b: Line)
    requires Plain(a) && Plain(b)
    ensures Plain(a + b)
  {
  }

  lemma PlainPadded(line: Line, n: nat)
    requires Plain(line)
    ensures Plain(Padded(line, n))
  {
  }

  lemma PlainAfter(line: Line, from: int, to: int)
    requires Plain(line)
    ensures Plain(After(line, from, to, true))
  {
    hide Plain, StyleAfter, WellFormed;
    var (m, n) := (GlyphAt(line, from), Fit(line, to, true));
    if m < n {
      PlainParts(line, m, n);
      PlainIs(line);
      ClearWellFormed();
      StyleWellFormed(CLEAR, line[..m]);
      PlainActive(StyleAt(line, m));
      PlainConcat(ActiveAtoms(StyleAt(line, m)), line[m..n]);
    } else {
      PlainNone();
    }
  }

  lemma PlainNone()
    ensures Plain([])
  {
  }

  lemma PlainBefore(line: Line, end: nat)
    requires Plain(line)
    ensures Plain(Before(line, end))
  {
  }

  lemma PlainSliced(line: Line, end: nat)
    requires Plain(line)
    ensures Plain(Sliced(line, 0, end, true))
  {
    SlicedIsPrefix(line, end);
  }

  lemma PlainComposed(base: Line, overlay: Line, start: nat, w: nat, total: nat)
    requires Plain(base) && Plain(overlay)
    ensures Plain(Composed(base, overlay, start, w, total))
  {
    hide Plain, Before, After, Sliced, Padded, At, Width;
    BeforePaints(base, start);
    SlicedPaints(overlay, w);
    var before := Before(base, start);
    var text := Sliced(overlay, 0, w, true);
    var after := After(base, start + w, total, true);
    PlainBefore(base, start);
    PlainSliced(overlay, w);
    PlainAfter(base, start + w, total);
    PlainResets();
    var l := Padded(before, start - Width(before));
    var m := Padded(text, w - Width(text));
    var r := Padded(after, Max(0, Max(0, total - start - w) - Width(after)));
    PlainPadded(before, start - Width(before));
    PlainPadded(text, w - Width(text));
    PlainPadded(after, Max(0, Max(0, total - start - w) - Width(after)));
    PlainConcat(m, SEGMENT_RESET);
    PlainConcat(m + SEGMENT_RESET, r);
    PlainConcat(l, SEGMENT_RESET);
    PlainConcat(l + SEGMENT_RESET, m + SEGMENT_RESET + r);
  }
}

/** Every column of the screen shows the topmost overlay that covers it, and the content where none does. */
module OverlayPainter {
  import opened Wrappers
  import opened AnsiTracker
  import opened Wrap
  import opened Columns
  import opened Compositor
  import opened CompositeLine
  import opened OverlayBox
  import opened Overlays

  /** The columns a line fills when displayed on its own. */
  function Cells(line: Line): seq<Cell> {
    Paint(CLEAR, line)
  }

  /** No grapheme reaches over column `x` from the left. */
  predicate Whole(cells: seq<Cell>, x: nat) {
    x >= |cells| || cells[x].part == 0
  }

  /** What column `c` of a row shows under the first `k` overlays: the last of them that covers it, or the row itself. */
  function Painted(base: Line, rendered: seq<Rendered>, k: nat, r: int, c: nat): Option<Cell>
    requires k <= |rendered| && Sane(rendered)
  {
    if k == 0 then
      if c < |Cells(base)| then Some(Cells(base)[c]) else None
    else
      var o := rendered[k - 1];
      if Touches(o, r) && o.col <= c < o.col + o.w then
        var cells := Cells(o.lines[r - o.row]);
        if EndsBy(cells, c - o.col, o.w) then Some(cells[c - o.col]) else None
      else Painted(base, rendered, k - 1, r, c)
  }

  /** The boxes that touch row `r` lie within the terminal. */
  ghost predicate Inside(rendered: seq<Rendered>, r: int, termWidth: nat) {
    forall j :: 0 <= j < |rendered| && Touches(rendered[j], r) ==> rendered[j].col + rendered[j].w <= termWidth
  }

  /** Neither edge of a box that touches row `r` cuts a grapheme. */
  ghost predicate EdgesWhole(cells: seq<Cell>, rendered: seq<Rendered>, r: int)
    requires Sane(rendered)
  {
    forall j :: 0 <= j < |rendered| && Touches(rendered[j], r) ==>
      Whole(cells, rendered[j].col) && Whole(cells, rendered[j].col + rendered[j].w)
  }

  /** The same for a line drawn from column `col` on, where the edges fall inside its box. */
  ghost predicate EdgesWholeAt(cells: seq<Cell>, col: nat, w: nat, rendered: seq<Rendered>, r: int)
    requires Sane(rendered)
  {
    forall j :: 0 <= j < |rendered| && Touches(rendered[j], r) ==>
      var e := rendered[j];
      && (col <= e.col < col + w ==> Whole(cells, e.col - col))
      && (col <= e.col + e.w < col + w ==> Whole(cells, e.col + e.w - col))
  }

  /** No line of the row, neither the content's nor an overlay's, has a wide grapheme cut by an edge. */
  ghost predicate NothingCut(base: Line, rendered: seq<Rendered>, r: int)
    requires Sane(rendered)
  {
    && EdgesWhole(Cells(base), rendered, r)
    && forall i :: 0 <= i < |rendered| && Touches(rendered[i], r) ==>
      EdgesWholeAt(Cells(rendered[i].lines[r - rendered[i].row]), rendered[i].col, rendered[i].w, rendered, r)
  }

  ghost predicate AllPlain(base: Line, rendered: seq<Rendered>, r: int) {
    Plain(base) && forall i :: 0 <= i < |rendered| && Touches(rendered[i], r) ==>
      Plain(rendered[i].lines[r - rendered[i].row])
  }

  /** Where no grapheme is cut, those to the left of an edge end by it. */
  lemma EndsBefore(line: Line, c: nat, x: nat)
    requires c < x && c < Width(line) && Whole(Cells(line), x)
    ensures EndsBy(Cells(line), c, x)
  {
    hide Paint, Width, At;
    var i := Owner(line, c);
    if At(line, i) + line[i].width > x {
      AtStep(line, i);
      AtEnds(line);
      AtMonotone(line, i + 1, |line|);
      var j := Owner(line, x);
      AtStep(line, j);
      if j < i { AtMonotone(line, j + 1, i); } else if i < j { AtMonotone(line, i + 1, j); }
    }
  }

  /** Cutting an overlay line to its box first changes nothing inside the box. */
  lemma ClipShows(line: Line, w: nat, k: nat)
    requires k < w
    ensures EndsBy(Cells(Clip(line, w)), k, w) <==> EndsBy(Cells(line), k, w)
    ensures EndsBy(Cells(line), k, w) ==> Cells(Clip(line, w))[k] == Cells(line)[k]
  {
    hide Paint, Width, Sliced, Fit, At;
    if Width(line) > w {
      SlicedPaints(line, w);
      FitCells(line, w, k);
    }
  }

  /** What laying `o` over a row does to the columns outside its box, and inside. */
  lemma LaidOver(below: Line, overlay: Line, col: nat, w: nat, total: nat, c: nat)
    requires Plain(below) && col + w <= total && c < total && |Cells(below)| <= total
    requires Whole(Cells(below), col) && Whole(Cells(below), col + w)
    ensures var cells := Cells(CompositeAt(below, Clip(overlay, w), col, w, total)); var o := Cells(overlay);
      && |cells| == total
      && (col <= c < col + w ==> Displays(cells[c], if EndsBy(o, c - col, w) then Some(o[c - col]) else None))
      && (!(col <= c < col + w) ==> if c < |Cells(below)| then cells[c] == Cells(below)[c] else Displays(cells[c], None))
  {
    hide Paint, Width, Plain, Composed, Clip, IsImageLine;
    PlainIs(below);
    ComposedShows(below, Clip(overlay, w), col, w, total);
    var b := Cells(below);
    assert Displays(
      Cells(CompositeAt(below, Clip(overlay, w), col, w, total))[c],
      Want(b, Cells(Clip(overlay, w)), col, w, total, c));
    if c < col {
      if c < |b| { EndsBefore(below, c, col); }
    } else if c < col + w {
      ClipShows(overlay, w, c - col);
    } else {
      assert NextWhole(b, col + w) == col + w;
      if c < |b| { EndsBefore(below, c, |b|); }
    }
  }

  predicate Touched(rendered: seq<Rendered>, k: nat, r: int)
    requires k <= |rendered|
  {
    exists j :: 0 <= j < k && Touches(rendered[j], r)
  }

  ghost predicate Showing(line: Line, base: Line, rendered: seq<Rendered>, k: nat, r: int, termWidth: nat)
    requires k <= |rendered| && Sane(rendered)
  {
    var cells := Cells(line);
    && Plain(line) && |cells| <= termWidth && EdgesWhole(cells, rendered, r)
    && (if Touched(rendered, k, r) then |cells| == termWidth else line == base)
    && forall c :: 0 <= c < termWidth ==> ColumnShows(line, base, rendered, k, r, c)
  }

  /** Column `c` of `line` is what the first `k` overlays make of the row. */
  ghost predicate ColumnShows(line: Line, base: Line, rendered: seq<Rendered>, k: nat, r: int, c: nat)
    requires k <= |rendered| && Sane(rendered)
  {
    var want := Painted(base, rendered, k, r, c);
    if c < |Cells(line)| then Displays(Cells(line)[c], want) else want == None
  }

  lemma EdgesStay(below: Line, base: Line, rendered: seq<Rendered>, k: nat, r: int, termWidth: nat, j: nat, x: nat)
    requires k < |rendered| && Sane(rendered) && Touches(rendered[k], r) && Inside(rendered, r, termWidth)
    requires Showing(below, base, rendered, k, r, termWidth) && NothingCut(base, rendered, r)
    requires j < |rendered| && Touches(rendered[j], r)
    requires x == rendered[j].col || x == rendered[j].col + rendered[j].w
    ensures var o := rendered[k]; var next := CompositeAt(below, Clip(o.lines[r - o.row], o.w), o.col, o.w, termWidth);
      Whole(Cells(next), x)
  {
    hide Painted, Cells, Clip, CompositeAt, Plain;
    var o := rendered[k];
    var overlay := o.lines[r - o.row];
    if x < termWidth {
      LaidOver(below, overlay, o.col, o.w, termWidth, x);
    } else {
      LaidOver(below, overlay, o.col, o.w, termWidth, o.col);
    }
  }

  lemma LayerOne(below: Line, base: Line, rendered: seq<Rendered>, k: nat, r: int, termWidth: nat)
    requires k < |rendered| && Sane(rendered) && Touches(rendered[k], r) && Inside(rendered, r, termWidth)
    requires Showing(below, base, rendered, k, r, termWidth)
    requires NothingCut(base, rendered, r) && AllPlain(base, rendered, r)
    ensures var o := rendered[k];
      Showing(CompositeAt(below, Clip(o.lines[r - o.row], o.w), o.col, o.w, termWidth), base, rendered, k + 1, r, termWidth)
  {
    hide Cells, Clip, CompositeAt, Plain, NothingCut;
    var o := rendered[k];
    var overlay := o.lines[r - o.row];
    var next := CompositeAt(below, Clip(overlay, o.w), o.col, o.w, termWidth);
    LaidOver(below, overlay, o.col, o.w, termWidth, o.col);
    PlainNext(below, overlay, o.col, o.w, termWidth);
    assert Touched(rendered, k + 1, r);
    forall j | 0 <= j < |rendered| && Touches(rendered[j], r)
      ensures Whole(Cells(next), rendered[j].col) && Whole(Cells(next), rendered[j].col + rendered[j].w)
    {
      EdgesStay(below, base, rendered, k, r, termWidth, j, rendered[j].col);
      EdgesStay(below, base, rendered, k, r, termWidth, j, rendered[j].col + rendered[j].w);
    }
    var k1: nat := k + 1;
    forall c: nat | 0 <= c < termWidth ensures ColumnShows(next, base, rendered, k1, r, c) {
      assert ColumnShows(below, base, rendered, k, r, c);
      LaidOver(below, overlay, o.col, o.w, termWidth, c);
    }
  }

  lemma LayerNone(below: Line, base: Line, rendered: seq<Rendered>, k: nat, r: int, termWidth: nat)
    requires k < |rendered| && Sane(rendered) && !Touches(rendered[k], r)
    requires Showing(below, base, rendered, k, r, termWidth)
    ensures Showing(below, base, rendered, k + 1, r, termWidth)
  {
    hide Cells, Plain, EdgesWhole, Displays;
    assert Touched(rendered, k + 1, r) <==> Touched(rendered, k, r);
    var k1: nat := k + 1;
    forall c: nat | 0 <= c < termWidth
      ensures ColumnShows(below, base, rendered, k1, r, c)
    {
      assert ColumnShows(below, base, rendered, k, r, c);
      assert Painted(base, rendered, k + 1, r, c) == Painted(base, rendered, k, r, c);
    }
  }

  lemma PlainNext(below: Line, overlay: Line, col: nat, w: nat, total: nat)
    requires Plain(below) && Plain(overlay)
    ensures Plain(CompositeAt(below, Clip(overlay, w), col, w, total))
  {
    hide Plain, IsImageLine, Composed, Sliced;
    PlainSliced(overlay, w);
    PlainComposed(below, Clip(overlay, w), col, w, total);
    PlainSliced(Composed(below, Clip(overlay, w), col, w, total), total);
  }

  /**
   * Overlays never blend and never disturb each other: when no wide grapheme is cut by an edge, column
   * after column a row shows the last of the overlays laid over it that covers the column, and the
   * content where none does; a row that any overlay touches is then exactly as wide as the terminal.
   */
  lemma {:induction false} TopmostShows(base: Line, rendered: seq<Rendered>, k: nat, r: int, termWidth: nat)
    requires k <= |rendered| && Sane(rendered) && Inside(rendered, r, termWidth)
    requires NothingCut(base, rendered, r) && AllPlain(base, rendered, r) && Width(base) <= termWidth
    ensures Showing(RowAfter(base, rendered, k, r, termWidth), base, rendered, k, r, termWidth)
  {
    hide Clip, CompositeAt, Touches, Showing, NothingCut, AllPlain, Inside;
    if k > 0 {
      TopmostShows(base, rendered, k - 1, r, termWidth);
      if Touches(rendered[k - 1], r) {
        LayerOne(RowAfter(base, rendered, k - 1, r, termWidth), base, rendered, k - 1, r, termWidth);
      } else {
        LayerNone(RowAfter(base, rendered, k - 1, r, termWidth), base, rendered, k - 1, r, termWidth);
      }
    } else {
      BaseShows(base, rendered, r, termWidth);
    }
  }

  lemma BaseShows(base: Line, rendered: seq<Rendered>, r: int, termWidth: nat)
    requires Sane(rendered) && NothingCut(base, rendered, r) && AllPlain(base, rendered, r) && Width(base) <= termWidth
    ensures Showing(base, base, rendered, 0, r, termWidth)
  {
    hide Plain, EdgesWhole;
  }

  /* ---------- The rows that come out ---------- */

  predicate Covers(o: Rendered, r: int, c: nat) {
    o.row <= r < o.row + |o.lines| && o.col <= c < o.col + o.w
  }

  /** What an overlay that covers a column shows there; `None` is a blank. */
  function Shown(o: Rendered, r: int, c: nat): Option<Cell>
    requires Covers(o, r, c) && o.w >= 1
  {
    var cells := Cells(o.lines[r - o.row]);
    if EndsBy(cells, c - o.col, o.w) then Some(cells[c - o.col]) else None
  }

  /** Of the first `k` overlays the last that covers a column decides what is painted there. */
  lemma {:induction false} LastPainted(base: Line, rendered: seq<Rendered>, k: nat, r: int, c: nat) returns (t: nat)
    requires k <= |rendered| && Sane(rendered) && exists j :: 0 <= j < k && Covers(rendered[j], r, c)
    ensures t < k && Covers(rendered[t], r, c) && forall j :: t < j < k ==> !Covers(rendered[j], r, c)
    ensures Painted(base, rendered, k, r, c) == Shown(rendered[t], r, c)
  {
    hide EndsBy, Cells;
    if Covers(rendered[k - 1], r, c) { t := k - 1; } else { t := LastPainted(base, rendered, k - 1, r, c); }
  }

  lemma {:induction false} BasePainted(base: Line, rendered: seq<Rendered>, k: nat, r: int, c: nat)
    requires k <= |rendered| && Sane(rendered) && forall j :: 0 <= j < k ==> !Covers(rendered[j], r, c)
    ensures Painted(base, rendered, k, r, c) == if c < |Cells(base)| then Some(Cells(base)[c]) else None
  {
    hide EndsBy, Cells;
    if k > 0 { BasePainted(base, rendered, k - 1, r, c); }
  }

  /** The visible overlays in the order they are drawn. */
  function Drawn(overlays: seq<Overlay>): seq<Overlay> {
    StableSort.Sort(Visible(overlays), (o: Overlay) => o.focusOrder)
  }

  /**
   * Column `c` of `line` shows the overlay with the greatest focus order of those that cover it; where none
   * does, what the content has there, or a blank.
   */
  ghost predicate TopmostAt(line: Line, base: Line, drawn: seq<Overlay>, rendered: seq<Rendered>, r: int, c: nat)
    requires |drawn| == |rendered| && Sane(rendered)
  {
    var (cells, b) := (Cells(line), Cells(base));
    if exists j :: 0 <= j < |rendered| && Covers(rendered[j], r, c) then
      exists t :: 0 <= t < |rendered| && Covers(rendered[t], r, c)
        && c < |cells| && Displays(cells[c], Shown(rendered[t], r, c))
        && forall j :: 0 <= j < |rendered| && Covers(rendered[j], r, c) ==> drawn[j].focusOrder <= drawn[t].focusOrder
    else if c < |b| then c < |cells| && cells[c] == b[c]
    else c < |cells| ==> Displays(cells[c], None)
  }

  /** A margin that leaves a column keeps the box inside the terminal. */
  lemma PlacedInside(o: Overlay, termWidth: nat, termHeight: nat)
    requires MarginLeft(o.options) < termWidth
    ensures var p := Place(o, termWidth, termHeight); p.col + p.w <= termWidth
  {
    hide AskedCol, AskedRow, ParseSize;
    BoxFits(o.options, |Place(o, termWidth, termHeight).lines|, termWidth, termHeight);
  }

  /** Every overlay drawn is one of the visible ones. */
  lemma {:induction false} VisibleOnes(overlays: seq<Overlay>)
    ensures forall o :: o in Visible(overlays) ==> o in overlays && o.visible
  {
    if overlays != [] { VisibleOnes(overlays[..|overlays| - 1]); }
  }

  lemma DrawnInside(overlays: seq<Overlay>, termWidth: nat, termHeight: nat, r: int)
    requires forall o :: o in overlays && o.visible ==> MarginLeft(o.options) < termWidth
    ensures Inside(Stacked(overlays, termWidth, termHeight), r, termWidth)
  {
    hide Place, Visible;
    StackedInOrder(overlays);
    VisibleOnes(overlays);
    var drawn := Drawn(overlays);
    forall j | 0 <= j < |drawn|
      ensures var p := Place(drawn[j], termWidth, termHeight); p.col + p.w <= termWidth
    {
      assert drawn[j] in multiset(drawn);
      assert drawn[j] in Visible(overlays);
      PlacedInside(drawn[j], termWidth, termHeight);
    }
  }

  lemma StackedLength(overlays: seq<Overlay>, termWidth: nat, termHeight: nat)
    ensures |Drawn(overlays)| == |Stacked(overlays, termWidth, termHeight)|
  {
  }

  /**
   * Every row that compositing returns shows, column after column, the topmost overlay there and otherwise
   * the content, as long as no left margin takes up the whole width, the content fits the terminal,
   * and no wide grapheme is cut by an edge.
   */
  lemma CompositedShows(overlays: seq<Overlay>, lines: seq<Line>, result: seq<Line>, termWidth: nat, termHeight: nat, i: nat)
    requires Sane(Stacked(overlays, termWidth, termHeight)) && i < |result|
    requires Layered(result, lines, Stacked(overlays, termWidth, termHeight), termWidth, termHeight)
    requires forall o :: o in overlays && o.visible ==> MarginLeft(o.options) < termWidth
    requires Width(Row(lines, i)) <= termWidth
    requires NothingCut(Row(lines, i), Stacked(overlays, termWidth, termHeight), i - (|result| - termHeight))
    requires AllPlain(Row(lines, i), Stacked(overlays, termWidth, termHeight), i - (|result| - termHeight))
    ensures var rendered := Stacked(overlays, termWidth, termHeight);
      var r := i - (|result| - termHeight);
      var base := if i < |lines| then lines[i] else [];
      && (if exists j :: 0 <= j < |rendered| && rendered[j].row <= r < rendered[j].row + |rendered[j].lines|
          then Width(result[i]) == termWidth else result[i] == base)
      && forall c: nat :: c < termWidth ==> TopmostAt(result[i], base, Drawn(overlays), rendered, r, c)
  {
    hide Stacked, Inside, NothingCut, AllPlain, TopmostAt, ColumnShows, RowAfter, Plain, EdgesWhole, WorkingHeight;
    var rendered := Stacked(overlays, termWidth, termHeight);
    var r := i - (|result| - termHeight);
    StackedLength(overlays, termWidth, termHeight);
    DrawnInside(overlays, termWidth, termHeight, r);
    TopmostShows(Row(lines, i), rendered, |rendered|, r, termWidth);
    forall c: nat | c < termWidth ensures TopmostAt(result[i], Row(lines, i), Drawn(overlays), rendered, r, c) {
      ColumnTopmost(result[i], Row(lines, i), overlays, rendered, r, c, termWidth, termHeight);
    }
  }

  lemma ColumnTopmost(line: Line, base: Line, overlays: seq<Overlay>, rendered: seq<Rendered>, r: int, c: nat,
                      termWidth: nat, termHeight: nat)
    requires rendered == Stacked(overlays, termWidth, termHeight) && Sane(rendered) && c < termWidth
    requires ColumnShows(line, base, rendered, |rendered|, r, c)
    requires Touched(rendered, |rendered|, r) ==> |Cells(line)| == termWidth
    ensures |Drawn(overlays)| == |rendered| && TopmostAt(line, base, Drawn(overlays), rendered, r, c)
  {
    hide Cells, Shown, Painted, Place, Visible, Sane;
    StackedInOrder(overlays);
    if exists j :: 0 <= j < |rendered| && Covers(rendered[j], r, c) {
      var t := LastPainted(base, rendered, |rendered|, r, c);
      forall j | 0 <= j < |rendered| && Covers(rendered[j], r, c)
        ensures Drawn(overlays)[j].focusOrder <= Drawn(overlays)[t].focusOrder
      {
        assert j <= t;
      }
    } else {
      BasePainted(base, rendered, |rendered|, r, c);
    }
  }
}

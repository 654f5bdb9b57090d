/** One overlay line laid over one line. */
module CompositeLine {
  import opened Wrappers
  import opened Strings
  import opened AnsiTracker
  import opened AnsiRoundTrip
  import opened Wrap
  import opened WrapProofs
  import opened Columns
  import opened Compositor

  /* ---------- Blanks and resets ---------- */

  const SPACE := Glyph(" ", 1, Space)

  function Spaces(n: nat): (line: Line)
    ensures |line| == n
  {
    seq(n, _ => SPACE)
  }

  function Blanks(n: nat, s: Style): (cells: seq<Cell>)
    ensures |cells| == n
  {
    seq(n, _ => Cell(" ", 0, 1, s))
  }

  lemma {:induction false} PaintSpaces(s: Style, n: nat)
    ensures Paint(s, Spaces(n)) == Blanks(n, s) && Width(Spaces(n)) == n
    decreases n
  {
    if n > 0 {
      PaintSpaces(s, n - 1);
      assert Spaces(n)[1..] == Spaces(n - 1);
      assert CellsOf(SPACE, s) == [Cell(" ", 0, 1, s)];
    }
  }

  const SGR_RESET := "\U{1B}[0m"
  const LINK_RESET := "\U{1B}]8;;\U{07}"
  const SEGMENT_RESET: Line := [Code(SGR_RESET), Code(LINK_RESET)]

  /** The reset between segments leaves no attribute, colour or hyperlink on. */
  lemma ResetClears(s: Style)
    ensures StyleAfter(s, SEGMENT_RESET) == CLEAR && Paint(s, SEGMENT_RESET) == []
  {
    hide Process, StyleAfter, Paint;
    SgrResets(s);
    LinkResets(Reset(s));
    assert SEGMENT_RESET == [Code(SGR_RESET)] + [Code(LINK_RESET)];
    StyleConcat(s, [Code(SGR_RESET)], [Code(LINK_RESET)]);
    PaintConcat(s, [Code(SGR_RESET)], [Code(LINK_RESET)]);
    PaintOne(s, Code(SGR_RESET));
    PaintOne(Reset(s), Code(LINK_RESET));
  }

  lemma SgrResets(s: Style)
    ensures Process(s, SGR_RESET) == Reset(s)
  {
    SgrReadsBack("0", "");
    assert SGR_RESET == "\U{1B}[" + "0" + "m";
    assert SGR_RESET[2] == '0';
  }

  lemma LinkResets(s: Style)
    ensures Process(s, LINK_RESET) == s.(link := None)
  {
    assert LINK_RESET[..4] == LINK_START;
    assert LINK_RESET[4..|LINK_RESET| - 1] == ";";
    assert StartsAt(";", 0, ";");
  }

  /* ---------- What the parts paint ---------- */

  lemma PaintTrimmed(s: Style, line: Line)
    ensures Paint(s, TrimCodes(line)) == Paint(s, line) && Width(TrimCodes(line)) == Width(line)
  {
    var t := TrimCodes(line);
    var rest := line[|t|..];
    assert line == t + rest;
    PaintConcat(s, t, rest);
    CodesShowNothing(StyleAfter(s, t), rest);
    WidthConcat(t, rest);
  }

  lemma BeforePaints(line: Line, end: nat)
    ensures At(line, Fit(line, end, true)) <= Width(line)
    ensures Paint(CLEAR, Before(line, end)) == Paint(CLEAR, line)[..At(line, Fit(line, end, true))]
    ensures Width(Before(line, end)) == At(line, Fit(line, end, true)) <= end
  {
    hide Paint, Width, TrimCodes, Fit;
    var n := Fit(line, end, true);
    FitWidth(line, end);
    PaintTrimmed(CLEAR, line[..n]);
    AtEnds(line);
    PaintSegment(line, 0, n);
    NoStyle(line);
    assert line[0..n] == line[..n];
  }

  lemma NoStyle(line: Line)
    ensures StyleAt(line, 0) == CLEAR
  {
  }

  lemma SlicedIsPrefix(line: Line, end: nat)
    ensures Sliced(line, 0, end, true) == line[..Fit(line, end, true)]
  {
    hide At;
    var (m, n) := (GlyphAt(line, 0), Fit(line, end, true));
    assert ReachFrom(line, 0, 0) == 0;
    assert Codes(line[..0]) == [];
    if m < n { assert line[0..m] + [] + line[m..n] == line[..n]; }
  }

  lemma SlicedPaints(line: Line, end: nat)
    ensures At(line, Fit(line, end, true)) <= Width(line)
    ensures Paint(CLEAR, Sliced(line, 0, end, true)) == Paint(CLEAR, line)[..At(line, Fit(line, end, true))]
    ensures Width(Sliced(line, 0, end, true)) == At(line, Fit(line, end, true)) <= end
  {
    hide Paint, Width, TrimCodes, Fit, Sliced;
    var n := Fit(line, end, true);
    SlicedIsPrefix(line, end);
    FitWidth(line, end);
    AtEnds(line);
    PaintSegment(line, 0, n);
    NoStyle(line);
    assert line[0..n] == line[..n];
  }

  lemma AfterPaints(line: Line, from: nat, to: int)
    requires Readable(line)
    ensures var (m, n) := (GlyphAt(line, from), Fit(line, to, true));
      Paint(CLEAR, After(line, from, to, true)) ==
        if m < n && At(line, m) <= At(line, n) <= Width(line) then Paint(CLEAR, line)[At(line, m)..At(line, n)] else []
  {
    hide Paint, Width, StyleAfter, Fit, WellFormed, ActiveAtoms;
    var (m, n) := (GlyphAt(line, from), Fit(line, to, true));
    if m < n {
      PaintSegment(line, m, n);
      var s := StyleAt(line, m);
      ClearWellFormed();
      StyleWellFormed(CLEAR, line[..m]);
      ActiveReopens(s);
      PaintConcat(CLEAR, ActiveAtoms(s), line[m..n]);
      CodesShowNothing(CLEAR, ActiveAtoms(s));
    } else {
      PaintNothing();
    }
  }

  lemma ClearWellFormed()
    ensures WellFormed(CLEAR)
  {
  }

  lemma PaintNothing()
    ensures Paint(CLEAR, []) == []
  {
  }

  /** A grapheme, seen in column `c`, that ends by column `end`. */
  predicate EndsBy(cells: seq<Cell>, c: nat, end: int) {
    c < |cells| && c - cells[c].part + cells[c].width <= end
  }

  /** From column `from` to `to`: the line from its first whole grapheme there, as far as its graphemes end by `to`. */
  lemma AfterShows(line: Line, from: nat, to: nat, k: nat)
    requires Readable(line)
    ensures var a := Paint(CLEAR, After(line, from, to, true)); var b := Paint(CLEAR, line);
      var c := NextWhole(b, from) + k;
      && |a| <= (if from < to then to - from else 0)
      && (k < |a| <==> EndsBy(b, c, to))
      && (k < |a| ==> a[k] == b[c])
  {
    hide Paint, Width, StyleAfter, Fit, WellFormed, After, GlyphAt, At;
    var (m, n) := (GlyphAt(line, from), Fit(line, to, true));
    var b := Paint(CLEAR, line);
    var c := NextWhole(b, from) + k;
    AfterPaints(line, from, to);
    GlyphAtWhole(line, from);
    FitWidth(line, to);
    if c < |b| { PartBelow(line, c); }
    if c < to && c < |b| { FitCells(line, to, c); }
    if m < n { PaintSegment(line, m, n); } else { AtMonotone(line, n, m); }
  }

  /** A part of a grapheme lies inside it. */
  lemma PartBelow(line: Line, c: nat)
    requires c < Width(line)
    ensures var cell := Paint(CLEAR, line)[c]; cell.part <= c && cell.part < cell.width
  {
    hide Paint, Width, At;
    var i := Owner(line, c);
  }

  /* ---------- What the composed line should show ---------- */

  /**
   * What column `c` shows once columns `start` to `start + w` are given to the overlay: to the left and
   * right the graphemes of the base that lie wholly on that side, in between those of the overlay that
   * fit; `None` is a blank. The right side begins with the first grapheme that begins there.
   */
  function Want(b: seq<Cell>, o: seq<Cell>, start: nat, w: nat, total: int, c: nat): Option<Cell> {
    if c < start then
      if EndsBy(b, c, start) then Some(b[c]) else None
    else if c < start + w then
      if EndsBy(o, c - start, w) then Some(o[c - start]) else None
    else
      var k := NextWhole(b, start + w) + (c - start - w);
      if EndsBy(b, k, total) then Some(b[k]) else None
  }

  predicate Displays(cell: Cell, want: Option<Cell>) {
    if want.Some? then cell == want.value else cell.text == " " && cell.part == 0 && cell.width == 1
  }

  function Padded(line: Line, n: nat): Line {
    line + Spaces(n)
  }

  lemma PaintPadded(line: Line, n: nat)
    ensures Paint(CLEAR, Padded(line, n)) == Paint(CLEAR, line) + Blanks(n, StyleAfter(CLEAR, line))
    ensures Width(Padded(line, n)) == Width(line) + n
  {
    hide Paint, Width, Spaces;
    PaintConcat(CLEAR, line, Spaces(n));
    PaintSpaces(StyleAfter(CLEAR, line), n);
    WidthConcat(line, Spaces(n));
  }

  lemma PaintJoined(a: Line, b: Line)
    ensures Paint(CLEAR, a + SEGMENT_RESET + b) == Paint(CLEAR, a) + Paint(CLEAR, b)
  {
    hide Paint, StyleAfter;
    ResetClears(StyleAfter(CLEAR, a));
    PaintConcat(CLEAR, a, SEGMENT_RESET);
    StyleConcat(CLEAR, a, SEGMENT_RESET);
    PaintConcat(CLEAR, a + SEGMENT_RESET, b);
  }

  /** The composed line, before the final check of its width. */
  function Composed(base: Line, overlay: Line, start: nat, w: nat, total: nat): Line
  {
    BeforePaints(base, start);
    SlicedPaints(overlay, w);
    var before := Before(base, start);
    var text := Sliced(overlay, 0, w, true);
    var after := After(base, start + w, total, true);
    Padded(before, start - Width(before)) + SEGMENT_RESET
    + (Padded(text, w - Width(text)) + SEGMENT_RESET
       + Padded(after, Max(0, Max(0, total - start - w) - Width(after))))
  }

  /** The three parts side by side, each filled up with blanks. */
  lemma ComposedPaints(base: Line, overlay: Line, start: nat, w: nat, total: nat)
    returns (l: seq<Cell>, m: seq<Cell>, r: seq<Cell>)
    ensures At(base, Fit(base, start, true)) <= Width(base) && At(overlay, Fit(overlay, w, true)) <= Width(overlay)
    ensures Paint(CLEAR, Composed(base, overlay, start, w, total)) == l + (m + r)
    ensures |l| == start && Filled(l, Paint(CLEAR, base)[..At(base, Fit(base, start, true))])
    ensures |m| == w && Filled(m, Paint(CLEAR, overlay)[..At(overlay, Fit(overlay, w, true))])
    ensures var a := Paint(CLEAR, After(base, start + w, total, true));
      |r| == Max(|a|, total - start - w) && Filled(r, a)
  {
    hide Paint, Width, StyleAfter, Before, After, Sliced, Padded, At;
    var before := Before(base, start);
    var text := Sliced(overlay, 0, w, true);
    var after := After(base, start + w, total, true);
    BeforePaints(base, start);
    SlicedPaints(overlay, w);
    var afterPad := Max(0, Max(0, total - start - w) - Width(after));
    PaintPadded(before, start - Width(before));
    PaintPadded(text, w - Width(text));
    PaintPadded(after, afterPad);
    l := Paint(CLEAR, Padded(before, start - Width(before)));
    m := Paint(CLEAR, Padded(text, w - Width(text)));
    r := Paint(CLEAR, Padded(after, afterPad));
    PaintJoined(Padded(text, w - Width(text)), Padded(after, afterPad));
    PaintJoined(Padded(before, start - Width(before)),
      Padded(text, w - Width(text)) + SEGMENT_RESET + Padded(after, afterPad));
  }

  /** `cells` and then nothing but blanks. */
  ghost predicate Filled(all: seq<Cell>, cells: seq<Cell>) {
    && |cells| <= |all|
    && (forall i :: 0 <= i < |cells| ==> all[i] == cells[i])
    && (forall i :: |cells| <= i < |all| ==> Displays(all[i], None))
  }

  /** The composed line is exactly as wide as asked for, and every column shows what it should. */
  lemma ComposedShows(base: Line, overlay: Line, start: nat, w: nat, total: nat)
    requires Readable(base)
    ensures var cells := Paint(CLEAR, Composed(base, overlay, start, w, total));
      && |cells| == (if start + w <= total then total else start + w)
      && forall c :: 0 <= c < |cells| ==>
        Displays(cells[c], Want(Paint(CLEAR, base), Paint(CLEAR, overlay), start, w, total, c))
  {
    hide Paint, Width, After, At, NextWhole, Composed;
    var (b, o) := (Paint(CLEAR, base), Paint(CLEAR, overlay));
    var l, m, r := ComposedPaints(base, overlay, start, w, total);
    AfterShows(base, start + w, total, 0);
    forall c | 0 <= c < |l + (m + r)| ensures Displays((l + (m + r))[c], Want(b, o, start, w, total, c)) {
      if c < start {
        if c < |b| { FitCells(base, start, c); }
      } else if c < start + w {
        if c - start < |o| { FitCells(overlay, w, c - start); }
      } else {
        AfterShows(base, start + w, total, c - start - w);
      }
    }
  }

  /**
   * To the right of the overlay every grapheme that ends within the line stays in its columns if and only
   * if none that ends within the line reaches over the right edge; one that does is dropped, and what
   * follows moves left into its place.
   */
  lemma RightSideStays(base: Line, overlay: Line, start: nat, w: nat, total: nat)
    requires Readable(base) && start + w < total
    ensures var (b, edge) := (Paint(CLEAR, base), start + w);
      var cells := Paint(CLEAR, Composed(base, overlay, start, w, total));
      |cells| == total &&
      ((forall c :: edge <= c < total && EndsBy(b, c, total) ==> cells[c] == b[c])
       <==> (EndsBy(b, edge, total) ==> b[edge].part == 0))
  {
    hide Paint, Width, Composed;
    ComposedShows(base, overlay, start, w, total);
    var (b, edge) := (Paint(CLEAR, base), start + w);
    var cells := Paint(CLEAR, Composed(base, overlay, start, w, total));
    assert Displays(cells[edge], Want(b, Paint(CLEAR, overlay), start, w, total, edge));
    if edge < |b| && b[edge].part != 0 && !EndsBy(b, edge, total) {
      forall c | edge <= c < total && EndsBy(b, c, total) ensures false { NothingEnds(base, edge, c, total); }
    }
  }

  const WIDE_THEN_NARROW: Line := [Glyph("W", 2, Cjk), Glyph("x", 1, Other)]

  lemma WidePaints()
    ensures Paint(CLEAR, WIDE_THEN_NARROW) == [Cell("W", 0, 2, CLEAR), Cell("W", 1, 2, CLEAR), Cell("x", 0, 1, CLEAR)]
  {
    var (w, x) := (WIDE_THEN_NARROW[0], WIDE_THEN_NARROW[1]);
    assert WIDE_THEN_NARROW == [w] + [x];
    PaintConcat(CLEAR, [w], [x]);
    PaintOne(CLEAR, w);
    PaintOne(CLEAR, x);
  }

  /** A box in column 0 cuts the wide grapheme there, and the `x` after it moves from column 2 to column 1. */
  lemma WideGraphemeShifts(overlay: Line)
    ensures var (b, cells) := (Paint(CLEAR, WIDE_THEN_NARROW), Paint(CLEAR, Composed(WIDE_THEN_NARROW, overlay, 0, 1, 3)));
      && |b| == |cells| == 3 && b[2] == Cell("x", 0, 1, CLEAR)
      && cells[1] == b[2] && cells[2] != b[2]
  {
    hide Paint, Composed;
    WidePaints();
    var b := Paint(CLEAR, WIDE_THEN_NARROW);
    ComposedShows(WIDE_THEN_NARROW, overlay, 0, 1, 3);
    assert NextWhole(b, 2) == 2;
    var cells := Paint(CLEAR, Composed(WIDE_THEN_NARROW, overlay, 0, 1, 3));
    assert Displays(cells[1], Want(b, Paint(CLEAR, overlay), 0, 1, 3, 1));
    assert Displays(cells[2], Want(b, Paint(CLEAR, overlay), 0, 1, 3, 2));
  }

  /** After a grapheme that reaches over the end of the line, none ends within it. */
  lemma NothingEnds(line: Line, x: nat, c: nat, end: nat)
    requires x <= c < end && c < Width(line) && x < Width(line)
    requires !EndsBy(Paint(CLEAR, line), x, end)
    ensures !EndsBy(Paint(CLEAR, line), c, end)
  {
    hide Paint, Width, At;
    var i := Owner(line, x);
    var j := Owner(line, c);
    AtStep(line, i);
    if j < i { AtStep(line, j); AtMonotone(line, j + 1, i); }
    else if i < j { AtMonotone(line, i + 1, j); }
  }

  lemma AfterWidth(line: Line, from: nat, to: int)
    ensures Width(After(line, from, to, true)) <= Max(0, to - from)
  {
    hide Width, Fit, ActiveAtoms;
    var (m, n) := (GlyphAt(line, from), Fit(line, to, true));
    WidthNone();
    if m < n {
      PaintSegment(line, m, n);
      if to >= 0 { FitWidth(line, to); }
      assert !Full(line, m, to, true);
      WidthActive(StyleAt(line, m));
      WidthConcat(ActiveAtoms(StyleAt(line, m)), line[m..n]);
    }
  }

  /** The final check of the width finds too much only when the box reaches over the end of the line. */
  lemma ComposedWidth(base: Line, overlay: Line, start: nat, w: nat, total: nat)
    ensures Width(Composed(base, overlay, start, w, total)) == if start + w <= total then total else start + w
  {
    hide Width, After, Composed, Paint;
    var l, m, r := ComposedPaints(base, overlay, start, w, total);
    AfterWidth(base, start + w, total);
    assert |Paint(CLEAR, Composed(base, overlay, start, w, total))| == |l| + |m| + |r|;
  }

  /* ---------- The operation ---------- */

  predicate IsImageLine(line: Line) {
    exists i :: 0 <= i < |line| && line[i].Code? && ("\U{1B}_G" <= line[i].code || "\U{1B}]1337;File=" <= line[i].code)
  }

  /** An image stays as it is; a box that reaches over the end of the line is cut off there. */
  function CompositeAt(base: Line, overlay: Line, start: nat, w: nat, total: nat): Line {
    if IsImageLine(base) then base
    else if start + w <= total then Composed(base, overlay, start, w, total)
    else Sliced(Composed(base, overlay, start, w, total), 0, total, true)
  }

  /** `compositeLineAt`. */
  method CompositeLineAt(baseLine: Line, overlayLine: Line, startCol: nat, overlayWidth: nat, totalWidth: nat)
    returns (result: Line)
    ensures result == CompositeAt(baseLine, overlayLine, startCol, overlayWidth, totalWidth)
    ensures !IsImageLine(baseLine) ==> Width(result) <= totalWidth
  {
    hide Paint, Width, Before, After, Sliced, Fit;
    if IsImageLine(baseLine) { return baseLine; }
    var afterStart := startCol + overlayWidth;
    var before, beforeWidth, after, afterWidth :=
      ExtractSegments(baseLine, startCol, afterStart, totalWidth - afterStart, true);
    var text, width := SliceWithWidth(overlayLine, 0, overlayWidth, true);
    SlicedNone(overlayLine);
    BeforePaints(baseLine, startCol);
    SlicedPaints(overlayLine, overlayWidth);
    var beforePad := Max(0, startCol - beforeWidth);
    var overlayPad := Max(0, overlayWidth - width);
    var actualBeforeWidth := Max(startCol, beforeWidth);
    var actualOverlayWidth := Max(overlayWidth, width);
    var afterTarget := Max(0, totalWidth - actualBeforeWidth - actualOverlayWidth);
    var afterPad := Max(0, afterTarget - afterWidth);
    result := before + Spaces(beforePad) + SEGMENT_RESET + text + Spaces(overlayPad) + SEGMENT_RESET
      + after + Spaces(afterPad);
    assert result == Composed(baseLine, overlayLine, startCol, overlayWidth, totalWidth) by {
      Associate(before, Spaces(beforePad), text, Spaces(overlayPad), after, Spaces(afterPad));
    }
    ComposedWidth(baseLine, overlayLine, startCol, overlayWidth, totalWidth);
    var resultWidth := Width(result);
    if resultWidth <= totalWidth { return; }
    SlicedPaints(result, totalWidth);
    SlicedNone(result);
    result, resultWidth := SliceWithWidth(result, 0, totalWidth, true);
  }

  lemma SlicedNone(line: Line)
    ensures Sliced(line, 0, 0, true) == []
  {
  }

  lemma Associate(a: Line, b: Line, c: Line, d: Line, e: Line, f: Line)
    ensures a + b + SEGMENT_RESET + c + d + SEGMENT_RESET + e + f
      == (a + b) + SEGMENT_RESET + ((c + d) + SEGMENT_RESET + (e + f))
  {
  }

  /* ---------- Slices that start inside a line ---------- */

  lemma {:induction false} CodesStyle(s: Style, line: Line)
    ensures StyleAfter(s, Codes(line)) == StyleAfter(s, line)
    decreases |line|
  {
    hide Process, StyleAfter;
    if line != [] {
      var (front, last) := (line[..|line| - 1], line[|line| - 1]);
      assert line == front + [last];
      CodesStyle(s, front);
      StyleConcat(s, front, [last]);
      StyleConcat(s, Codes(front), [last]);
      PaintOne(StyleAfter(s, front), last);
      if last.Glyph? { assert Codes(line) == Codes(front); }
    }
  }

  /**
   * A slice shows its columns as the line does if and only if the codes before it and those at its very
   * start come to the same in either order, since it puts the latter first.
   */
  lemma SliceShows(line: Line, start: nat, end: nat)
    requires var (m, n) := (GlyphAt(line, start), Fit(line, end, true)); m < n && line[m].width > 0
    ensures var (s, m, n) := (ReachFrom(line, 0, start), GlyphAt(line, start), Fit(line, end, true));
      && s <= m && At(line, m) <= At(line, n) <= Width(line)
      && (Paint(CLEAR, Sliced(line, start, end, true)) == Paint(CLEAR, line)[At(line, m)..At(line, n)]
          <==> StyleAfter(StyleAfter(CLEAR, line[s..m]), line[..s]) == StyleAfter(StyleAfter(CLEAR, line[..s]), line[s..m]))
  {
    hide Paint, Width, Process, StyleAfter, Codes, At;
    var (s, m, n) := (ReachFrom(line, 0, start), GlyphAt(line, start), Fit(line, end, true));
    Marks(line, start, end, true);
    var codes := line[s..m] + Codes(line[..s]);
    var t := StyleAfter(CLEAR, codes);
    StyleConcat(CLEAR, line[s..m], Codes(line[..s]));
    CodesStyle(StyleAfter(CLEAR, line[s..m]), line[..s]);
    assert line[..m] == line[..s] + line[s..m];
    StyleConcat(CLEAR, line[..s], line[s..m]);
    PaintSegment(line, m, n);
    PaintConcat(CLEAR, codes, line[m..n]);
    OnlyCodesBetween(line, start);
    CodesShowNothing(CLEAR, codes);
    PaintFirst(t, line[m..n]);
    PaintFirst(StyleAt(line, m), line[m..n]);
  }

  lemma OnlyCodesBetween(line: Line, start: nat)
    ensures var (s, m) := (ReachFrom(line, 0, start), GlyphAt(line, start));
      s <= m && OnlyCodes(line[s..m])
  {
    hide At;
    Marks(line, start, 0, true);
  }

  lemma PaintFirst(s: Style, line: Line)
    requires line != [] && line[0].Glyph? && line[0].width > 0
    ensures Width(line) > 0 && Paint(s, line)[0].style == s
  {
    hide Process;
  }

  const BOLD := "\U{1B}[1m"
  const PLAIN_AFTER_BOLD: Line := [Code(BOLD), Glyph("a", 1, Other), Code(SGR_RESET), Glyph("b", 1, Other)]

  lemma BoldIs()
    ensures Process(CLEAR, BOLD) == CLEAR.(on := PLAIN.(bold := true))
  {
    SgrReadsBack("1", "");
    assert [ESC, '['] + "1" + "m" == BOLD;
    assert BOLD[2] == '1';
    SplitNone("1", ';');
    assert "1"[..0] == "";
    assert ParseInt("1") == Some(1);
    assert ["1"][1..] == [];
  }

  lemma ExampleColumns()
    ensures var l := PLAIN_AFTER_BOLD;
      At(l, 0) == 0 && At(l, 1) == 0 && At(l, 2) == 1 && At(l, 3) == 1 && At(l, 4) == 2
  {
    hide At;
    var l := PLAIN_AFTER_BOLD;
    AtEnds(l);
    AtStep(l, 0);
    AtStep(l, 1);
    AtStep(l, 2);
    AtStep(l, 3);
  }

  lemma ExampleSlice()
    ensures Sliced(PLAIN_AFTER_BOLD, 1, 2, true) == [Code(SGR_RESET), Code(BOLD), Glyph("b", 1, Other)]
  {
    hide At;
    var l := PLAIN_AFTER_BOLD;
    ExampleColumns();
    assert ReachFrom(l, 2, 1) == 2 && ReachFrom(l, 1, 1) == 2;
    assert GlyphFrom(l, 3, 1) == 3 && GlyphFrom(l, 2, 1) == 3 && GlyphFrom(l, 1, 1) == 3;
    assert FitFrom(l, 4, 2, true) == 4 && FitFrom(l, 3, 2, true) == 4 && FitFrom(l, 2, 2, true) == 4;
    assert FitFrom(l, 1, 2, true) == 4;
    CodesStep(l, 0);
    CodesStep(l, 1);
    assert Codes(l[..0]) == [];
  }

  /** Bold is taken back before the slice begins, and yet the slice is bold. */
  lemma SliceMisordersCodes()
    ensures StyleAt(PLAIN_AFTER_BOLD, 3) == CLEAR
    ensures Paint(CLEAR, Sliced(PLAIN_AFTER_BOLD, 1, 2, true)) == [Cell("b", 0, 1, CLEAR.(on := PLAIN.(bold := true)))]
  {
    hide Process, Paint, StyleAfter, Sliced;
    var l := PLAIN_AFTER_BOLD;
    ExampleSlice();
    BoldIs();
    SgrResets(CLEAR);
    var bold := Process(CLEAR, BOLD);
    SgrResets(bold);
    NoStyle(l);
    StyleStep(l, 0);
    StyleStep(l, 1);
    StyleStep(l, 2);
    var (r, b, g) := (Code(SGR_RESET), Code(BOLD), Glyph("b", 1, Other));
    assert [r, b, g] == [r] + ([b] + [g]);
    PaintConcat(CLEAR, [r], [b] + [g]);
    PaintOne(CLEAR, r);
    PaintConcat(CLEAR, [b], [g]);
    PaintOne(CLEAR, b);
    PaintOne(bold, g);
  }
}

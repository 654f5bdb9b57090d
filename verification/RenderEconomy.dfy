/**
 * What a render writes and remembers: when it clears the terminal, which lines it prints otherwise, and what
 * the shadow holds afterwards.
 */
module RenderEconomy {
  import opened Wrappers
  import opened Terminal
  import opened Renderer
  import opened RendererProofs

  /* ---------- Changed lines ---------- */

  /** Line `i` is new, gone, or another one. */
  predicate Changed(prev: seq<Line>, next: seq<Line>, i: nat) {
    if i < |prev| && i < |next| then prev[i] != next[i] else i < |prev| || i < |next|
  }

  ghost predicate NothingChanged(prev: seq<Line>, next: seq<Line>) {
    forall i: nat :: !Changed(prev, next, i)
  }

  /** The first and the last changed line. */
  ghost predicate Span(prev: seq<Line>, next: seq<Line>, first: nat, last: nat) {
    && Changed(prev, next, first) && Changed(prev, next, last)
    && forall i: nat :: i < first || last < i ==> !Changed(prev, next, i)
  }

  ghost predicate Filled(lines: seq<Line>) {
    forall i :: 0 <= i < |lines| ==> lines[i] != EMPTY
  }

  /** The comparison finds just those two. */
  lemma SpanFound(prev: seq<Line>, next: seq<Line>)
    requires Filled(prev) && Filled(next)
    ensures var c := FindChanges(prev, next);
      if c.first == -1 then NothingChanged(prev, next) else 0 <= c.first <= c.last && Span(prev, next, c.first, c.last)
  {
    var n := Max(|next|, |prev|);
    var c := ScanChanges(prev, next, n);
    ChangesFacts(prev, next);
    assert |next| > |prev| ==> LineAt(prev, |next| - 1) != LineAt(next, |next| - 1);
    forall i: nat ensures Changed(prev, next, i) <==> i < n && LineAt(prev, i) != LineAt(next, i) {}
  }

  lemma OneSpan(prev: seq<Line>, next: seq<Line>, first: nat, last: nat, f: nat, l: nat)
    requires Span(prev, next, first, last) && Span(prev, next, f, l)
    ensures first == f && last == l
  {
    hide Changed;
    assert !(first < f) && !(f < first) && !(last < l) && !(l < last);
  }

  /* ---------- What operations print ---------- */

  function Printed(ops: seq<Op>): seq<Line> {
    if ops == [] then []
    else
      var last := ops[|ops| - 1];
      Printed(ops[..|ops| - 1]) + if last.Print? then [last.line] else []
  }

  lemma {:induction false} PrintedConcat(a: seq<Op>, b: seq<Op>)
    ensures Printed(a + b) == Printed(a) + Printed(b)
  {
    if b == [] {
      assert a + b == a;
    } else {
      var n := |b| - 1;
      PrintedConcat(a, b[..n]);
      assert (a + b)[..|a| + n] == a + b[..n] && (a + b)[|a| + n] == b[n];
    }
  }

  /** Operations that neither print nor erase the screen. */
  predicate Quiet(ops: seq<Op>) {
    forall i :: 0 <= i < |ops| ==> !ops[i].Print? && !ops[i].EraseScreen?
  }

  lemma {:induction false} QuietPrintsNothing(ops: seq<Op>)
    requires Quiet(ops)
    ensures Printed(ops) == [] && EraseScreen !in ops
  {
    if ops != [] { QuietPrintsNothing(ops[..|ops| - 1]); }
  }

  lemma OnePrinted(line: Line)
    ensures Printed([Print(line)]) == [line] && Printed([ClearLine, Print(line)]) == [line]
  {
    assert [Print(line)][..0] == [] && [ClearLine, Print(line)][..1] == [ClearLine] && [ClearLine][..0] == [];
  }

  lemma GapIsQuiet(gap: bool)
    ensures Printed(if gap then [NewLine] else []) == []
  {
    QuietPrintsNothing(if gap then [NewLine] else []);
  }

  lemma {:induction false} PrintAllPrints(lines: seq<Line>, n: nat)
    requires n <= |lines|
    ensures Printed(PrintAll(lines, n)) == lines[..n] && EraseScreen !in PrintAll(lines, n)
  {
    hide Printed;
    if n == 0 {
      GapIsQuiet(false);
    } else {
      PrintAllPrints(lines, n - 1);
      var (before, gap) := (PrintAll(lines, n - 1), if n > 1 then [NewLine] else []);
      GapIsQuiet(n > 1);
      OnePrinted(lines[n - 1]);
      PrintedConcat(before, gap);
      PrintedConcat(before + gap, [Print(lines[n - 1])]);
      assert lines[..n - 1] + [] + [lines[n - 1]] == lines[..n];
    }
  }

  lemma {:induction false} RewritePrints(lines: seq<Line>, first: nat, end: nat)
    requires end <= |lines|
    ensures Printed(Rewrite(lines, first, end)) == (if first < end then lines[first..end] else [])
    ensures EraseScreen !in Rewrite(lines, first, end)
    decreases end
  {
    hide Printed;
    if end <= first {
      GapIsQuiet(false);
    } else {
      RewritePrints(lines, first, end - 1);
      var (before, gap) := (Rewrite(lines, first, end - 1), if end - 1 > first then [NewLine] else []);
      GapIsQuiet(end - 1 > first);
      OnePrinted(lines[end - 1]);
      PrintedConcat(before, gap);
      PrintedConcat(before + gap, [ClearLine, Print(lines[end - 1])]);
      assert lines[first..end - 1] + [] + [lines[end - 1]] == lines[first..end];
    }
  }

  lemma {:induction false} ClearingIsQuiet(n: nat)
    ensures Quiet(ClearDown(n)) && Quiet(ClearBelow(n)) && Quiet(Repeat(NewLine, n))
  {
    if n > 0 { ClearingIsQuiet(n - 1); }
  }

  lemma MovingIsQuiet(diff: int, s: Shadow, cursor: Option<Cursor>, total: nat)
    ensures Quiet(MoveOps(diff)) && Quiet(PositionHardwareCursor(s, cursor, total).1)
  {
  }

  lemma DeletionIsQuiet(prev: nat, next: nat, row: int)
    ensures Quiet(DeletionOps(prev, next, row))
  {
    if prev > next { ClearingIsQuiet(prev - next); }
  }

  lemma RangePrints(start: seq<Op>, prev: seq<Line>, next: seq<Line>, c: Changes, row: int)
    requires 0 <= c.first < |next| && c.first <= c.last && Quiet(start)
    ensures var ops := RangeOps(start, prev, next, c, row);
      Printed(ops) == next[c.first..Min(c.last + 1, |next|)] && EraseScreen !in ops
  {
    hide MoveOps, Rewrite, Printed;
    var append := Appends(prev, next, c);
    var renderEnd := Min(c.last, |next| - 1);
    var move := MoveOps((if append then c.first - 1 else c.first) - row);
    var opening := [if append then NewLine else CarriageReturn];
    var body := Rewrite(next, c.first, Max(0, renderEnd + 1));
    var tail := TailOps(|prev|, |next|, renderEnd);
    MovingIsQuiet((if append then c.first - 1 else c.first) - row, INITIAL, None, 0);
    assert Quiet(tail) by { if |prev| > |next| { ClearingIsQuiet(|prev| - |next|); } }
    QuietPrintsNothing(start + move + opening);
    RewritePrints(next, c.first, Max(0, renderEnd + 1));
    QuietPrintsNothing(tail);
    PrintedConcat(start + move + opening, body);
    PrintedConcat(start + move + opening + body, tail);
    var p := next[c.first..renderEnd + 1];
    assert [] + p + [] == p;
  }

  /* ---------- Clearing ---------- */

  predicate Clears(o: Outcome) {
    o.Rendered? && EraseScreen in o.ops
  }

  lemma FullRenderPrints(s: Shadow, v: View, clear: bool)
    ensures var o := FullRender(s, v, clear);
      o.Rendered? && Printed(o.ops) == v.lines && (EraseScreen in o.ops <==> clear)
  {
    hide PositionHardwareCursor, PrintAll, Printed;
    var opening: seq<Op> := if clear then [EraseScreen, Home, EraseScrollback] else [];
    var o := FullRender(s, v, clear);
    var end := Max(0, |v.lines| - 1);
    var drawn := s.(
      cursorRow := end,
      hardwareCursorRow := end,
      maxLinesRendered := if clear then |v.lines| else Max(s.maxLinesRendered, |v.lines|),
      previousViewportTop := Max(0, Max(v.height, |v.lines|) - v.height));
    var moves := PositionHardwareCursor(drawn, v.cursor, |v.lines|).1;
    MovingIsQuiet(0, drawn, v.cursor, |v.lines|);
    QuietPrintsNothing(moves);
    PrintAllPrints(v.lines, |v.lines|);
    assert Printed(opening) == [] by { OpeningPrintsNothing(clear); }
    PrintedConcat(opening, PrintAll(v.lines, |v.lines|));
    PrintedConcat(opening + PrintAll(v.lines, |v.lines|), moves);
    assert o.ops == opening + PrintAll(v.lines, |v.lines|) + moves;
    assert clear ==> o.ops[0] == EraseScreen;
    assert [] + v.lines[..|v.lines|] + [] == v.lines;
  }

  lemma OpeningPrintsNothing(clear: bool)
    ensures Printed(if clear then [EraseScreen, Home, EraseScrollback] else []) == []
  {
    assert [EraseScreen, Home, EraseScrollback][..2] == [EraseScreen, Home];
    assert [EraseScreen, Home][..1] == [EraseScreen] && [EraseScreen][..0] == [];
  }

  predicate SameHeight(s: Shadow, v: View) {
    s.previousHeight == 0 || s.previousHeight == v.height
  }

  predicate SameSize(s: Shadow, v: View) {
    SameHeight(s, v) && (s.previousWidth == 0 || s.previousWidth == v.width)
  }

  /** The change from line `first` on cannot be made in place: it begins above the viewport, or too much goes. */
  predicate OutOfReach(s: Shadow, v: View, first: nat) {
    var (was, now) := (|s.previousLines|, |v.lines|);
    if first < now then first < s.previousViewportTop
    else was - now > v.height || Max(0, now - 1) < s.previousViewportTop
  }

  ghost predicate ChangeOutOfReach(s: Shadow, v: View) {
    exists first: nat, last: nat :: Span(s.previousLines, v.lines, first, last) && OutOfReach(s, v, first)
  }

  /** What differential output comes to. */
  ghost predicate InPlace(s: Shadow, v: View, o: Outcome) {
    && o.Rendered? && !Clears(o)
    && (NothingChanged(s.previousLines, v.lines) ==> Printed(o.ops) == [])
    && forall first: nat, last: nat :: Span(s.previousLines, v.lines, first, last) ==>
      Printed(o.ops) == if first < |v.lines| then v.lines[first..Min(last + 1, |v.lines|)] else []
  }

  lemma PlacedPrints(drawn: Shadow, v: View, ops: seq<Op>)
    ensures var o := Place(drawn, v, ops);
      o.Rendered? && Printed(o.ops) == Printed(ops) && (EraseScreen in o.ops <==> EraseScreen in ops)
  {
    hide PositionHardwareCursor, Printed;
    var moves := PositionHardwareCursor(drawn, v.cursor, |v.lines|).1;
    MovingIsQuiet(0, drawn, v.cursor, |v.lines|);
    QuietPrintsNothing(moves);
    PrintedConcat(ops, moves);
    assert Printed(ops) + [] == Printed(ops);
  }

  lemma UnchangedWrites(s: Shadow, v: View)
    requires NothingChanged(s.previousLines, v.lines) && FindChanges(s.previousLines, v.lines).first == -1
    ensures InPlace(s, v, RenderChanges(s, v)) && RenderChanges(s, v).Rendered? && !ChangeOutOfReach(s, v)
  {
    hide PositionHardwareCursor, Printed, Changed, FindChanges;
    MovingIsQuiet(0, s, v.cursor, |v.lines|);
    QuietPrintsNothing(PositionHardwareCursor(s, v.cursor, |v.lines|).1);
  }

  lemma DeletionWrites(s: Shadow, v: View, first: nat, last: nat)
    requires Span(s.previousLines, v.lines, first, last) && first >= |v.lines|
    ensures var o := RenderDeletion(s, v, s.previousViewportTop);
      o.Rendered? && if OutOfReach(s, v, first) then Clears(o) else InPlace(s, v, o)
  {
    hide Printed, Place, DeletionOps, FullRender;
    var (prev, target) := (s.previousLines, Max(0, |v.lines| - 1));
    assert |prev| > |v.lines|;
    hide Changed;
    FullRenderPrints(s, v, true);
    var ops := DeletionOps(|prev|, |v.lines|, s.hardwareCursorRow);
    var drawn := s.(cursorRow := target, hardwareCursorRow := target).(previousViewportTop := s.previousViewportTop);
    PlacedPrints(drawn, v, ops);
    DeletionIsQuiet(|prev|, |v.lines|, s.hardwareCursorRow);
    QuietPrintsNothing(ops);
    forall f: nat, l: nat | Span(prev, v.lines, f, l) ensures f == first { OneSpan(prev, v.lines, first, last, f, l); }
  }

  lemma ScrollIsQuiet(s: Shadow, v: View, top: int, target: int)
    ensures Quiet(ScrollTo(s, v, top, target).ops)
  {
    if target > top + v.height - 1 { ClearingIsQuiet(target - (top + v.height - 1)); }
  }

  lemma RangeWrites(s: Shadow, v: View, top: int, c: Changes)
    requires 0 <= c.first < |v.lines| && c.first <= c.last && Span(s.previousLines, v.lines, c.first, c.last)
    ensures var o := RenderRange(s, v, top, c); o.Rendered? ==> InPlace(s, v, o)
  {
    hide Printed, Place, RangeOps, ScrollTo, Changed;
    var a := ScrollTo(s, v, top, if Appends(s.previousLines, v.lines, c) then c.first - 1 else c.first);
    ScrollIsQuiet(s, v, top, if Appends(s.previousLines, v.lines, c) then c.first - 1 else c.first);
    RangePrints(a.ops, s.previousLines, v.lines, c, a.row);
    var o := PlaceRange(s, v, a, c);
    var finalRow := FinalRow(s.previousLines, v.lines, c);
    PlacedPrints(s.(
      cursorRow := Max(0, |v.lines| - 1),
      hardwareCursorRow := finalRow,
      maxLinesRendered := Max(s.maxLinesRendered, |v.lines|),
      previousViewportTop := Max(a.top, finalRow - v.height + 1)),
      v, RangeOps(a.ops, s.previousLines, v.lines, c, a.row));
    forall f: nat, l: nat | Span(s.previousLines, v.lines, f, l) ensures f == c.first && l == c.last {
      OneSpan(s.previousLines, v.lines, c.first, c.last, f, l);
    }
  }

  lemma ChangesWrite(s: Shadow, v: View)
    requires Filled(s.previousLines) && Filled(v.lines) && SameHeight(s, v)
    ensures var o := RenderChanges(s, v);
      o.Rendered? ==> if ChangeOutOfReach(s, v) then Clears(o) && Printed(o.ops) == v.lines else InPlace(s, v, o)
  {
    hide Printed, RenderDeletion, RenderRange, FullRender, OutOfReach, InPlace, Span, NothingChanged, FindChanges;
    var (prev, next) := (s.previousLines, v.lines);
    var c := FindChanges(prev, next);
    SpanFound(prev, next);
    FullRenderPrints(s, v, true);
    assert StartViewportTop(s, v) == s.previousViewportTop;
    if c.first == -1 {
      UnchangedWrites(s, v);
    } else {
      OnlySpan(s, v, c.first, c.last);
      if c.first >= |next| {
        DeletionWrites(s, v, c.first, c.last);
        DeletionPrints(s, v, s.previousViewportTop);
      } else if c.first < s.previousViewportTop {
        WithinOrNot(s, v, c.first);
      } else {
        WithinOrNot(s, v, c.first);
        RangeWrites(s, v, s.previousViewportTop, c);
      }
    }
  }

  lemma WithinOrNot(s: Shadow, v: View, first: nat)
    requires first < |v.lines|
    ensures OutOfReach(s, v, first) <==> first < s.previousViewportTop
  {
  }

  lemma OnlySpan(s: Shadow, v: View, first: nat, last: nat)
    requires Span(s.previousLines, v.lines, first, last)
    ensures ChangeOutOfReach(s, v) <==> OutOfReach(s, v, first)
  {
    hide Span, OutOfReach;
    if ChangeOutOfReach(s, v) {
      var f: nat, l: nat :| Span(s.previousLines, v.lines, f, l) && OutOfReach(s, v, f);
      OneSpan(s.previousLines, v.lines, first, last, f, l);
    }
  }

  /** A deletion that clears prints everything. */
  lemma DeletionPrints(s: Shadow, v: View, top: int)
    ensures var o := RenderDeletion(s, v, top);
      && (Clears(o) ==> Printed(o.ops) == v.lines)
      && (Clears(o) <==> var extra := |s.previousLines| - |v.lines|;
        extra > 0 && (Max(0, |v.lines| - 1) < top || extra > v.height))
  {
    hide Printed, Place, DeletionOps, FullRender;
    FullRenderPrints(s, v, true);
    var (was, now) := (|s.previousLines|, |v.lines|);
    var ops := DeletionOps(was, now, s.hardwareCursorRow);
    DeletionIsQuiet(was, now, s.hardwareCursorRow);
    QuietPrintsNothing(ops);
    var target := Max(0, now - 1);
    var drawn := if was <= now then s else s.(cursorRow := target, hardwareCursorRow := target);
    PlacedPrints(drawn.(previousViewportTop := top), v, ops);
  }

  /** The first render at this size, onto what is taken for a blank terminal. */
  predicate First(s: Shadow, v: View) {
    s.previousLines == [] && SameSize(s, v)
  }

  /** There are fewer lines than have been since the terminal was cleared, and that is to clear it again. */
  predicate Shrinks(s: Shadow, cfg: Config, v: View) {
    cfg.clearOnShrink && !v.overlays && |v.lines| < s.maxLinesRendered
  }

  /**
   * A render clears the terminal exactly if it is not the first and the width has changed, or the height outside
   * Termux, or there are fewer lines than before while shrinking is to clear and no overlay is shown, or the
   * change cannot be made in place. When it clears, and at first, it prints every line; otherwise it prints
   * those from the first to the last changed line, and no other.
   */
  lemma ClearsExactly(s: Shadow, cfg: Config, v: View)
    requires Filled(s.previousLines) && Filled(v.lines) && (cfg.termux ==> SameHeight(s, v))
    ensures var o := RenderView(s, cfg, v);
      o.Rendered? ==>
        && (Clears(o) <==> !First(s, v) && (!SameSize(s, v) || Shrinks(s, cfg, v) || ChangeOutOfReach(s, v)))
        && (if Clears(o) || First(s, v) then Printed(o.ops) == v.lines else InPlace(s, v, o))
  {
    hide Printed, RenderChanges, FullRender, ChangeOutOfReach, InPlace;
    FullRenderPrints(s, v, true);
    FullRenderPrints(s, v, false);
    if SameHeight(s, v) {
      ChangesWrite(s, v);
      KeepsScreen(s, v);
    }
  }

  lemma KeepsScreen(s: Shadow, v: View)
    ensures InPlace(s, v, RenderChanges(s, v)) ==> !Clears(RenderChanges(s, v))
  {
    hide RenderChanges;
  }

  /* ---------- What is remembered ---------- */

  /** Between renders: a size is remembered with the lines, and the greatest number of lines is no less than theirs. */
  predicate Remembering(s: Shadow) {
    && (s.previousLines != [] ==> s.previousWidth != 0 && s.previousHeight != 0)
    && |s.previousLines| <= s.maxLinesRendered && s.cursorRow == Max(0, |s.previousLines| - 1)
  }

  /**
   * A render remembers its lines and its size, the last line as the end of the content, and the greatest number of
   * lines since the terminal was last cleared, which is what clearing on shrink goes by.
   */
  lemma RemembersMeans(s: Shadow, cfg: Config, v: View)
    requires Filled(s.previousLines) && Filled(v.lines) && (cfg.termux ==> SameHeight(s, v)) && Remembering(s)
    ensures var o := RenderView(s, cfg, v);
      o.Rendered? ==>
        && o.shadow.previousLines == v.lines
        && o.shadow.previousHeight == v.height && o.shadow.previousWidth == v.width
        && o.shadow.maxLinesRendered == (if Clears(o) then |v.lines| else Max(s.maxLinesRendered, |v.lines|))
        && o.shadow.cursorRow == Max(0, |v.lines| - 1)
  {
    hide Printed, MoveOps, PrintAll, RangeOps, DeletionOps, Clears, Filled, FindChanges, FirstTooWide, ScrollTo;
    var o := RenderView(s, cfg, v);
    FullRenderPrints(s, v, true);
    FullRenderPrints(s, v, false);
    ClearsOrNot(s, cfg, v);
    DeletionPrints(s, v, StartViewportTop(s, v));
    ChangesFacts(s.previousLines, v.lines) by { FilledLines(v.lines); }
    if FindChanges(s.previousLines, v.lines).first == -1 { SameLines(s.previousLines, v.lines); }
  }

  lemma FilledLines(lines: seq<Line>)
    requires Filled(lines)
    ensures forall i :: 0 <= i < |lines| ==> lines[i] != EMPTY
  {
  }

  lemma SameLines(prev: seq<Line>, next: seq<Line>)
    requires Filled(prev) && Filled(next) && FindChanges(prev, next).first == -1
    ensures prev == next
  {
    hide FindChanges;
    SpanFound(prev, next);
    assert !Changed(prev, next, Min(|prev|, |next|));
    assert |prev| == |next|;
    forall i | 0 <= i < |prev| ensures prev[i] == next[i] { assert !Changed(prev, next, i); }
  }

  /** Which branch clears. */
  lemma ClearsOrNot(s: Shadow, cfg: Config, v: View)
    requires Filled(s.previousLines) && Filled(v.lines)
    ensures Clears(FullRender(s, v, true)) && !Clears(FullRender(s, v, false))
    ensures var c := FindChanges(s.previousLines, v.lines);
      var top := StartViewportTop(s, v);
      && (c.first == -1 ==> !Clears(RenderChanges(s, v)))
      && (0 <= c.first < |v.lines| ==> !Clears(RenderRange(s, v, top, c)))
  {
    hide Printed, FindChanges, FullRender, RenderRange;
    FullRenderPrints(s, v, true);
    FullRenderPrints(s, v, false);
    var c := FindChanges(s.previousLines, v.lines);
    SpanFound(s.previousLines, v.lines);
    if c.first == -1 { UnchangedWrites(s, v); }
    else if c.first < |v.lines| { RangeWrites(s, v, StartViewportTop(s, v), c); }
  }

  /** When the height has changed without a redraw, the viewport keeps its bottom if there are rows enough above it. */
  lemma BottomStays(s: Shadow, v: View)
    requires s.previousHeight > 0 && s.previousViewportTop >= 0
    ensures StartViewportTop(s, v) + v.height ==
      if s.previousHeight == v.height then s.previousViewportTop + v.height
      else Max(v.height, s.previousViewportTop + s.previousHeight)
  {
  }

  /** That holds from the start, after a forced redraw, and after every render of a frame with a size. */
  lemma StaysRemembering(s: Shadow, cfg: Config, v: View)
    ensures Remembering(INITIAL) && Filled(INITIAL.previousLines)
    ensures Remembering(Forced(s)) && Filled(Forced(s).previousLines)
    ensures Remembering(s) && Filled(s.previousLines) && Filled(v.lines) && v.width > 0 && v.height > 0 ==>
      (cfg.termux ==> SameHeight(s, v)) && RenderView(s, cfg, v).Rendered? ==>
      Remembering(RenderView(s, cfg, v).shadow) && Filled(RenderView(s, cfg, v).shadow.previousLines)
  {
    hide RenderView, Filled, Clears;
    assert Filled(INITIAL.previousLines) && Filled(Forced(s).previousLines) by { NoLinesFilled(); }
    if Remembering(s) && Filled(s.previousLines) && Filled(v.lines) && (cfg.termux ==> SameHeight(s, v)) {
      RemembersMeans(s, cfg, v);
    }
  }

  lemma NoLinesFilled()
    ensures Filled([])
  {
  }

  /* ---------- Scrolling ---------- */

  lemma {:induction false} RunNewLines(t: Screen, n: nat)
    requires t.Valid() && t.row == t.top + t.height - 1
    ensures var r := Run(t, Repeat(NewLine, n));
      r == if n == 0 then t else t.(rows := t.rows + BlankRows(n), top := t.top + n, row := t.row + n, col := 0)
  {
    hide Run;
    if n == 0 {
      RunNothing(t);
    } else {
      RunNewLines(t, n - 1);
      RunSnoc(t, Repeat(NewLine, n - 1), NewLine);
      assert t.rows + BlankRows(n - 1) + [BLANK] == t.rows + BlankRows(n);
      assert t.rows + BlankRows(0) == t.rows;
    }
  }

  /**
   * To reach a row below the screen, the terminal is scrolled by blank rows until that row is the last one on the
   * screen, and the cursor is there; a row on or above the screen needs nothing.
   */
  lemma ScrollReaches(s: Shadow, v: View, t: Screen, target: int)
    requires t.Valid() && t.height == v.height && s.hardwareCursorRow == t.row
    ensures var a := ScrollTo(s, v, t.top, target);
      var r := Run(t, a.ops);
      var n := target - (t.top + t.height - 1);
      && r.top == a.top && r.row == a.row
      && (if n <= 0 then r == t else r.row == target == r.top + r.height - 1 && r.rows == t.rows + BlankRows(n))
  {
    hide Run;
    var a := ScrollTo(s, v, t.top, target);
    var n := target - (t.top + t.height - 1);
    RunNothing(t);
    if n > 0 {
      var down := t.top + t.height - 1 - t.row;
      RunOne(t, Down(down));
      var u := if down > 0 then Apply(t, Down(down)) else t;
      assert Run(t, if down > 0 then [Down(down)] else []) == u;
      RunConcat(t, if down > 0 then [Down(down)] else [], Repeat(NewLine, n));
      RunNewLines(u, n);
    }
  }
}

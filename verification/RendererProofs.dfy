/**
 * Differential rendering refines a full redraw: after every render, scrollback and screen hold
 * exactly the new lines, and the shadow is an exact account of the terminal.
 */
module RendererProofs {
  import opened Wrappers
  import opened Terminal
  import opened Renderer

  /** A frame made for this terminal, none of whose lines is too wide for it. */
  ghost predicate Fits(v: View, t: Screen) {
    && Prepared(v)
    && v.width == t.width && v.height == t.height
    && forall i :: 0 <= i < |v.lines| ==> v.lines[i].width <= t.width
  }

  ghost predicate SizeKept(s: Shadow, t: Screen) {
    s.previousWidth == t.width && s.previousHeight == t.height
  }

  /** Nothing has been rendered yet, or the terminal still has the size it was last rendered at. */
  ghost predicate SizeUnchanged(s: Shadow, t: Screen) {
    && (s.previousWidth == 0 || s.previousWidth == t.width)
    && (s.previousHeight == 0 || s.previousHeight == t.height)
  }

  /** The shadow is exact. The bound on `previousLines` is what keeps every change reachable on screen. */
  ghost predicate Agrees(s: Shadow, t: Screen) {
    && t.Valid()
    && s.previousViewportTop == t.top
    && s.hardwareCursorRow == t.row
    && t.Displays(s.previousLines)
    && |s.previousLines| <= t.top + t.height
    && (t.top == 0 || t.top < |s.previousLines|)
    && (s.previousLines == [] ==> t.row == 0 && t.col == 0)
  }

  /** The invariant between renders: the shadow is exact unless the terminal has been resized since. */
  ghost predicate Tracks(s: Shadow, t: Screen) {
    && t.Valid()
    && (SizeUnchanged(s, t) ==> Agrees(s, t) && (s.previousLines != [] ==> SizeKept(s, t)))
  }

  /** `r` is `u` with rows `lo .. hi` showing those lines of `lines`; rows scrolled in below are blank. */
  ghost predicate Repainted(u: Screen, r: Screen, lo: int, hi: int, lines: seq<Line>) {
    && |u.rows| <= |r.rows|
    && forall i :: 0 <= i < |r.rows| ==>
      r.rows[i] == (if lo <= i < hi then Shows(LineAt(lines, i)) else if i < |u.rows| then u.rows[i] else BLANK)
  }

  /* ---------- What each piece of output does ---------- */

  lemma RunMove(u: Screen, diff: int)
    requires u.Valid()
    requires u.top <= u.row + diff < u.top + u.height
    ensures Run(u, MoveOps(diff)) == u.(row := u.row + diff)
  {
    if diff != 0 { RunOne(u, MoveOps(diff)[0]); }
  }

  lemma RunClear(u: Screen)
    requires u.Valid()
    ensures Run(u, [EraseScreen, Home, EraseScrollback]) == BlankScreen(u.width, u.height)
  {
    RunOne(u, EraseScreen);
    RunSnoc(u, [EraseScreen], Home);
    RunSnoc(u, [EraseScreen, Home], EraseScrollback);
    assert [EraseScreen] + [Home] == [EraseScreen, Home];
    assert [EraseScreen, Home] + [EraseScrollback] == [EraseScreen, Home, EraseScrollback];
    var r := Run(u, [EraseScreen, Home, EraseScrollback]);
    assert r.rows == BlankRows(u.height);
  }

  lemma {:induction false} RunPrintAll(w: nat, h: nat, lines: seq<Line>, n: nat)
    requires h > 0 && n <= |lines|
    requires forall i :: 0 <= i < n ==> lines[i].width <= w
    ensures BlankScreen(w, h).Valid()
    ensures Printed(w, h, lines, n, Run(BlankScreen(w, h), PrintAll(lines, n)))
  {
    var t := BlankScreen(w, h);
    if n > 0 {
      RunPrintAll(w, h, lines, n - 1);
      var before := PrintAll(lines, n - 1);
      var r0 := Run(t, before);
      if n > 1 {
        RunSnoc(t, before, NewLine);
        RunSnoc(t, before + [NewLine], Print(lines[n - 1]));
      } else {
        assert before + [] == before;
        RunSnoc(t, before, Print(lines[n - 1]));
      }
      PrintedNext(w, h, lines, n, r0);
    }
  }

  /** The first `n` lines are printed on a blank screen, and the cursor is behind the last one. */
  ghost predicate Printed(w: nat, h: nat, lines: seq<Line>, n: nat, r: Screen)
    requires n <= |lines|
  {
    && r.Valid() && r.width == w && r.height == h
    && r.top == Max(0, n - h) && r.row == Max(0, n - 1)
    && (n == 0 ==> r.col == 0)
    && r.Displays(lines[..n])
  }

  lemma PrintedNext(w: nat, h: nat, lines: seq<Line>, n: nat, r: Screen)
    requires h > 0 && 0 < n <= |lines| && lines[n - 1].width <= w && Printed(w, h, lines, n - 1, r)
    ensures Printed(w, h, lines, n, Apply(if n > 1 then Apply(r, NewLine) else r, Print(lines[n - 1])))
  {
  }

  lemma PaintRow(u: Screen, line: Line)
    requires u.Valid() && u.col == 0 && line.width <= u.width
    ensures Apply(Apply(u, ClearLine), Print(line)) == u.(rows := u.rows[u.row := Shows(line)], col := line.width)
  {
  }

  /** Moving on to row `k`, which scrolls if the screen ends there, and painting it. */
  lemma PaintNext(u: Screen, v: Screen, lines: seq<Line>, first: nat, k: nat)
    requires u.Valid() && v.Valid() && u.height == v.height && u.width == v.width
    requires first <= k < |lines| && lines[k].width <= u.width
    requires Repainted(u, v, first, k, lines) && v.top == Max(u.top, k - u.height)
    requires if k == first then v == u && v.row == first && v.col == 0 else v.row == k - 1
    ensures var next := if k > first then Apply(v, NewLine) else v;
      var r := Apply(Apply(next, ClearLine), Print(lines[k]));
      r.row == k && r.top == Max(u.top, k + 1 - u.height) && Repainted(u, r, first, k + 1, lines)
  {
    PaintRow(if k > first then Apply(v, NewLine) else v, lines[k]);
  }

  lemma {:induction false} RunRewrite(u: Screen, lines: seq<Line>, first: nat, end: nat)
    requires u.Valid() && u.row == first && u.col == 0
    requires first <= end <= |lines|
    requires forall i :: first <= i < end ==> lines[i].width <= u.width
    ensures var r := Run(u, Rewrite(lines, first, end));
      && r.row == Max(first, end - 1)
      && r.top == Max(u.top, end - u.height)
      && Repainted(u, r, first, end, lines)
  {
    hide Run;
    RunNothing(u);
    if end > first {
      var k := end - 1;
      RunRewrite(u, lines, first, k);
      var before := Rewrite(lines, first, k);
      PaintNext(u, Run(u, before), lines, first, k);
      var moved := before + if k > first then [NewLine] else [];
      RunTwo(u, moved, ClearLine, Print(lines[k]));
      if k > first { RunSnoc(u, before, NewLine); } else { assert moved == before; }
    }
  }

  lemma {:induction false} RunClearBelow(u: Screen, n: nat)
    requires u.Valid() && u.row + n < u.top + u.height
    ensures var r := Run(u, ClearBelow(n));
      && r.row == u.row + n && r.top == u.top
      && Repainted(u, r, u.row + 1, u.row + n + 1, [])
  {
    if n > 0 {
      RunClearBelow(u, n - 1);
      var before := ClearBelow(n - 1);
      RunTwo(u, before, NewLine, ClearLine);
    }
  }

  lemma RunClearOne(u: Screen, down: nat)
    requires u.Valid() && u.row + down < u.top + u.height
    ensures Run(u, (if down > 0 then [Down(down)] else []) + [CarriageReturn, ClearLine])
         == u.(row := u.row + down, rows := u.rows[u.row + down := BLANK], col := 0)
  {
    var moved: seq<Op> := if down > 0 then [Down(down)] else [];
    if down > 0 { RunOne(u, Down(down)); }
    RunTwo(u, moved, CarriageReturn, ClearLine);
  }

  lemma {:induction false} RunClearDown(u: Screen, n: nat)
    requires u.Valid() && n > 0 && u.row + n <= u.top + u.height
    ensures var r := Run(u, ClearDown(n));
      && r.row == u.row + n - 1 && r.top == u.top && r.col == 0
      && Repainted(u, r, u.row, u.row + n, [])
  {
    var before := ClearDown(n - 1);
    var step := (if n > 1 then [Down(1)] else []) + [CarriageReturn, ClearLine];
    assert ClearDown(n) == before + step;
    RunConcat(u, before, step);
    if n > 1 { RunClearDown(u, n - 1); }
    RunClearOne(Run(u, before), if n > 1 then 1 else 0);
  }

  /* ---------- The cursor ---------- */

  /** The terminal's cursor stands in the marker's column, or the last one if there is no such; in its row if `inView`. */
  ghost predicate AtMarker(cursor: Option<Cursor>, t: Screen, inView: bool) {
    cursor.Some? ==>
      && t.col == (if cursor.value.col < t.width then cursor.value.col else Max(0, t.width - 1))
      && (inView ==> t.row == cursor.value.row)
  }

  /** The tracked row stays exact after placing the cursor if and only if its target is on the screen. */
  lemma PositionExact(s: Shadow, cursor: Option<Cursor>, total: nat, t: Screen)
    requires t.Valid() && s.hardwareCursorRow == t.row && total <= t.top + t.height
    requires cursor.Some? ==> 0 <= cursor.value.row < total && cursor.value.col >= 0
    ensures var (s', ops) := PositionHardwareCursor(s, cursor, total);
      var t' := Run(t, ops);
      && t'.rows == t.rows && t'.top == t.top
      && s' == s.(hardwareCursorRow := s'.hardwareCursorRow)
      && (s'.hardwareCursorRow == t'.row <==> cursor.None? || t.top <= cursor.value.row)
      && (total > 0 ==> AtMarker(cursor, t', cursor.None? || t.top <= cursor.value.row))
      && (total == 0 ==> t' == t && s' == s)
  {
    if cursor.Some? && total > 0 {
      var moves := MoveOps(cursor.value.row - t.row);
      RunSnoc(t, moves, ToColumn(Max(0, cursor.value.col) + 1));
      if moves != [] { RunOne(t, moves[0]); }
    }
  }

  /* ---------- Full redraw ---------- */

  /** The screen shows the frame's lines once the outcome has been written to `t`. */
  ghost predicate Shown(o: Outcome, v: View, t: Screen)
    requires t.Valid()
  {
    o.Rendered? && Run(t, o.ops).Displays(v.lines)
  }

  /** Besides, the shadow accounts exactly for the terminal, so the next render can build on it. */
  ghost predicate Exact(o: Outcome, v: View, t: Screen)
    requires t.Valid()
  {
    && Shown(o, v, t)
    && Agrees(o.shadow, Run(t, o.ops))
    && o.shadow.previousWidth == v.width
    && o.shadow.previousHeight == v.height
  }

  /** The lines are shown; and the shadow is exact, and in particular its cursor row, if and only if `ok`. */
  ghost predicate ShownAndExactIff(o: Outcome, v: View, t: Screen, ok: bool)
    requires t.Valid()
  {
    && Shown(o, v, t)
    && (Exact(o, v, t) <==> ok)
    && (o.shadow.hardwareCursorRow == Run(t, o.ops).row <==> ok)
    && AtMarker(v.cursor, Run(t, o.ops), ok)
  }

  /** Once the lines are on screen, placing the cursor keeps them, and keeps the shadow exact iff the cursor is in view. */
  lemma PlaceExact(drawn: Shadow, v: View, ops: seq<Op>, t: Screen)
    requires t.Valid() && Prepared(v)
    requires Agrees(drawn.(previousLines := v.lines), Run(t, ops))
    ensures ShownAndExactIff(Place(drawn, v, ops), v, t, v.cursor.None? || Run(t, ops).top <= v.cursor.value.row)
  {
    var u := Run(t, ops);
    PositionExact(drawn, v.cursor, |v.lines|, u);
    RunConcat(t, ops, PositionHardwareCursor(drawn, v.cursor, |v.lines|).1);
  }

  /** A full redraw is right from any terminal contents whatever, if it clears first. */
  lemma FullRenderExact(s: Shadow, v: View, clear: bool, t: Screen)
    requires t.Valid() && Fits(v, t)
    requires clear || t == BlankScreen(t.width, t.height)
    ensures ShownAndExactIff(FullRender(s, v, clear), v, t, true)
  {
    var lines := v.lines;
    var ops := (if clear then [EraseScreen, Home, EraseScrollback] else []) + PrintAll(lines, |lines|);
    FullPaint(v, clear, t);
    var end := Max(0, |lines| - 1);
    PlaceExact(s.(
      cursorRow := end,
      hardwareCursorRow := end,
      maxLinesRendered := if clear then |lines| else Max(s.maxLinesRendered, |lines|),
      previousViewportTop := Max(0, Max(v.height, |lines|) - v.height)), v, ops, t);
  }

  lemma FullPaint(v: View, clear: bool, t: Screen)
    requires t.Valid() && Fits(v, t)
    requires clear || t == BlankScreen(t.width, t.height)
    ensures var lines := v.lines;
      var r := Run(t, (if clear then [EraseScreen, Home, EraseScrollback] else []) + PrintAll(lines, |lines|));
      && r.top == Max(0, |lines| - v.height) && r.row == Max(0, |lines| - 1)
      && (|lines| == 0 ==> r.col == 0)
      && r.Displays(lines)
  {
    var lines := v.lines;
    var text := PrintAll(lines, |lines|);
    RunPrintAll(t.width, t.height, lines, |lines|);
    assert lines[..|lines|] == lines;
    if clear {
      RunClear(t);
      RunConcat(t, [EraseScreen, Home, EraseScrollback], text);
    } else {
      assert [] + text == text;
    }
  }

  /* ---------- Rewriting a range ---------- */

  /** What the comparison of the old lines with the new ones guarantees. */
  lemma ChangesFacts(prev: seq<Line>, next: seq<Line>)
    requires forall i :: 0 <= i < |next| ==> next[i] != EMPTY
    ensures var c := FindChanges(prev, next);
      && (c.first == -1 ==> |next| <= |prev| && forall i :: 0 <= i < |prev| ==> prev[i] == LineAt(next, i))
      && (c.first != -1 ==>
        && 0 <= c.first <= c.last < Max(|prev|, |next|) && c.first <= |prev|
        && (forall i :: 0 <= i < Max(|prev|, |next|) && !(c.first <= i <= c.last) ==> LineAt(prev, i) == LineAt(next, i))
        && (|next| > |prev| ==> c.last == |next| - 1))
  {
    var n := Max(|next|, |prev|);
    var c := ScanChanges(prev, next, n);
    if c.first == -1 {
      forall i | 0 <= i < |prev| ensures prev[i] == LineAt(next, i) {
        assert LineAt(prev, i) == LineAt(next, i);
      }
    }
    assert |next| > |prev| ==> LineAt(prev, |prev|) != LineAt(next, |prev|);
  }

  /** The changed range `c` of an exact shadow starts on the screen. */
  ghost predicate InRange(prev: seq<Line>, next: seq<Line>, c: Changes, t: Screen) {
    && t.Valid() && prev != [] && t.Displays(prev) && (t.top == 0 || t.top < |prev|)
    && t.top <= c.first <= c.last < Max(|prev|, |next|) && c.first < |next| && c.first <= |prev|
    && (forall i :: 0 <= i < Max(|prev|, |next|) && !(c.first <= i <= c.last) ==> LineAt(prev, i) == LineAt(next, i))
    && (|next| > |prev| ==> c.last == |next| - 1)
  }

  /** Where writing starts: one row up, and with a line break, if the range starts below all old lines. */
  function Target(prev: seq<Line>, next: seq<Line>, c: Changes): int {
    if Appends(prev, next, c) then c.first - 1 else c.first
  }

  lemma ReachFirst(prev: seq<Line>, next: seq<Line>, c: Changes, t: Screen)
    requires InRange(prev, next, c, t)
    ensures t.top <= Target(prev, next, c) < t.top + t.height
    ensures var r := Run(t, MoveOps(Target(prev, next, c) - t.row)
                          + [if Appends(prev, next, c) then NewLine else CarriageReturn]);
      && r.row == c.first && r.col == 0
      && r.top == Max(t.top, c.first - t.height + 1)
      && Repainted(t, r, 0, 0, [])
  {
    var move := Target(prev, next, c) - t.row;
    RunMove(t, move);
    RunSnoc(t, MoveOps(move), if Appends(prev, next, c) then NewLine else CarriageReturn);
  }

  lemma RunBackUp(u: Screen, n: nat)
    requires u.Valid() && u.row + n < u.top + u.height
    ensures var r := Run(u, ClearBelow(n) + [Up(n)]);
      && r.row == u.row && r.top == u.top
      && Repainted(u, r, u.row + 1, u.row + n + 1, [])
  {
    RunClearBelow(u, n);
    RunSnoc(u, ClearBelow(n), Up(n));
  }

  /** The tail clears the old rows below the new content and comes back to the last new row. */
  lemma RunTail(u: Screen, prev: nat, next: nat, renderEnd: nat)
    requires u.Valid() && u.row == renderEnd < next
    requires prev > next ==> u.top < next && prev <= u.top + u.height
    ensures var r := Run(u, TailOps(prev, next, renderEnd));
      && r.top == u.top
      && r.row == (if prev > next then next - 1 else renderEnd)
      && Repainted(u, r, next, prev, [])
  {
    if prev > next {
      var down := MoveOps(next - 1 - renderEnd);
      RunMove(u, next - 1 - renderEnd);
      RunConcat(u, down, ClearBelow(prev - next) + [Up(prev - next)]);
      RunBackUp(u.(row := next - 1), prev - next);
      assert TailOps(prev, next, renderEnd) == down + (ClearBelow(prev - next) + [Up(prev - next)]);
    }
  }

  lemma RunBody(prev: seq<Line>, next: seq<Line>, c: Changes, t: Screen, end: nat)
    requires InRange(prev, next, c, t) && end == Min(c.last, |next| - 1)
    requires forall i :: 0 <= i < |next| ==> next[i].width <= t.width
    ensures var v := Run(t, RangeBody(prev, next, c, t.row));
      && v.row == end && v.top == Max(t.top, end - t.height + 1)
      && Repainted(t, v, c.first, end + 1, next)
  {
    hide Run, Rewrite, MoveOps;
    var start := MoveOps(Target(prev, next, c) - t.row)
               + [if Appends(prev, next, c) then NewLine else CarriageReturn];
    ReachFirst(prev, next, c, t);
    RunRewrite(Run(t, start), next, c.first, end + 1);
    RunConcat(t, start, Rewrite(next, c.first, end + 1));
  }

  /** Everything a range render writes before it places the cursor. */
  lemma RunRange(prev: seq<Line>, next: seq<Line>, c: Changes, t: Screen)
    requires InRange(prev, next, c, t)
    requires forall i :: 0 <= i < |next| ==> next[i].width <= t.width
    ensures var r := Run(t, RangeOps([], prev, next, c, t.row));
      && r.row == FinalRow(prev, next, c)
      && r.top == Max(t.top, r.row - t.height + 1)
      && r.Displays(next)
  {
    var end := Min(c.last, |next| - 1);
    var body := RangeBody(prev, next, c, t.row);
    RunBody(prev, next, c, t, end);
    RunEnd(prev, next, c, t, Run(t, body), end);
    RunConcat(t, body, TailOps(|prev|, |next|, end));
    RangeOpsFromHere(prev, next, c, t.row);
  }

  function RangeBody(prev: seq<Line>, next: seq<Line>, c: Changes, row: int): seq<Op>
    requires 0 <= c.first < |next|
  {
    MoveOps(Target(prev, next, c) - row)
    + [if Appends(prev, next, c) then NewLine else CarriageReturn]
    + Rewrite(next, c.first, Max(0, Min(c.last, |next| - 1) + 1))
  }

  lemma RangeOpsFromHere(prev: seq<Line>, next: seq<Line>, c: Changes, row: int)
    requires 0 <= c.first < |next|
    ensures RangeOps([], prev, next, c, row)
         == RangeBody(prev, next, c, row) + TailOps(|prev|, |next|, Min(c.last, |next| - 1))
  {
    assert [] + MoveOps(Target(prev, next, c) - row) == MoveOps(Target(prev, next, c) - row);
  }

  lemma RunEnd(prev: seq<Line>, next: seq<Line>, c: Changes, t: Screen, v: Screen, end: nat)
    requires InRange(prev, next, c, t) && end == Min(c.last, |next| - 1)
    requires v.Valid() && v.height == t.height && v.row == end && v.top == Max(t.top, end - t.height + 1)
    requires Repainted(t, v, c.first, end + 1, next)
    ensures var w := Run(v, TailOps(|prev|, |next|, end));
      && w.row == (if |prev| > |next| then |next| - 1 else end)
      && w.top == v.top
      && w.Displays(next)
  {
    var w := Run(v, TailOps(|prev|, |next|, end));
    RunTail(v, |prev|, |next|, end);
    RangeDisplays(prev, next, c, t, v, w);
  }

  lemma RangeDisplays(prev: seq<Line>, next: seq<Line>, c: Changes, t: Screen, v: Screen, w: Screen)
    requires InRange(prev, next, c, t)
    requires Repainted(t, v, c.first, Min(c.last, |next| - 1) + 1, next)
    requires Repainted(v, w, |next|, |prev|, [])
    requires Min(c.last, |next| - 1) < |v.rows|
    ensures w.Displays(next)
  {
    forall i | 0 <= i < |w.rows|
      ensures w.rows[i] == if i < |next| then Shows(next[i]) else BLANK
    {
      if i < Max(|prev|, |next|) && !(c.first <= i <= c.last) {
        assert LineAt(prev, i) == LineAt(next, i);
      }
    }
  }

  ghost predicate CursorInView(s: Shadow, v: View) {
    v.cursor.None? || s.previousViewportTop <= v.cursor.value.row
  }

  /** The scrolling branch is dead: the row to move to is never below the screen. */
  lemma NeverScrolls(s: Shadow, v: View, t: Screen)
    requires Agrees(s, t) && Fits(v, t) && s.previousLines != []
    requires t.top <= FindChanges(s.previousLines, v.lines).first < |v.lines|
    ensures var target := Target(s.previousLines, v.lines, FindChanges(s.previousLines, v.lines));
      && t.top <= target < t.top + t.height
      && ScrollTo(s, v, t.top, target) == Approach([], t.top, t.row)
  {
    ChangesFacts(s.previousLines, v.lines);
  }

  lemma RangeOutcome(s: Shadow, v: View, t: Screen)
    requires Agrees(s, t) && Fits(v, t) && s.previousLines != []
    requires t.top <= FindChanges(s.previousLines, v.lines).first < |v.lines|
    ensures var c := FindChanges(s.previousLines, v.lines);
      RenderRange(s, v, t.top, c) == PlaceRange(s, v, Approach([], t.top, t.row), c)
  {
    NeverScrolls(s, v, t);
    var c := FindChanges(s.previousLines, v.lines);
    ChangesFacts(s.previousLines, v.lines);
    assert FirstTooWide(v.lines, c.first, Max(0, Min(c.last, |v.lines| - 1) + 1), v.width).None?;
  }

  lemma RangeDrawn(s: Shadow, v: View, t: Screen, c: Changes)
    requires Agrees(s, t) && Fits(v, t) && InRange(s.previousLines, v.lines, c, t)
    ensures var u := Run(t, RangeOps([], s.previousLines, v.lines, c, t.row));
      && u.Displays(v.lines)
      && u.row == FinalRow(s.previousLines, v.lines, c)
      && u.top == Max(t.top, u.row - v.height + 1)
      && (v.cursor.None? || u.top <= v.cursor.value.row <==> CursorInView(s, v))
  {
    RunRange(s.previousLines, v.lines, c, t);
  }

  lemma RangeExact(s: Shadow, v: View, t: Screen)
    requires Agrees(s, t) && Fits(v, t) && s.previousLines != []
    requires t.top <= FindChanges(s.previousLines, v.lines).first < |v.lines|
    ensures var o := RenderRange(s, v, t.top, FindChanges(s.previousLines, v.lines));
      ShownAndExactIff(o, v, t, CursorInView(s, v))
  {
    hide Run, RangeOps, FindChanges, RenderRange;
    var c := FindChanges(s.previousLines, v.lines);
    RangeOutcome(s, v, t);
    ChangesFacts(s.previousLines, v.lines);
    RangeDrawn(s, v, t, c);
    var row := FinalRow(s.previousLines, v.lines, c);
    PlaceExact(s.(
      cursorRow := Max(0, |v.lines| - 1),
      hardwareCursorRow := row,
      maxLinesRendered := Max(s.maxLinesRendered, |v.lines|),
      previousViewportTop := Max(t.top, row - v.height + 1)), v, RangeOps([], s.previousLines, v.lines, c, t.row), t);
  }

  /* ---------- Clearing deleted lines ---------- */

  /** What a deletion writes before it places the cursor. */
  lemma RunDeletion(u: Screen, prev: nat, next: nat)
    requires u.Valid() && next < prev <= u.top + u.height
    requires u.top <= Max(0, next - 1) && (next == 0 ==> u.top == 0)
    ensures var offset := if next == 0 then 0 else 1;
      var r := Run(u, MoveOps(Max(0, next - 1) - u.row) + [CarriageReturn]
        + (if offset > 0 then [Down(offset)] else []) + ClearDown(prev - next)
        + (if prev - next - 1 + offset > 0 then [Up(prev - next - 1 + offset)] else []));
      && r.top == u.top && r.row == Max(0, next - 1) && r.col == 0
      && Repainted(u, r, next, prev, [])
  {
    var offset := if next == 0 then 0 else 1;
    var extra := prev - next;
    var reach := MoveOps(Max(0, next - 1) - u.row) + [CarriageReturn] + (if offset > 0 then [Down(offset)] else []);
    RunReach(u, Max(0, next - 1), offset);
    var v := Run(u, reach);
    RunClearDown(v, extra);
    var w := Run(v, ClearDown(extra));
    var back: seq<Op> := if extra - 1 + offset > 0 then [Up(extra - 1 + offset)] else [];
    if back != [] { RunOne(w, back[0]); }
    RunThree(u, reach, ClearDown(extra), back);
  }

  lemma RunReach(u: Screen, target: nat, offset: nat)
    requires u.Valid() && u.top <= target && target + offset < u.top + u.height
    ensures Run(u, MoveOps(target - u.row) + [CarriageReturn] + (if offset > 0 then [Down(offset)] else []))
         == u.(row := target + offset, col := 0)
  {
    RunMove(u, target - u.row);
    RunSnoc(u, MoveOps(target - u.row), CarriageReturn);
    var reached := MoveOps(target - u.row) + [CarriageReturn];
    if offset > 0 { RunSnoc(u, reached, Down(offset)); } else { assert reached + [] == reached; }
  }

  /** A deletion that cannot be done in place. */
  ghost predicate DeletionRedraws(s: Shadow, v: View) {
    var extra := |s.previousLines| - |v.lines|;
    extra > 0 && (Max(0, |v.lines| - 1) < s.previousViewportTop || extra > v.height)
  }

  /** Nothing to write: the new lines are the old ones. */
  lemma UnchangedExact(s: Shadow, v: View, t: Screen)
    requires Agrees(s, t) && Fits(v, t) && SizeKept(s, t)
    requires s.previousLines != [] && FindChanges(s.previousLines, v.lines).first == -1
    ensures var (placed, moves) := PositionHardwareCursor(s, v.cursor, |v.lines|);
      var o := Rendered(placed.(previousViewportTop := t.top, previousHeight := v.height), moves);
      ShownAndExactIff(o, v, t, CursorInView(s, v))
  {
    ChangesFacts(s.previousLines, v.lines);
    PositionExact(s, v.cursor, |v.lines|, t);
    forall i | 0 <= i < |t.rows|
      ensures t.rows[i] == if i < |v.lines| then Shows(v.lines[i]) else BLANK
    {
      if i < |s.previousLines| { assert s.previousLines[i] == LineAt(v.lines, i); }
    }
  }

  /** Deleting lines off the end redraws everything, or clears exactly their rows. */
  lemma DeletionExact(s: Shadow, v: View, t: Screen)
    requires Agrees(s, t) && Fits(v, t)
    requires FindChanges(s.previousLines, v.lines).first >= |v.lines|
    ensures ShownAndExactIff(RenderDeletion(s, v, t.top), v, t, DeletionRedraws(s, v) || CursorInView(s, v))
  {
    var prev := s.previousLines;
    if DeletionRedraws(s, v) {
      FullRenderExact(s, v, true, t);
    } else {
      DeletionInPlace(s, v, t);
      var target := Max(0, |v.lines| - 1);
      PlaceExact(s.(cursorRow := target, hardwareCursorRow := target), v, DeletionOps(|prev|, |v.lines|, t.row), t);
    }
  }

  lemma DeletionInPlace(s: Shadow, v: View, t: Screen)
    requires Agrees(s, t) && Fits(v, t) && !DeletionRedraws(s, v)
    requires FindChanges(s.previousLines, v.lines).first >= |v.lines|
    ensures |s.previousLines| > |v.lines|
    ensures var r := Run(t, DeletionOps(|s.previousLines|, |v.lines|, t.row));
      && r.Displays(v.lines) && r.top == t.top
      && r.row == Max(0, |v.lines| - 1) && (v.lines == [] ==> r.col == 0)
  {
    hide Run, FindChanges;
    var prev := s.previousLines;
    ChangesFacts(prev, v.lines);
    RunDeletion(t, |prev|, |v.lines|);
    var r := Run(t, DeletionOps(|prev|, |v.lines|, t.row));
    forall i | 0 <= i < |r.rows|
      ensures r.rows[i] == if i < |v.lines| then Shows(v.lines[i]) else BLANK
    {
      if i < |v.lines| { assert LineAt(prev, i) == LineAt(v.lines, i); }
    }
  }

  /* ---------- One render ---------- */

  /** The renders that clear or start over, whatever the shadow says. */
  ghost predicate Redraws(s: Shadow, cfg: Config, v: View) {
    var c := FindChanges(s.previousLines, v.lines);
    || s.previousLines == []
    || MustClear(s, cfg, v)
    || (c.first >= |v.lines| && DeletionRedraws(s, v))
    || (0 <= c.first < |v.lines| && c.first < s.previousViewportTop)
  }

  /**
   * A changed size makes the render start over. The one case it does not, a Termux session in which the
   * height alone has changed and nothing else asks for clearing, is not covered.
   */
  ghost predicate SizeHandled(s: Shadow, cfg: Config, v: View, t: Screen) {
    SizeUnchanged(s, t) || MustClear(s, cfg, v)
  }

  /** Outside Termux, and after a forced redraw or a change of width anywhere, this always holds. */
  lemma SizeHandledUnlessTermux(s: Shadow, cfg: Config, v: View, t: Screen)
    requires Fits(v, t)
    ensures !cfg.termux || WidthChanged(s, v) ==> SizeHandled(s, cfg, v, t)
    ensures SizeHandled(Forced(s), cfg, v, t)
    ensures !SizeHandled(s, cfg, v, t) ==> cfg.termux && HeightChanged(s, v) && !WidthChanged(s, v)
  {
  }

  /**
   * One render. From a tracked terminal, the rows end up holding exactly the new lines; and the shadow
   * stays exact if and only if the render starts over or the cursor marker is in the viewport.
   */
  lemma RenderExact(s: Shadow, cfg: Config, v: View, t: Screen)
    requires Tracks(s, t) && Fits(v, t)
    requires SizeHandled(s, cfg, v, t)
    ensures ShownAndExactIff(RenderView(s, cfg, v), v, t, Redraws(s, cfg, v) || CursorInView(s, v))
  {
    if !SizeUnchanged(s, t) {
      FullRenderExact(s, v, true, t);
    } else if s.previousLines == [] {
      assert t == BlankScreen(t.width, t.height) by { assert t.rows == BlankRows(t.height); }
      FullRenderExact(s, v, false, t);
    } else if MustClear(s, cfg, v) {
      FullRenderExact(s, v, true, t);
    } else {
      DiffExact(s, cfg, v, t);
    }
  }

  lemma DiffExact(s: Shadow, cfg: Config, v: View, t: Screen)
    requires Agrees(s, t) && Fits(v, t) && SizeKept(s, t)
    requires s.previousLines != [] && !MustClear(s, cfg, v)
    ensures ShownAndExactIff(RenderView(s, cfg, v), v, t, Redraws(s, cfg, v) || CursorInView(s, v))
  {
    var c := FindChanges(s.previousLines, v.lines);
    ChangesFacts(s.previousLines, v.lines);
    if c.first == -1 {
      UnchangedExact(s, v, t);
    } else if c.first >= |v.lines| {
      DeletionExact(s, v, t);
    } else if c.first < t.top {
      FullRenderExact(s, v, true, t);
    } else {
      RangeExact(s, v, t);
    }
  }

  /** Up to blank rows below, the screen is the one a full redraw of the same frame would leave. */
  lemma SameAsRedraw(s: Shadow, cfg: Config, v: View, t: Screen)
    requires Tracks(s, t) && Fits(v, t)
    requires SizeHandled(s, cfg, v, t)
    ensures RenderView(s, cfg, v).Rendered?
    ensures var fast := Run(t, RenderView(s, cfg, v).ops);
      var full := Run(t, FullRender(s, v, true).ops);
      |fast.rows| >= |full.rows| && fast.rows == full.rows + BlankRows(|fast.rows| - |full.rows|)
  {
    RenderExact(s, cfg, v, t);
    FullRenderExact(s, v, true, t);
  }

  /** A line is refused exactly when it is the first too wide one among the rows to be rewritten in place. */
  lemma RefusedExactly(s: Shadow, cfg: Config, v: View, i: nat)
    requires s.previousLines != [] && !MustClear(s, cfg, v)
    ensures var c := FindChanges(s.previousLines, v.lines);
      RenderView(s, cfg, v) == TooWide(i) <==>
        && Max(0, StartViewportTop(s, v)) <= c.first <= i <= c.last && i < |v.lines|
        && v.lines[i].width > v.width
        && forall j :: c.first <= j < i ==> v.lines[j].width <= v.width
  {
    var c := FindChanges(s.previousLines, v.lines);
    if Max(0, StartViewportTop(s, v)) <= c.first < |v.lines| {
      var end := Max(0, Min(c.last, |v.lines| - 1) + 1);
      var wide := FirstTooWide(v.lines, c.first, end, v.width);
      assert RenderView(s, cfg, v) == RenderRange(s, v, StartViewportTop(s, v), c);
    }
  }

  /* ---------- Whole runs ---------- */

  datatype World = World(shadow: Shadow, screen: Screen)

  datatype Event =
    | Draw(frame: Frame)
    | Force
    | Resize(to: Screen)

  /** The world before the first render: a blank terminal of any size. */
  ghost predicate Fresh(w: World) {
    w.shadow == INITIAL && w.screen.height > 0 && w.screen == BlankScreen(w.screen.width, w.screen.height)
  }

  /**
   * A resize may leave any contents when the size then differs from the last rendered one. One that ends at
   * that size again, or comes before the first render, must leave what was there: the renderer cannot tell.
   */
  ghost predicate Legal(w: World, cfg: Config, e: Event) {
    match e
    case Draw(f) =>
      && Fits(Prepare(f), w.screen)
      && SizeHandled(w.shadow, cfg, Prepare(f), w.screen)
      && (Redraws(w.shadow, cfg, Prepare(f)) || CursorInView(w.shadow, Prepare(f)))
    case Force => true
    case Resize(to) => Tracks(w.shadow, to)
  }

  function Next(w: World, cfg: Config, e: Event): (r: World)
    requires w.screen.Valid()
    requires e.Resize? ==> e.to.Valid()
    ensures r.screen.Valid()
  {
    match e
    case Draw(f) =>
      (match Render(w.shadow, cfg, f)
       case Rendered(shadow, ops) => World(shadow, Run(w.screen, ops))
       case TooWide(_) => w)
    case Force => w.(shadow := Forced(w.shadow))
    case Resize(to) => w.(screen := to)
  }

  /** The worlds along a run: `ws[i + 1]` is `ws[i]` after event `es[i]`. */
  ghost predicate IsRun(cfg: Config, es: seq<Event>, ws: seq<World>) {
    && |ws| == |es| + 1
    && Fresh(ws[0])
    && forall i :: 0 <= i < |es| ==>
         && ws[i].screen.Valid()
         && Legal(ws[i], cfg, es[i])
         && ws[i + 1] == Next(ws[i], cfg, es[i])
  }

  lemma NextTracks(w: World, cfg: Config, e: Event)
    requires Tracks(w.shadow, w.screen) && Legal(w, cfg, e)
    ensures var r := Next(w, cfg, e);
      && Tracks(r.shadow, r.screen)
      && (e.Draw? ==>
        && Agrees(r.shadow, r.screen) && r.screen.Displays(NewLines(e.frame))
        && AtMarker(CursorPos(e.frame), r.screen, true))
  {
    if e.Draw? { RenderExact(w.shadow, cfg, Prepare(e.frame), w.screen); }
  }

  /**
   * Over any run of renders, forced redraws and resizes, every render leaves exactly its frame's lines
   * in scrollback and screen, with an exact shadow and the terminal's cursor at the frame's marker.
   */
  lemma {:induction false} EveryRenderShowsItsFrame(cfg: Config, es: seq<Event>, ws: seq<World>, k: nat)
    requires IsRun(cfg, es, ws) && k <= |es|
    ensures Tracks(ws[k].shadow, ws[k].screen)
    ensures k > 0 && es[k - 1].Draw? ==>
      && ws[k].screen.Displays(NewLines(es[k - 1].frame))
      && AtMarker(CursorPos(es[k - 1].frame), ws[k].screen, true)
      && ws[k].shadow.hardwareCursorRow == ws[k].screen.row
      && ws[k].shadow.previousViewportTop == ws[k].screen.top
  {
    if k > 0 {
      EveryRenderShowsItsFrame(cfg, es, ws, k - 1);
      NextTracks(ws[k - 1], cfg, es[k - 1]);
    }
  }

  /** Frames drawn one after the other. */
  function AfterAll(w: World, cfg: Config, frames: seq<Frame>): (r: World)
    requires w.screen.Valid()
    ensures r.screen.Valid()
  {
    if frames == [] then w
    else Next(AfterAll(w, cfg, frames[..|frames| - 1]), cfg, Draw(frames[|frames| - 1]))
  }

  ghost predicate LegalSession(w: World, cfg: Config, frames: seq<Frame>)
    requires w.screen.Valid()
  {
    forall k :: 0 <= k < |frames| ==> Legal(AfterAll(w, cfg, frames[..k]), cfg, Draw(frames[k]))
  }

  const LINE_A := Line("a", 1)
  const LINE_B := Line("b", 1)
  const THREE_LINES := Frame(9, 2, [Plain(LINE_A), Plain(LINE_B), Plain(Line("c", 1))], false)
  const MARKED_TWO := Frame(9, 2, [Marked(LINE_A, LINE_A, 0), Plain(LINE_B)], false)
  const ANY_CONFIG := Config(false, false)

  /** After three lines on a screen of two rows, the viewport begins with the second. */
  lemma ThreeLinesDrawn() returns (w: World)
    ensures IsRun(ANY_CONFIG, [Draw(THREE_LINES)], [World(INITIAL, BlankScreen(9, 2)), w]) && w.screen.Valid()
    ensures Agrees(w.shadow, w.screen) && w.shadow.previousLines == NewLines(THREE_LINES)
    ensures w.shadow.previousViewportTop == 1 && w.shadow.previousWidth == 9 && w.shadow.previousHeight == 2
    ensures w.screen.width == 9 && w.screen.height == 2
  {
    var start := World(INITIAL, BlankScreen(9, 2));
    w := Next(start, ANY_CONFIG, Draw(THREE_LINES));
    assert FindMarker(THREE_LINES.raw, 2, 1).None?;
    assert Prepare(THREE_LINES).cursor.None?;
    RenderExact(INITIAL, ANY_CONFIG, Prepare(THREE_LINES), start.screen);
    assert Legal(start, ANY_CONFIG, Draw(THREE_LINES));
  }

  /**
   * The cursor condition is needed: when three lines on a screen of two rows shrink to two, a marker on
   * the first lies above the viewport. The two lines are shown, but the tracked row is not the real one.
   */
  lemma MarkerAboveViewport() returns (w: World)
    ensures IsRun(ANY_CONFIG, [Draw(THREE_LINES)], [World(INITIAL, BlankScreen(9, 2)), w]) && w.screen.Valid()
    ensures var r := Next(w, ANY_CONFIG, Draw(MARKED_TWO));
      r.screen.Displays(NewLines(MARKED_TWO)) && r.shadow.hardwareCursorRow != r.screen.row
  {
    hide Run, NewLines, IsRun, RenderView, FindChanges;
    w := ThreeLinesDrawn();
    var (s, v) := (w.shadow, Prepare(MARKED_TWO));
    MarkedTwoIs();
    LastGone(s.previousLines, v.lines);
    RenderExact(s, ANY_CONFIG, v, w.screen);
    assert !Redraws(s, ANY_CONFIG, v) && !CursorInView(s, v);
  }

  /**
   * A resize that ends at the size last rendered is not seen: the same lines drawn again are on the screen
   * if and only if they were still there before.
   */
  lemma UnseenResize(s: Shadow, cfg: Config, v: View, t: Screen)
    requires t.Valid() && t.width == v.width && t.height == v.height && SizeUnchanged(s, t)
    requires s.previousLines != [] && v.lines == s.previousLines && v.cursor.None? && !MustClear(s, cfg, v)
    ensures var o := RenderView(s, cfg, v);
      o.Rendered? && o.ops == [] && (Run(t, o.ops).Displays(v.lines) <==> t.Displays(v.lines))
  {
    hide FindChanges;
    NothingChanges(v.lines);
    RunNothing(t);
  }

  lemma NothingChanges(lines: seq<Line>)
    ensures FindChanges(lines, lines).first == -1
  {
  }

  /** Three lines are drawn, a resize and back clears the terminal, and the same lines drawn again are not shown. */
  lemma ResizedAndBack() returns (w: World)
    ensures IsRun(ANY_CONFIG, [Draw(THREE_LINES)], [World(INITIAL, BlankScreen(9, 2)), w]) && w.screen.Valid()
    ensures BlankScreen(9, 2).Valid() && !Legal(w, ANY_CONFIG, Resize(BlankScreen(9, 2)))
    ensures var t := Next(w, ANY_CONFIG, Resize(BlankScreen(9, 2)));
      !Next(t, ANY_CONFIG, Draw(THREE_LINES)).screen.Displays(NewLines(THREE_LINES))
  {
    hide Run, NewLines, IsRun, RenderView;
    w := ThreeLinesDrawn();
    var v := Prepare(THREE_LINES);
    assert FindMarker(THREE_LINES.raw, 2, 1).None?;
    assert v.cursor.None? && !MustClear(w.shadow, ANY_CONFIG, v);
    UnseenResize(w.shadow, ANY_CONFIG, v, BlankScreen(9, 2));
    assert |v.lines| == 3;
    RunNothing(BlankScreen(9, 2));
  }

  lemma LastGone(prev: seq<Line>, next: seq<Line>)
    requires |prev| == 3 && next == prev[..2] && prev[2] != EMPTY
    ensures FindChanges(prev, next).first == 2
  {
    assert LineAt(prev, 2) != LineAt(next, 2);
    assert LineAt(prev, 0) == LineAt(next, 0) && LineAt(prev, 1) == LineAt(next, 1);
  }

  lemma MarkedTwoIs()
    ensures Prepare(MARKED_TWO).cursor == Some(Cursor(0, 0))
    ensures NewLines(MARKED_TWO) == [WithReset(LINE_A), WithReset(LINE_B)] && |NewLines(THREE_LINES)| == 3
    ensures NewLines(THREE_LINES)[..2] == NewLines(MARKED_TWO)
  {
    assert FindMarker(MARKED_TWO.raw, 1, 0) == Some(0);
    assert FindMarker(THREE_LINES.raw, 2, 1).None?;
  }

  /** After a forced redraw the next frame is shown exactly, whatever the terminal held. */
  lemma ForcedRenderStartsOver(s: Shadow, cfg: Config, v: View, t: Screen)
    requires t.Valid() && Fits(v, t)
    ensures ShownAndExactIff(RenderView(Forced(s), cfg, v), v, t, true)
  {
    FullRenderExact(Forced(s), v, true, t);
  }

  /* ---------- Leaving ---------- */

  /**
   * What stopping makes of the screen `before`: the content is kept and the cursor is at the start of a
   * blank line, of the second below the content while the first one is on screen, and of the first,
   * scrolled in, when the content fills it.
   */
  ghost predicate LeftBelow(after: Screen, before: Screen, lines: seq<Line>) {
    && after.row == |lines| + (if |lines| < before.top + before.height then 1 else 0)
    && after.row < |after.rows|
    && after.col == 0 && after.rows[after.row] == BLANK && after.Displays(lines)
  }

  /** The two writes that leaving takes, in one. */
  lemma LeaveParts(s: Shadow, t: Screen)
    requires t.Valid()
    ensures s.previousLines == [] ==> Run(t, LeaveOps(s)) == t
    ensures s.previousLines != [] ==>
      Run(Run(t, MoveOps(|s.previousLines| - s.hardwareCursorRow)), [NewLine]) == Run(t, LeaveOps(s))
  {
    hide Run, Apply;
    var moves := MoveOps(|s.previousLines| - s.hardwareCursorRow);
    RunConcat(t, moves, [NewLine]);
    RunNothing(t);
  }

  lemma RunNothing(t: Screen)
    requires t.Valid()
    ensures Run(t, []) == t
  {
  }

  lemma StopsBelow(s: Shadow, t: Screen)
    requires Agrees(s, t) && s.previousLines != []
    ensures LeftBelow(Run(t, LeaveOps(s)), t, s.previousLines)
  {
    hide Run, MoveOps;
    var moves := MoveOps(|s.previousLines| - t.row);
    RunSnoc(t, moves, NewLine);
    Moves(t, |s.previousLines| - t.row);
  }

  /** A move stops at the edges of the screen. */
  lemma Moves(t: Screen, n: int)
    requires t.Valid()
    ensures Run(t, MoveOps(n)) == t.(row := Max(t.top, Min(t.row + n, t.top + t.height - 1)))
  {
    if n > 0 { RunOne(t, Down(n)); } else if n < 0 { RunOne(t, Up(-n)); }
  }
}

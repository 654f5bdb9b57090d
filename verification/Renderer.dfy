/**
 * The differential renderer: what one call of `doRender` writes, as a function of the renderer's
 * shadow of the terminal.
 */
module Renderer {
  import opened Wrappers
  import opened Terminal

  /** The renderer's fields. A size of 0 means "nothing rendered yet", -1 "redraw everything next time". */
  datatype Shadow = Shadow(
    previousLines: seq<Line>,
    previousWidth: int,
    previousHeight: int,
    hardwareCursorRow: int,
    cursorRow: int,
    maxLinesRendered: int,
    previousViewportTop: int)

  const INITIAL := Shadow([], 0, 0, 0, 0, 0, 0)

  datatype Config = Config(clearOnShrink: bool, termux: bool)

  /** A line as components return it; a marked one carries the cursor marker `col` columns in. */
  datatype RawLine =
    | Plain(raw: Line)
    | Marked(raw: Line, stripped: Line, col: nat)

  datatype Cursor = Cursor(row: int, col: int)

  /** What one render is given: terminal size, component output, and whether overlays are stacked. */
  datatype Frame = Frame(width: nat, height: nat, raw: seq<RawLine>, overlays: bool)

  /** `TooWide` is the exception thrown for a line wider than the terminal, before anything is written. */
  datatype Outcome = Rendered(shadow: Shadow, ops: seq<Op>) | TooWide(index: nat)

  const SEGMENT_RESET := "\U{1B}[0m\U{1B}]8;;\U{07}"

  /* ---------- Cursor marker and line resets ---------- */

  /** Search rows `row`, `row - 1`, ..., `viewportTop` for the marker. */
  function FindMarker(raw: seq<RawLine>, row: int, viewportTop: nat): (r: Option<nat>)
    requires row < |raw|
    ensures r.Some? ==>
      && viewportTop <= r.value <= row
      && raw[r.value].Marked?
      && forall i :: r.value < i <= row ==> raw[i].Plain?
    ensures r.None? ==> forall i :: viewportTop <= i <= row ==> raw[i].Plain?
    decreases row - viewportTop + 1
  {
    if row < viewportTop then None
    else if raw[row].Marked? then Some(row)
    else FindMarker(raw, row - 1, viewportTop)
  }

  function MarkerRow(f: Frame): Option<nat> {
    FindMarker(f.raw, |f.raw| - 1, Max(0, |f.raw| - f.height))
  }

  function CursorPos(f: Frame): (r: Option<Cursor>)
    ensures r.Some? ==>
      && Max(0, |f.raw| - f.height) <= r.value.row < |f.raw|
      && f.raw[r.value.row].Marked? && f.raw[r.value.row].col == r.value.col
      && forall i :: r.value.row < i < |f.raw| ==> f.raw[i].Plain?
    ensures r.None? ==> forall i :: Max(0, |f.raw| - f.height) <= i < |f.raw| ==> f.raw[i].Plain?
  {
    match MarkerRow(f)
    case None => None
    case Some(i) => Some(Cursor(i, f.raw[i].col))
  }

  function WithReset(line: Line): Line {
    line.(text := line.text + SEGMENT_RESET)
  }

  /** The lines compared and written: the marker found is stripped, and every line ends with a reset. */
  function NewLines(f: Frame): (lines: seq<Line>)
    ensures |lines| == |f.raw|
    ensures forall i :: 0 <= i < |lines| ==> lines[i] != EMPTY
    ensures var at := CursorPos(f);
      forall i :: 0 <= i < |lines| ==>
        var line := if at.Some? && at.value.row == i then f.raw[i].stripped else f.raw[i].raw;
        lines[i].text == line.text + "\U{1B}[0m\U{1B}]8;;\U{07}" && lines[i].width == line.width
  {
    var at := MarkerRow(f);
    seq(|f.raw|, i requires 0 <= i < |f.raw| =>
      WithReset(if at == Some(i) && f.raw[i].Marked? then f.raw[i].stripped else f.raw[i].raw))
  }

  /** The frame ready to be compared and written. */
  datatype View = View(lines: seq<Line>, cursor: Option<Cursor>, width: nat, height: nat, overlays: bool)

  ghost predicate Prepared(v: View) {
    && (forall i :: 0 <= i < |v.lines| ==> v.lines[i] != EMPTY)
    && (v.cursor.Some? ==>
      Max(0, |v.lines| - v.height) <= v.cursor.value.row < |v.lines| && v.cursor.value.col >= 0)
  }

  function Prepare(f: Frame): (v: View)
    ensures Prepared(v)
  {
    View(NewLines(f), CursorPos(f), f.width, f.height, f.overlays)
  }

  /* ---------- Pieces of output ---------- */

  function MoveOps(diff: int): seq<Op> {
    if diff > 0 then [Down(diff)] else if diff < 0 then [Up(-diff)] else []
  }

  function Repeat(op: Op, n: int): (ops: seq<Op>)
    ensures n >= 0 ==> |ops| == n
  {
    if n <= 0 then [] else Repeat(op, n - 1) + [op]
  }

  /** `lines[..n]` separated by line breaks. */
  function PrintAll(lines: seq<Line>, n: nat): seq<Op>
    requires n <= |lines|
  {
    if n == 0 then []
    else PrintAll(lines, n - 1) + (if n > 1 then [NewLine] else []) + [Print(lines[n - 1])]
  }

  /** Rewrite rows `first` up to but not including `end`, starting on row `first`. */
  function Rewrite(lines: seq<Line>, first: nat, end: nat): seq<Op>
    requires end <= |lines|
    decreases end
  {
    if end <= first then []
    else Rewrite(lines, first, end - 1) + (if end - 1 > first then [NewLine] else [])
         + [ClearLine, Print(lines[end - 1])]
  }

  /** Clear `n` rows downwards without scrolling, starting on the current one. */
  function ClearDown(n: nat): seq<Op> {
    if n == 0 then []
    else ClearDown(n - 1) + (if n > 1 then [Down(1)] else []) + [CarriageReturn, ClearLine]
  }

  /** Clear the `n` rows below the current one. */
  function ClearBelow(n: nat): seq<Op> {
    if n == 0 then [] else ClearBelow(n - 1) + [NewLine, ClearLine]
  }

  function FirstTooWide(lines: seq<Line>, first: nat, end: nat, width: nat): (r: Option<nat>)
    requires end <= |lines|
    ensures r.None? <==> forall i :: first <= i < end ==> lines[i].width <= width
    ensures r.Some? ==>
      && first <= r.value < end
      && lines[r.value].width > width
      && forall i :: first <= i < r.value ==> lines[i].width <= width
    decreases end
  {
    if end <= first then None
    else
      var before := FirstTooWide(lines, first, end - 1, width);
      if before.Some? then before
      else if lines[end - 1].width > width then Some(end - 1)
      else None
  }

  /* ---------- Comparing the two line lists ---------- */

  function LineAt(lines: seq<Line>, i: nat): Line {
    if i < |lines| then lines[i] else EMPTY
  }

  datatype Changes = Changes(first: int, last: int)

  /** First and last index below `n` where the lists differ; -1 when they agree. */
  function ScanChanges(prev: seq<Line>, next: seq<Line>, n: nat): (c: Changes)
    ensures c.first == -1 <==> c.last == -1
    ensures c.first == -1 <==> forall i :: 0 <= i < n ==> LineAt(prev, i) == LineAt(next, i)
    ensures c.first != -1 ==>
      && 0 <= c.first <= c.last < n
      && LineAt(prev, c.first) != LineAt(next, c.first)
      && LineAt(prev, c.last) != LineAt(next, c.last)
      && (forall i :: 0 <= i < c.first ==> LineAt(prev, i) == LineAt(next, i))
      && (forall i :: c.last < i < n ==> LineAt(prev, i) == LineAt(next, i))
  {
    if n == 0 then Changes(-1, -1)
    else
      var c := ScanChanges(prev, next, n - 1);
      if LineAt(prev, n - 1) == LineAt(next, n - 1) then c
      else Changes(if c.first == -1 then n - 1 else c.first, n - 1)
  }

  function FindChanges(prev: seq<Line>, next: seq<Line>): Changes {
    var c := ScanChanges(prev, next, Max(|next|, |prev|));
    if |next| > |prev| then
      Changes(if c.first == -1 then |prev| else c.first, |next| - 1)
    else c
  }

  /* ---------- The render ---------- */

  function PositionHardwareCursor(s: Shadow, cursor: Option<Cursor>, total: nat): (r: (Shadow, seq<Op>)) {
    if cursor.None? || total <= 0 then (s, [])
    else
      var targetRow := Max(0, Min(cursor.value.row, total - 1));
      var targetCol := Max(0, cursor.value.col);
      (s.(hardwareCursorRow := targetRow),
       MoveOps(targetRow - s.hardwareCursorRow) + [ToColumn(targetCol + 1)])
  }

  /** The common end of every render that writes: place the cursor, then remember the lines and the size. */
  function Place(drawn: Shadow, v: View, ops: seq<Op>): Outcome {
    var lines := v.lines;
    var (placed, moves) := PositionHardwareCursor(drawn, v.cursor, |lines|);
    Rendered(placed.(previousLines := lines, previousWidth := v.width, previousHeight := v.height), ops + moves)
  }

  function FullRender(s: Shadow, v: View, clear: bool): Outcome {
    var lines := v.lines;
    var ops := (if clear then [EraseScreen, Home, EraseScrollback] else []) + PrintAll(lines, |lines|);
    var end := Max(0, |lines| - 1);
    var drawn := s.(
      cursorRow := end,
      hardwareCursorRow := end,
      maxLinesRendered := if clear then |lines| else Max(s.maxLinesRendered, |lines|),
      previousViewportTop := Max(0, Max(v.height, |lines|) - v.height));
    Place(drawn, v, ops)
  }

  predicate WidthChanged(s: Shadow, v: View) {
    s.previousWidth != 0 && s.previousWidth != v.width
  }

  predicate HeightChanged(s: Shadow, v: View) {
    s.previousHeight != 0 && s.previousHeight != v.height
  }

  function StartViewportTop(s: Shadow, v: View): int {
    var bufferLength := if s.previousHeight > 0 then s.previousViewportTop + s.previousHeight else v.height;
    if HeightChanged(s, v) then Max(0, bufferLength - v.height) else s.previousViewportTop
  }

  /** The three reasons to redraw everything before the line lists are compared. */
  predicate MustClear(s: Shadow, cfg: Config, v: View) {
    || WidthChanged(s, v)
    || (HeightChanged(s, v) && !cfg.termux)
    || (cfg.clearOnShrink && |v.lines| < s.maxLinesRendered && !v.overlays)
  }

  /** After the early reasons to redraw: write what changed. */
  function RenderChanges(s: Shadow, v: View): Outcome {
    var top := StartViewportTop(s, v);
    var c := FindChanges(s.previousLines, v.lines);
    if c.first == -1 then
      var (placed, moves) := PositionHardwareCursor(s, v.cursor, |v.lines|);
      Rendered(placed.(previousViewportTop := top, previousHeight := v.height), moves)
    else if c.first >= |v.lines| then RenderDeletion(s, v, top)
    else if c.first < top then FullRender(s, v, true)
    else RenderRange(s, v, top, c)
  }

  function RenderView(s: Shadow, cfg: Config, v: View): Outcome {
    if s.previousLines == [] && !WidthChanged(s, v) && !HeightChanged(s, v) then FullRender(s, v, false)
    else if MustClear(s, cfg, v) then FullRender(s, v, true)
    else RenderChanges(s, v)
  }

  /** From row `row`, clear the rows of the lines that are gone and come back to the last one left. */
  function DeletionOps(prev: nat, next: nat, row: int): seq<Op> {
    var offset := if next == 0 then 0 else 1;
    var extra := prev - next;
    if extra <= 0 then []
    else
      MoveOps(Max(0, next - 1) - row) + [CarriageReturn]
      + (if offset > 0 then [Down(offset)] else [])
      + ClearDown(extra)
      + (if extra - 1 + offset > 0 then [Up(extra - 1 + offset)] else [])
  }

  /** Every change lies below the new content. */
  function RenderDeletion(s: Shadow, v: View, top: int): Outcome {
    var extra := |s.previousLines| - |v.lines|;
    var target := Max(0, |v.lines| - 1);
    if extra > 0 && (target < top || extra > v.height) then FullRender(s, v, true)
    else
      var drawn := if extra <= 0 then s else s.(cursorRow := target, hardwareCursorRow := target);
      Place(drawn.(previousViewportTop := top), v, DeletionOps(|s.previousLines|, |v.lines|, s.hardwareCursorRow))
  }

  datatype Approach = Approach(ops: seq<Op>, top: int, row: int)

  /** Scroll, when the first row to write lies below the screen. */
  function ScrollTo(s: Shadow, v: View, top: int, target: int): Approach {
    var bottom := top + v.height - 1;
    if target > bottom then
      var current := Max(0, Min(v.height - 1, s.hardwareCursorRow - top));
      var down := v.height - 1 - current;
      Approach((if down > 0 then [Down(down)] else []) + Repeat(NewLine, target - bottom), top + (target - bottom), target)
    else Approach([], top, s.hardwareCursorRow)
  }

  /** Whether `c` starts exactly where the old lines end, so that writing starts with a line break. */
  predicate Appends(prev: seq<Line>, next: seq<Line>, c: Changes) {
    |next| > |prev| && c.first == |prev| && c.first > 0
  }

  /** Clear what `prev` rows had below `next` ones, and come back up to the last of those. */
  function TailOps(prev: nat, next: nat, renderEnd: int): seq<Op> {
    if prev <= next then []
    else
      (if renderEnd < next - 1 then [Down(next - 1 - renderEnd)] else [])
      + ClearBelow(prev - next) + [Up(prev - next)]
  }

  /** After `start` has left the cursor on `row`: rewrite the changed range, and clear the rows no longer used. */
  function RangeOps(start: seq<Op>, prev: seq<Line>, next: seq<Line>, c: Changes, row: int): seq<Op>
    requires 0 <= c.first < |next|
  {
    var append := Appends(prev, next, c);
    var renderEnd := Min(c.last, |next| - 1);
    start + MoveOps((if append then c.first - 1 else c.first) - row)
    + [if append then NewLine else CarriageReturn]
    + Rewrite(next, c.first, Max(0, renderEnd + 1))
    + TailOps(|prev|, |next|, renderEnd)
  }

  function RenderRange(s: Shadow, v: View, top: int, c: Changes): Outcome
    requires 0 <= c.first < |v.lines|
  {
    var a := ScrollTo(s, v, top, if Appends(s.previousLines, v.lines, c) then c.first - 1 else c.first);
    var wide := FirstTooWide(v.lines, c.first, Max(0, Min(c.last, |v.lines| - 1) + 1), v.width);
    if wide.Some? then TooWide(wide.value) else PlaceRange(s, v, a, c)
  }

  /** The last row a range render is on: the last row written, or the last new row if old ones were cleared. */
  function FinalRow(prev: seq<Line>, next: seq<Line>, c: Changes): int {
    var renderEnd := Min(c.last, |next| - 1);
    if |prev| > |next| then Max(renderEnd, |next| - 1) else renderEnd
  }

  function PlaceRange(s: Shadow, v: View, a: Approach, c: Changes): Outcome
    requires 0 <= c.first < |v.lines|
  {
    var finalRow := FinalRow(s.previousLines, v.lines, c);
    var drawn := s.(
      cursorRow := Max(0, |v.lines| - 1),
      hardwareCursorRow := finalRow,
      maxLinesRendered := Max(s.maxLinesRendered, |v.lines|),
      previousViewportTop := Max(a.top, finalRow - v.height + 1));
    Place(drawn, v, RangeOps(a.ops, s.previousLines, v.lines, c, a.row))
  }

  /** One call of `doRender`. */
  function Render(s: Shadow, cfg: Config, f: Frame): Outcome {
    RenderView(s, cfg, Prepare(f))
  }

  /** What leaving the terminal writes: move to below the content, and break the line. */
  function LeaveOps(s: Shadow): seq<Op> {
    if s.previousLines == [] then [] else MoveOps(|s.previousLines| - s.hardwareCursorRow) + [NewLine]
  }

  /** What `requestRender(force)` leaves behind before the next render. */
  function Forced(s: Shadow): Shadow {
    Shadow([], -1, -1, 0, 0, 0, 0)
  }
}

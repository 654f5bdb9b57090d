/**
 * The renderer as an object: its fields, the terminal it writes to, and the loops that build each
 * buffer. Every method is proved against the functions of `Renderer`.
 */
module Tui {
  import opened Wrappers
  import opened Terminal
  import opened Renderer
  import opened RendererProofs

  class TUI {
    var screen: Screen
    var previousLines: seq<Line>
    var previousWidth: int
    var previousHeight: int
    var hardwareCursorRow: int
    var cursorRow: int
    var maxLinesRendered: int
    var previousViewportTop: int
    var stopped: bool
    var config: Config

    ghost function State(): Shadow
      reads this
    {
      Shadow(previousLines, previousWidth, previousHeight, hardwareCursorRow, cursorRow, maxLinesRendered,
             previousViewportTop)
    }

    constructor (width: nat, height: nat, config: Config)
      requires height > 0
      ensures screen == BlankScreen(width, height) && screen.Valid()
      ensures State() == INITIAL && !stopped && this.config == config
      ensures Tracks(State(), screen)
    {
      screen := BlankScreen(width, height);
      previousLines := [];
      previousWidth, previousHeight := 0, 0;
      hardwareCursorRow, cursorRow, maxLinesRendered, previousViewportTop := 0, 0, 0, 0;
      stopped := false;
      this.config := config;
    }

    method Write(buffer: seq<Op>)
      requires screen.Valid()
      modifies this`screen
      ensures screen == Run(old(screen), buffer)
    {
      screen := Run(screen, buffer);
    }

    /** `requestRender(true)`: forget everything, so that the next render clears and starts over. */
    method RequestForcedRender()
      modifies this
      ensures State() == Forced(old(State())) && screen == old(screen) && stopped == old(stopped)
      ensures config == old(config)
      ensures forall v :: MustClear(State(), config, v)
    {
      previousLines := [];
      previousWidth, previousHeight := -1, -1;
      cursorRow, hardwareCursorRow, maxLinesRendered, previousViewportTop := 0, 0, 0, 0;
    }

    method ExtractCursorPosition(raw: seq<RawLine>, height: nat) returns (pos: Option<Cursor>, lines: seq<Line>)
      ensures pos == CursorPos(Frame(0, height, raw, false))
      ensures |lines| == |raw|
      ensures forall i :: 0 <= i < |raw| ==>
        lines[i] == if pos.Some? && pos.value.row == i && raw[i].Marked? then raw[i].stripped else raw[i].raw
    {
      lines := seq(|raw|, i requires 0 <= i < |raw| => raw[i].raw);
      pos := None;
      var viewportTop := Max(0, |raw| - height);
      var row := |raw| - 1;
      while row >= viewportTop
        invariant -1 <= row < |raw|
        invariant FindMarker(raw, |raw| - 1, viewportTop) == FindMarker(raw, row, viewportTop)
        decreases row
      {
        if raw[row].Marked? {
          lines := lines[row := raw[row].stripped];
          pos := Some(Cursor(row, raw[row].col));
          return;
        }
        row := row - 1;
      }
    }

    method ApplyLineResets(lines: seq<Line>) returns (result: seq<Line>)
      ensures |result| == |lines|
      ensures forall i :: 0 <= i < |lines| ==> result[i] == WithReset(lines[i])
    {
      result := lines;
      for i := 0 to |lines|
        invariant |result| == |lines|
        invariant forall k :: 0 <= k < i ==> result[k] == WithReset(lines[k])
        invariant forall k :: i <= k < |lines| ==> result[k] == lines[k]
      {
        result := result[i := WithReset(result[i])];
      }
    }

    method PositionCursor(cursor: Option<Cursor>, total: nat)
      requires screen.Valid()
      modifies this`screen, this`hardwareCursorRow
      ensures screen.Valid()
      ensures var (s, ops) := PositionHardwareCursor(old(State()), cursor, total);
        State() == s && screen == Run(old(screen), ops)
    {
      if cursor.None? || total <= 0 { return; }
      var targetRow := Max(0, Min(cursor.value.row, total - 1));
      var targetCol := Max(0, cursor.value.col);
      var rowDelta := targetRow - hardwareCursorRow;
      var buffer: seq<Op> := [];
      if rowDelta > 0 { buffer := [Down(rowDelta)]; } else if rowDelta < 0 { buffer := [Up(-rowDelta)]; }
      buffer := buffer + [ToColumn(targetCol + 1)];
      Write(buffer);
      hardwareCursorRow := targetRow;
    }

    /** The end of a render that wrote `buffer`. */
    method Finish(buffer: seq<Op>, v: View)
      requires screen.Valid()
      modifies this
      ensures screen.Valid() && stopped == old(stopped) && config == old(config)
      ensures var o := Place(old(State()), v, buffer); State() == o.shadow && screen == Run(old(screen), o.ops)
    {
      RunConcat(screen, buffer, PositionHardwareCursor(State(), v.cursor, |v.lines|).1);
      Write(buffer);
      PositionCursor(v.cursor, |v.lines|);
      previousLines := v.lines;
      previousWidth := v.width;
      previousHeight := v.height;
    }

    method RedrawAll(v: View, clear: bool)
      requires screen.Valid()
      modifies this
      ensures screen.Valid() && stopped == old(stopped) && config == old(config)
      ensures var o := FullRender(old(State()), v, clear); State() == o.shadow && screen == Run(old(screen), o.ops)
    {
      var start: seq<Op> := if clear then [EraseScreen, Home, EraseScrollback] else [];
      var buffer := start;
      for i := 0 to |v.lines|
        invariant buffer == start + PrintAll(v.lines, i)
      {
        ghost var before := buffer;
        if i > 0 { buffer := buffer + [NewLine]; }
        buffer := buffer + [Print(v.lines[i])];
        assert buffer == before + (if i > 0 then [NewLine] else []) + [Print(v.lines[i])];
      }
      cursorRow := Max(0, |v.lines| - 1);
      hardwareCursorRow := cursorRow;
      maxLinesRendered := if clear then |v.lines| else Max(maxLinesRendered, |v.lines|);
      var bufferLength := Max(v.height, |v.lines|);
      previousViewportTop := Max(0, bufferLength - v.height);
      Finish(buffer, v);
    }

    method CompareLines(next: seq<Line>) returns (c: Changes)
      ensures c == FindChanges(previousLines, next)
    {
      var firstChanged, lastChanged := -1, -1;
      var maxLines := Max(|next|, |previousLines|);
      for i := 0 to maxLines
        invariant Changes(firstChanged, lastChanged) == ScanChanges(previousLines, next, i)
      {
        var oldLine := if i < |previousLines| then previousLines[i] else EMPTY;
        var newLine := if i < |next| then next[i] else EMPTY;
        if oldLine != newLine {
          if firstChanged == -1 { firstChanged := i; }
          lastChanged := i;
        }
      }
      if |next| > |previousLines| {
        if firstChanged == -1 { firstChanged := |previousLines|; }
        lastChanged := |next| - 1;
      }
      c := Changes(firstChanged, lastChanged);
    }

    method ClearRows(start: seq<Op>, n: nat) returns (buffer: seq<Op>)
      ensures buffer == start + ClearDown(n)
    {
      buffer := start;
      for i := 0 to n
        invariant i == 0 ==> buffer == start
        invariant i > 0 ==> buffer == start + (ClearDown(i) + if i < n then [Down(1)] else [])
      {
        buffer := buffer + [CarriageReturn, ClearLine];
        assert buffer == start + ClearDown(i + 1);
        if i < n - 1 { buffer := buffer + [Down(1)]; }
      }
    }

    method Delete(v: View, top: int)
      requires screen.Valid()
      modifies this
      ensures screen.Valid() && stopped == old(stopped) && config == old(config)
      ensures var o := RenderDeletion(old(State()), v, top); State() == o.shadow && screen == Run(old(screen), o.ops)
    {
      var buffer: seq<Op> := [];
      if |previousLines| > |v.lines| {
        var targetRow := Max(0, |v.lines| - 1);
        if targetRow < top { RedrawAll(v, true); return; }
        buffer := MoveOps(targetRow - hardwareCursorRow) + [CarriageReturn];
        var extraLines := |previousLines| - |v.lines|;
        if extraLines > v.height { RedrawAll(v, true); return; }
        var clearStartOffset := if |v.lines| == 0 then 0 else 1;
        buffer := buffer + if clearStartOffset > 0 then [Down(clearStartOffset)] else [];
        buffer := ClearRows(buffer, extraLines);
        var moveBack := Max(0, extraLines - 1 + clearStartOffset);
        buffer := buffer + if moveBack > 0 then [Up(moveBack)] else [];
        assert buffer == DeletionOps(|previousLines|, |v.lines|, hardwareCursorRow);
        cursorRow := targetRow;
        hardwareCursorRow := targetRow;
      }
      previousViewportTop := top;
      Finish(buffer, v);
    }
  
    /** Clear, print and separate the rows `first .. end`; refuse the first line that is too wide. */
    method RewriteRows(start: seq<Op>, lines: seq<Line>, first: nat, end: nat, width: nat)
      returns (buffer: seq<Op>, wide: Option<nat>)
      requires end <= |lines|
      ensures wide == FirstTooWide(lines, first, end, width)
      ensures wide.None? ==> buffer == start + Rewrite(lines, first, end)
    {
      buffer, wide := start, None;
      var i := first;
      while i < end
        invariant first <= i && (i <= end || i == first)
        invariant forall k :: first <= k < i ==> lines[k].width <= width
        invariant i == first ==> buffer == start
        invariant first < i <= end ==> buffer == start + Rewrite(lines, first, i)
      {
        ghost var before := Rewrite(lines, first, i);
        if i > first { buffer := buffer + [NewLine]; }
        buffer := buffer + [ClearLine];
        if lines[i].width > width { wide := Some(i); return; }
        buffer := buffer + [Print(lines[i])];
        assert Rewrite(lines, first, i + 1) == before + (if i > first then [NewLine] else []) + [ClearLine, Print(lines[i])];
        i := i + 1;
      }
    }

    method ClearRowsBelow(start: seq<Op>, n: nat) returns (buffer: seq<Op>)
      ensures buffer == start + ClearBelow(n)
    {
      buffer := start;
      for i := 0 to n
        invariant buffer == start + ClearBelow(i)
      {
        buffer := buffer + [NewLine, ClearLine];
      }
    }

    method ScrollDown(v: View, top: int, target: int) returns (a: Approach)
      ensures a == ScrollTo(State(), v, top, target)
    {
      a := Approach([], top, hardwareCursorRow);
      var prevViewportBottom := top + v.height - 1;
      if target > prevViewportBottom {
        var currentScreenRow := Max(0, Min(v.height - 1, hardwareCursorRow - top));
        var moveToBottom := v.height - 1 - currentScreenRow;
        var scroll := target - prevViewportBottom;
        a := Approach((if moveToBottom > 0 then [Down(moveToBottom)] else []) + Repeat(NewLine, scroll), top + scroll, target);
      }
    }

    /** Clear the old rows below the new content, if there were more. */
    method ClearTail(start: seq<Op>, next: nat, renderEnd: int) returns (buffer: seq<Op>, finalCursorRow: int)
      ensures buffer == start + TailOps(|previousLines|, next, renderEnd)
      ensures finalCursorRow == if |previousLines| > next then Max(renderEnd, next - 1) else renderEnd
    {
      buffer, finalCursorRow := start, renderEnd;
      if |previousLines| > next {
        if renderEnd < next - 1 {
          buffer := buffer + [Down(next - 1 - renderEnd)];
          finalCursorRow := next - 1;
        }
        var extraLines := |previousLines| - next;
        buffer := ClearRowsBelow(buffer, extraLines);
        buffer := buffer + [Up(extraLines)];
        assert buffer == start + TailOps(|previousLines|, next, renderEnd);
      }
    }

    method BuildRange(v: View, top: int, c: Changes)
      returns (buffer: seq<Op>, finalCursorRow: int, viewportTop: int, wide: Option<nat>)
      requires 0 <= c.first < |v.lines|
      ensures var renderEnd := Min(c.last, |v.lines| - 1);
        var a := ScrollTo(State(), v, top, if Appends(previousLines, v.lines, c) then c.first - 1 else c.first);
        && wide == FirstTooWide(v.lines, c.first, Max(0, renderEnd + 1), v.width)
        && viewportTop == a.top
        && (wide.None? ==>
          && buffer == RangeOps(a.ops, previousLines, v.lines, c, a.row)
          && finalCursorRow == FinalRow(previousLines, v.lines, c))
    {
      var appendStart := |v.lines| > |previousLines| && c.first == |previousLines| && c.first > 0;
      var moveTargetRow := if appendStart then c.first - 1 else c.first;
      var a := ScrollDown(v, top, moveTargetRow);
      viewportTop := a.top;
      buffer := a.ops + MoveOps(moveTargetRow - a.row) + [if appendStart then NewLine else CarriageReturn];
      var renderEnd := Min(c.last, |v.lines| - 1);
      finalCursorRow := renderEnd;
      buffer, wide := RewriteRows(buffer, v.lines, c.first, Max(0, renderEnd + 1), v.width);
      if wide.Some? { return; }
      buffer, finalCursorRow := ClearTail(buffer, |v.lines|, renderEnd);
      assert buffer == RangeOps(a.ops, previousLines, v.lines, c, a.row);
    }

    /** The last part of `doRender`: everything from the first changed row on. */
    method RewriteRange(v: View, top: int, c: Changes) returns (wide: Option<nat>)
      requires screen.Valid() && 0 <= c.first < |v.lines|
      modifies this
      ensures screen.Valid() && config == old(config) && stopped == old(stopped)
      ensures match RenderRange(old(State()), v, top, c)
        case Rendered(s, ops) => wide.None? && State() == s && screen == Run(old(screen), ops)
        case TooWide(i) => wide == Some(i) && State() == old(State()) && screen == old(screen)
    {
      hide Run, RangeOps, FinalRow, ScrollTo, FirstTooWide, PositionHardwareCursor;
      var buffer, finalCursorRow, viewportTop;
      buffer, finalCursorRow, viewportTop, wide := BuildRange(v, top, c);
      if wide.Some? { return; }
      cursorRow := Max(0, |v.lines| - 1);
      hardwareCursorRow := finalCursorRow;
      maxLinesRendered := Max(maxLinesRendered, |v.lines|);
      previousViewportTop := Max(viewportTop, finalCursorRow - v.height + 1);
      Finish(buffer, v);
    }

    /** Leave the terminal: move below the content, which stays. */
    method Stop()
      requires screen.Valid()
      modifies this`stopped, this`screen
      ensures screen.Valid() && stopped
      ensures screen == Run(old(screen), LeaveOps(State()))
      ensures old(Agrees(State(), screen)) && previousLines != [] ==> LeftBelow(screen, old(screen), previousLines)
    {
      hide Run, MoveOps, Agrees, LeftBelow, LeaveOps;
      if previousLines != [] && Agrees(State(), screen) { StopsBelow(State(), screen); }
      LeaveParts(State(), screen);
      stopped := true;
      if |previousLines| > 0 {
        Write(MoveOps(|previousLines| - hardwareCursorRow));
        Write([NewLine]);
      }
    }

    method PrepareView(f: Frame) returns (v: View)
      ensures v == Prepare(f)
    {
      var cursor, stripped := ExtractCursorPosition(f.raw, f.height);
      var lines := ApplyLineResets(stripped);
      v := View(lines, cursor, f.width, f.height, f.overlays);
      assert lines == NewLines(f);
    }

    /** One render of `raw`, the lines the components returned; `wide` is the line that made it throw. */
    method DoRender(raw: seq<RawLine>, overlays: bool) returns (wide: Option<nat>)
      requires screen.Valid()
      modifies this
      ensures screen.Valid() && config == old(config)
      ensures old(stopped) ==> wide.None? && State() == old(State()) && screen == old(screen)
      ensures !old(stopped) ==>
        match Render(old(State()), config, Frame(old(screen).width, old(screen).height, raw, overlays))
        case Rendered(s, ops) => wide.None? && State() == s && screen == Run(old(screen), ops) && !stopped
        case TooWide(i) =>
          wide == Some(i) && State() == old(State()) && stopped && screen == Run(old(screen), LeaveOps(old(State())))
    {
      wide := None;
      if stopped { return; }
      var v := PrepareView(Frame(screen.width, screen.height, raw, overlays));
      wide := RenderPrepared(v);
      if wide.Some? { Stop(); }
    }

    method RenderPrepared(v: View) returns (wide: Option<nat>)
      requires screen.Valid()
      modifies this
      ensures screen.Valid() && config == old(config) && stopped == old(stopped)
      ensures match RenderView(old(State()), config, v)
        case Rendered(s, ops) => wide.None? && State() == s && screen == Run(old(screen), ops)
        case TooWide(i) => wide == Some(i) && State() == old(State()) && screen == old(screen)
    {
      wide := None;
      var widthChanged := previousWidth != 0 && previousWidth != v.width;
      var heightChanged := previousHeight != 0 && previousHeight != v.height;
      if previousLines == [] && !widthChanged && !heightChanged { RedrawAll(v, false); return; }
      if widthChanged { RedrawAll(v, true); return; }
      if heightChanged && !config.termux { RedrawAll(v, true); return; }
      if config.clearOnShrink && |v.lines| < maxLinesRendered && !v.overlays { RedrawAll(v, true); return; }
      var previousBufferLength := if previousHeight > 0 then previousViewportTop + previousHeight else v.height;
      var prevViewportTop := if heightChanged then Max(0, previousBufferLength - v.height) else previousViewportTop;
      wide := WriteChanges(v, prevViewportTop);
    }

    method WriteChanges(v: View, prevViewportTop: int) returns (wide: Option<nat>)
      requires screen.Valid()
      requires prevViewportTop == StartViewportTop(State(), v)
      modifies this
      ensures screen.Valid() && config == old(config) && stopped == old(stopped)
      ensures match RenderChanges(old(State()), v)
        case Rendered(s, ops) => wide.None? && State() == s && screen == Run(old(screen), ops)
        case TooWide(i) => wide == Some(i) && State() == old(State()) && screen == old(screen)
    {
      wide := None;
      var c := CompareLines(v.lines);
      if c.first == -1 {
        PositionCursor(v.cursor, |v.lines|);
        previousViewportTop := prevViewportTop;
        previousHeight := v.height;
        return;
      }
      if c.first >= |v.lines| { Delete(v, prevViewportTop); return; }
      if c.first < prevViewportTop { RedrawAll(v, true); return; }
      wide := RewriteRange(v, prevViewportTop, c);
    }
  }

  /**
   * A terminal session: any frames, with cursor markers and overlays or without, rendered one after the
   * other by one renderer on one terminal. The last frame is what scrollback and screen hold.
   */
  method RenderAll(tui: TUI, frames: seq<Frame>)
    requires tui.screen.Valid() && Tracks(tui.State(), tui.screen) && !tui.stopped
    requires LegalSession(World(tui.State(), tui.screen), tui.config, frames)
    modifies tui
    ensures tui.screen.Valid() && Tracks(tui.State(), tui.screen) && !tui.stopped
    ensures World(tui.State(), tui.screen) == AfterAll(old(World(tui.State(), tui.screen)), old(tui.config), frames)
    ensures frames != [] ==> tui.screen.Displays(NewLines(frames[|frames| - 1]))
    ensures frames != [] ==> AtMarker(CursorPos(frames[|frames| - 1]), tui.screen, true)
    ensures frames != [] ==> tui.hardwareCursorRow == tui.screen.row && tui.previousViewportTop == tui.screen.top
  {
    hide Render, Legal, Tracks, Agrees, NewLines, CursorPos, AtMarker;
    ghost var start := World(tui.State(), tui.screen);
    for k := 0 to |frames|
      invariant tui.screen.Valid() && Tracks(tui.State(), tui.screen) && !tui.stopped
      invariant tui.config == old(tui.config)
      invariant World(tui.State(), tui.screen) == AfterAll(start, tui.config, frames[..k])
      invariant k > 0 ==> Agrees(tui.State(), tui.screen) && tui.screen.Displays(NewLines(frames[k - 1]))
      invariant k > 0 ==> AtMarker(CursorPos(frames[k - 1]), tui.screen, true)
    {
      assert frames[..k + 1][..k] == frames[..k];
      assert Legal(AfterAll(start, tui.config, frames[..k]), tui.config, Draw(frames[k]));
      NextTracks(World(tui.State(), tui.screen), tui.config, Draw(frames[k]));
      LegalFrame(World(tui.State(), tui.screen), tui.config, frames[k]);
      var _ := tui.DoRender(frames[k].raw, frames[k].overlays);
    }
    assert frames[..|frames|] == frames;
    if frames != [] { AgreesOnCursor(tui.State(), tui.screen); }
  }

  /** A legal frame has the terminal's size and is not refused. */
  lemma LegalFrame(w: World, cfg: Config, f: Frame)
    requires Tracks(w.shadow, w.screen) && w.screen.Valid() && Legal(w, cfg, Draw(f))
    ensures f == Frame(w.screen.width, w.screen.height, f.raw, f.overlays)
    ensures Render(w.shadow, cfg, f).Rendered?
  {
    RenderExact(w.shadow, cfg, Prepare(f), w.screen);
  }

  lemma AgreesOnCursor(s: Shadow, t: Screen)
    requires Agrees(s, t)
    ensures s.hardwareCursorRow == t.row && s.previousViewportTop == t.top
  {
  }
}

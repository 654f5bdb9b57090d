# Terminal UI, agent loop and presence, verified

A Dafny model of the stateful core of this repository, with proofs of what that core is for:

- **Differential renderer** (`Terminal`, `Renderer`, `RendererProofs`, `RenderEconomy`, `Tui`). The terminal is a list of rows of which
  the last `height` are on screen, with the cursor's row and column; the renderer keeps a shadow of it and writes relative moves,
  clears and line texts. The theorem is that every sequence of renders shows exactly its frames.
- **Overlay focus** (`OverlayFocus`, `OverlayFocusProofs`, `OverlayResume`, `OverlayEffects`, `FocusManager`). Who has the focus while
  overlays are shown, raised, hidden, released and resumed.
- **Overlay layout and compositing** (`OverlayBox`, `Columns`, `Compositor`, `CompositeLine`, `Overlays`,
  `OverlayPainter`, `OverlayStacking`, `StableSort`) and **image ranges** (`KittyRange`). Lines are compared by the columns they fill.
- **Styled text** (`AnsiTracker`, `AnsiRoundTrip`, `AnsiCodes`, `Wrap`, `WrapProofs`, `WrapBounds`, `WrapBreaks`, `TextLayout`,
  `Truncate`).
  Escape codes are modelled as strings; a line is a sequence of codes and graphemes with given widths.
- **Input tokeniser** (`Strings`, `StdinSpec`, `StdinProofs`, `StdinGrammar`, `StdinChunking`, `StdinEvents`,
  `StdinBuffer`). Escape sequences as in section 5.4 of ECMA-48, bracketed paste, and the independence of how the stream was cut.
- **Agent run loop** (`AgentTypes`, `ToolBatch`, `ToolBatchProofs`, `RunTrace`, `EventTrace`, `RunMeaning`,
  `AgentLoop`). Replies,
  tool outcomes, completion orders and messages that arrive meanwhile are oracles; the run is checked event by event,
  and its decisions, when to ask which queue and when to go on, against an automaton.
- **Harness queues and deferred writes** (`HarnessQueues`, `HarnessRun`,
  `HarnessEvents`, `AgentHarness`) and **presence heartbeats**
  (`Heartbeats`, `HeartbeatProofs`, `RadiusPresence`). Steps between awaits, any of which may fail.
- **Fuzzy matcher** (`Fuzzy`, `FuzzyScores`).

The specification of a component is a set of functions on values; the classes and loops of the source are classes and
loops here, each method proved against those functions; the theorems are lemmas about the functions, so they hold of
the methods. The agent loop and the harness keep histories as well: every method adds to them exactly the
steps it takes, its contract ties them to the fields and to what it was given, and the theorems are about histories. `dafny verify dfyconfig.toml` checks everything.

Where the code does not do what its comments or its purpose suggest, the code is kept and a lemma says so:

- `RendererProofs.MarkerAboveViewport`: a cursor marker above the viewport makes the tracked cursor row wrong;
  `RendererProofs.RenderExact` gives the exact condition.
- `RendererProofs.ResizedAndBack`: a resize that ends at the size last rendered is not noticed;
  `RendererProofs.UnseenResize` says what is then shown.
- `OverlayResume.InputToHidden`: input may go to a hidden overlay; `OverlayResume.SettleExact` says exactly when.
- `StdinChunking.ChunkingIsInvisible` gives the exact condition under which chunk boundaries do not show, and
  `StdinEvents.PartedPairExample` a stream on which one does.
- `CompositeLine.SliceMisordersCodes`: a slice that starts inside a line may come out in the wrong style;
  `CompositeLine.SliceShows` says exactly when it does not.
- `CompositeLine.RightSideStays`: a wide grapheme over the right edge of an overlay shifts what follows it, exactly
  then, as in `CompositeLine.WideGraphemeShifts`.
- `Truncate.CutLeavesLinkOpen`: cutting text inside a hyperlink leaves the hyperlink open, exactly then, as in
  `Truncate.LinkedTextCut`.
- `HarnessQueues.OverlapDuplicates`: two flushes that overlap, as when a listener starts a run while the flush of the
  run before is still under way, write one entry twice and lose the next.
- `AgentHarness.AgentHarness.StartMessages`: messages queued for the next turn are gone when the hook that runs before
  the agent starts fails.
- `HeartbeatProofs.DisconnectUndone`: a registration under way undoes a disconnect.
- `HeartbeatProofs.DroppedExactlyWhen`: a timer that goes off, or a third 404, while Radius is disabled leaves an instance
  in the map without a heartbeat; `HeartbeatProofs.ThirdNotFoundDrops` is such a run.
- The comment at packages/tui/src/tui.ts:1360 speaks of an environment variable set to 0; the field is switched on by
  the value 1 (line 313), which is what `Config.clearOnShrink` stands for.

## Model

| member | source | states |
|---|---|---|
| RendererProofs.EveryRenderShowsItsFrame | packages/tui/src/tui.ts:1254-1620 | over any run of renders, forced redraws and resizes from a blank terminal, every render leaves scrollback and screen holding exactly its frame's lines and blank rows below, the tracked cursor row and viewport top are the real ones, and the hardware cursor stands in the row and column of the frame's marker, if it has one; a resize may leave anything, unless it ends at the size last rendered |
| RendererProofs.UnseenResize | packages/tui/src/tui.ts:1254-1262 | a resize that ends at the size last rendered is not noticed: the same lines rendered again are shown if and only if they were still there |
| RendererProofs.ResizedAndBack | packages/tui/src/tui.ts:1254-1262 | a concrete run: three lines, a resize and back that clears the terminal, and the same frame again, which is not shown |
| RendererProofs.RenderExact | packages/tui/src/tui.ts:1254-1620 | one render from a tracked terminal always shows exactly the new lines, with the hardware cursor in the marker's column; the shadow stays exact if and only if the render starts over or the cursor marker is at or below the viewport top |
| RendererProofs.SizeHandledUnlessTermux | packages/tui/src/tui.ts:1335-1358 | the renders this speaks of are all but those of a Termux session in which the height alone has changed and nothing else asks for clearing; a forced redraw and a changed width are always covered |
| RendererProofs.SameAsRedraw | packages/tui/src/tui.ts:1284-1325 | refinement: what the differential render leaves is what clearing everything and printing all lines would leave, up to blank rows below |
| RendererProofs.MarkerAboveViewport | packages/tui/src/tui.ts:1627-1658 | a concrete run from a blank terminal that needs the marker condition: three lines on a screen of two rows shrink to two with the marker on the first; the lines are shown, but the tracked row is not the real one |
| RendererProofs.RefusedExactly | packages/tui/src/tui.ts:1519-1549 | the exception for a line wider than the terminal names line i if and only if i is the first too wide line among the rows rewritten in place |
| RendererProofs.NeverScrolls | packages/tui/src/tui.ts:1465-1478 | under the invariant the row to move to is always on screen, so the scrolling branch is never taken |
| RenderEconomy.ScrollReaches | packages/tui/src/tui.ts:1465-1478 | if a row below the screen had to be reached, the terminal would be scrolled by blank rows until it is the last one; any other needs nothing |
| RendererProofs.RangeExact | packages/tui/src/tui.ts:1453-1620 | rewriting the changed range in place, clearing what is left of longer old content, is exact iff the cursor is in view |
| RendererProofs.DeletionExact | packages/tui/src/tui.ts:1404-1450 | when all changes are deleted lines, exactly their rows are cleared, or everything is redrawn |
| RendererProofs.UnchangedExact | packages/tui/src/tui.ts:1396-1402 | with nothing changed only the cursor moves, and the screen stays right |
| RendererProofs.FullRenderExact | packages/tui/src/tui.ts:1284-1325 | a full redraw that clears is right from any terminal contents, one that does not from a blank terminal |
| RendererProofs.PositionExact | packages/tui/src/tui.ts:1627-1658 | placing the hardware cursor changes no row; it leaves the cursor in the marker's column, or the last one when that lies beyond, and in its row and tracked exactly iff that is not above the viewport |
| RendererProofs.ChangesFacts | packages/tui/src/tui.ts:1367-1388 | the comparison finds the first and last differing lines: outside them old and new agree, and appended lines always count as changed |
| RenderEconomy.ClearsExactly | packages/tui/src/tui.ts:1335-1450 | a render clears the terminal if and only if it is not the first and the width has changed, or the height outside Termux, or lines have become fewer while shrinking is to clear and no overlay is shown, or the change begins above the viewport or more lines go than fit; then, and at first, it prints every line, otherwise exactly those from the first to the last changed one |
| RenderEconomy.RemembersMeans | packages/tui/src/tui.ts:1284-1620 | a render remembers its lines, its size, the end of its content, and the greatest number of lines since the terminal was last cleared |
| RenderEconomy.StaysRemembering | packages/tui/src/tui.ts:300-320 | what that assumes of the shadow holds from the start, after a forced redraw and after every render |
| RenderEconomy.BottomStays | packages/tui/src/tui.ts:1268-1276 | when the height has changed without a redraw the viewport keeps its bottom if there are rows enough above it |
| Renderer.CursorPos | packages/tui/src/tui.ts:1234-1252 | the cursor is at the lowest marker of the bottom `height` lines, in that marker's column, and nowhere only if those lines have none |
| Renderer.NewLines | packages/tui/src/tui.ts:1095-1103 | every line is the component's line with the segment reset behind it, without its marker exactly where the cursor was found; no line written is empty |
| Tui.TUI.DoRender | packages/tui/src/tui.ts:1254-1620 | the method does to its fields and to the terminal what the specified render does; on a too wide line it stops, leaves the shadow alone and the terminal as stopping does; when stopped it does nothing |
| Tui.TUI.RenderPrepared | packages/tui/src/tui.ts:1335-1459 | the choice between first render, full redraw, clearing on shrink and differential output |
| Tui.TUI.RewriteRange | packages/tui/src/tui.ts:1453-1620 | the loops that build the buffer of a changed range write exactly the specified operations |
| Tui.TUI.Delete | packages/tui/src/tui.ts:1404-1450 | the loop that clears deleted rows writes exactly the specified operations |
| Tui.TUI.RedrawAll | packages/tui/src/tui.ts:1284-1325 | the loop of a full redraw writes exactly the specified operations and resets the tracked fields |
| Tui.TUI.CompareLines | packages/tui/src/tui.ts:1367-1388 | the comparison loop computes the specified first and last change |
| Tui.TUI.ExtractCursorPosition | packages/tui/src/tui.ts:1234-1252 | the backward scan finds the marker nearest the bottom of the viewport and strips it from its line |
| Tui.TUI.PositionCursor | packages/tui/src/tui.ts:1627-1658 | the cursor move written and the row remembered are the specified ones; `PositionExact` says where the cursor then stands |
| Tui.TUI.RequestForcedRender | packages/tui/src/tui.ts:712-724 | a forced request forgets all lines, and whatever is rendered next has to clear |
| RendererProofs.ForcedRenderStartsOver | packages/tui/src/tui.ts:712-724 | after a forced request the next frame is shown exactly, with an exact shadow, whatever the terminal held |
| Tui.TUI.Stop | packages/tui/src/tui.ts:687-710 | stopping writes one move and one line break, or nothing when nothing is rendered; from an exact shadow the screen is then as `StopsBelow` says |
| RendererProofs.StopsBelow | packages/tui/src/tui.ts:687-710 | stopping keeps the content and leaves the cursor at the start of a blank line: one below the first line under the content, or the first one, scrolled in, when the content reaches the bottom |
| Tui.RenderAll | packages/tui/src/tui.ts:1254-1620 | any sequence of frames, with cursor markers and overlays or without, rendered by one renderer on one terminal leaves exactly the last frame's lines and blank rows on it, with cursor row and viewport top tracked exactly and the hardware cursor at the last frame's marker |
| OverlayFocusProofs.FocusDiscipline | packages/tui/src/tui.ts:370-602 | over any run of showing, raising and hiding capturing overlays: the focus is on the stacked overlay with the greatest focus order, and back on the original component when none is left |
| OverlayFocusProofs.DoKeeps | packages/tui/src/tui.ts:370-602 | each such operation keeps the discipline: distinct entries, links to earlier entries or the base, restore state naming the focused overlay, the flag on the focused component alone |
| OverlayFocusProofs.ShowKeeps | packages/tui/src/tui.ts:493-508 | a shown overlay gets the focus, and gives it back to an earlier entry or the base |
| OverlayFocusProofs.FocusKeeps | packages/tui/src/tui.ts:547-552 | `handle.focus()` raises the overlay above all others and focuses it |
| OverlayFocusProofs.RemoveKeeps | packages/tui/src/tui.ts:510-525 | removing any overlay redirects the links to it and moves the focus only if it had it, to the topmost one left or the base |
| OverlayFocusProofs.AlwaysConsistent | packages/tui/src/tui.ts:370-602 | no sequence of any focus operations, hidden and non-capturing overlays, `setFocus`, `unfocus` and input included, makes the restore state name a removed overlay or sets two `focused` flags |
| OverlayFocusProofs.SetFocusConsistent | packages/tui/src/tui.ts:370-429 | setting the focus keeps that, whatever is asked for and whatever is blocked |
| OverlayFocusProofs.WithoutLinks | packages/tui/src/tui.ts:471-477 | retargeting keeps every link pointing to an earlier entry or the base when an entry is taken out of the middle |
| OverlayEffects.HideMeans | packages/tui/src/tui.ts:512-525 | `handle.hide()` leaves the stack without the entry of that id, the others in order and unchanged but for links that led to it; nothing remembers it, and the focus moves only if it had it, to the topmost overlay left or to whom it was taken from; without such an entry nothing changes |
| OverlayEffects.HideLastMeans | packages/tui/src/tui.ts:588-602 | `hideOverlay()` does the same to the entry shown last |
| OverlayEffects.ShowMeans | packages/tui/src/tui.ts:481-508 | a shown overlay is added as the last entry, above all others, remembering the focus, and takes it exactly if it captures |
| OverlayEffects.RaiseMeans | packages/tui/src/tui.ts:547-552 | `handle.focus()` changes its own entry's focus order alone, to the greatest so far, and focuses its component; a hidden overlay stays as it is |
| OverlayEffects.ToggleMeans | packages/tui/src/tui.ts:526-545 | asked for what an overlay is anyway, `setHidden()` does nothing; a capturing overlay shown again is raised and focused, any other is only shown |
| OverlayEffects.ReleaseMeans | packages/tui/src/tui.ts:553-583 | a focused overlay released hands the focus to the target named, or else to another overlay on top, or else to whom it was taken from; the stack stays |
| OverlayEffects.WaitingReleased | packages/tui/src/tui.ts:553-583 | an overlay that only waits for the focus is no longer waited for; the focus stays, or goes to the target named |
| OverlayEffects.FocusGivenUp | packages/tui/src/tui.ts:414-420 | focus set to nothing is forgotten unless it blocked an overlay: no input brings anything back |
| OverlayEffects.NothingToRelease | packages/tui/src/tui.ts:553-558 | an overlay that neither has the focus nor waits for it is not released |
| OverlayEffects.GoneDoesNothing | packages/tui/src/tui.ts:547-552 | the handle of an overlay that is gone raises nothing |
| OverlayEffects.AncestorExactly | packages/tui/src/tui.ts:460-469 | the walk that stops at what it has seen finds exactly the components that links lead to in some number of steps |
| OverlayEffects.UnderneathDoesNotKeep | packages/tui/src/tui.ts:401-413 | a component the overlay stands on may be focused, but the next input returns the focus to the overlay |
| OverlayEffects.RememberedComesBack | packages/tui/src/tui.ts:797-823 | a hidden overlay with nothing to hand the focus to gives way, at the next input, to the visible overlay that was remembered |
| OverlayEffects.FirstTopmost | packages/tui/src/tui.ts:619-628 | of several visible capturing overlays with the greatest focus order the first is topmost |
| FocusManager.TUI.SetFocusInternally | packages/tui/src/tui.ts:370-429 | the method decides, updates the restore state and moves the flag as specified |
| FocusManager.TUI.IsOverlayFocusAncestor | packages/tui/src/tui.ts:460-469 | the walk along the links terminates even if they form a cycle, and finds exactly the components on the way |
| FocusManager.TUI.GetTopmostVisibleOverlay | packages/tui/src/tui.ts:619-628 | the loop finds the visible capturing overlay with the greatest focus order, the first of equal ones |
| OverlayFocus.Topmost | packages/tui/src/tui.ts:619-628 | the overlay found is visible, captures, and has the greatest focus order; none is found only if there is none |
| FocusManager.TUI.RetargetOverlayPreFocus | packages/tui/src/tui.ts:471-477 | the loop redirects exactly the links to the removed entry |
| FocusManager.TUI.Show | packages/tui/src/tui.ts:493-508 | the new entry remembers who had the focus and comes last in the stack with the greatest focus order; it takes the focus if it captures |
| FocusManager.TUI.Remove | packages/tui/src/tui.ts:510-525 | the entry goes, links to it are redirected, a restore state that names it is cleared, and the focus moves only if the entry had it |
| FocusManager.TUI.HideLast | packages/tui/src/tui.ts:588-602 | `hideOverlay()` does to the fields what `HideLastMeans` describes, and nothing when there is no overlay |
| FocusManager.TUI.HideEntry | packages/tui/src/tui.ts:512-525 | `handle.hide()` does to the fields what `HideMeans` describes |
| FocusManager.TUI.Focus | packages/tui/src/tui.ts:547-552 | the entry gets the greatest focus order and the focus; a removed or hidden overlay stays as it is |
| FocusManager.TUI.Toggle | packages/tui/src/tui.ts:526-545 | `setHidden()` does to the fields what the specified operation does, whose meaning `HidingMeans`, `HidingLands` and `ShownAgain` give |
| FocusManager.TUI.Release | packages/tui/src/tui.ts:553-583 | `unfocus()` does to the fields what the specified operation does, whose meaning `ReleasingMeans`, `ReleasedFocusStays` and `ReleasedWhileBlocked` give |
| FocusManager.TUI.Settle | packages/tui/src/tui.ts:797-823 | an input moves the focus as specified before it is passed on, and leaves it on a hidden overlay exactly in the states `StaysHidden` describes |
| OverlayResume.SettleExact | packages/tui/src/tui.ts:797-823 | an input goes to a hidden overlay if and only if the focused overlay is hidden, no visible one captures and its own link leads to a hidden one; or if what it gives way to is the hidden target of a release |
| OverlayResume.StaysHiddenMeans | packages/tui/src/tui.ts:797-823 | unless an overlay is to give way to a hidden target of a release, an input goes to a hidden overlay exactly when the focused one is hidden, no visible one captures, and its link leads to a hidden one |
| OverlayResume.InputToHidden | packages/tui/src/tui.ts:526-545 | a concrete run: three overlays hidden from the bottom up; two inputs are needed to bring the focus back to the base component, the first goes to a hidden overlay |
| OverlayResume.SetFocusLands | packages/tui/src/tui.ts:370-432 | whatever is asked for, setting the focus lands on a hidden overlay exactly when that was asked for, or when a blocker gives way to the hidden target of a release |
| OverlayResume.HidingLands | packages/tui/src/tui.ts:526-538 | hiding the focused overlay hands the focus to a hidden one exactly when nothing visible captures and its link leads there |
| OverlayResume.HidingMeans | packages/tui/src/tui.ts:526-538 | a hidden overlay is never the one to restore; the topmost visible capturing one takes the focus it had, and a focus elsewhere stays |
| OverlayResume.ShownAgain | packages/tui/src/tui.ts:526-545 | hiding and showing again puts a capturing overlay on top of all others with the focus, and changes no other entry |
| OverlayResume.ReleasingMeans | packages/tui/src/tui.ts:553-583 | a released overlay is the one to restore only if the focus came straight back to it |
| OverlayResume.BorrowedFocusReturns | packages/tui/src/tui.ts:385-420 | focus taken from an overlay with `setFocus` is borrowed: input stays with the borrower, and the overlay has the focus again once the borrower gives it up or is gone when another asks |
| OverlayResume.ReleasedFocusStays | packages/tui/src/tui.ts:553-583 | focus given up with `unfocus` is not borrowed: it stays through any input and is gone when given up |
| OverlayResume.ReleasedWhileBlocked | packages/tui/src/tui.ts:558-576 | released while blocked, the overlay never comes back: the blocker gives way to the target named |
| OverlayBox.BoxFits | packages/tui/src/tui.ts:897-995 | the box keeps to the margins whenever they leave a column; it fits the terminal width if and only if the left margin does; it fits from top to bottom if and only if what is shown of it is not too high |
| OverlayBox.BoxWhereAsked | packages/tui/src/tui.ts:938-995 | inside the margins the box is exactly where anchor, position and offsets put it |
| OverlayBox.PercentSpansTheRoom | packages/tui/src/tui.ts:964-992 | a column in per cent, before any offset: 0 is the near margin, 100 the far one, everything between stays inside, and more than 100 is moved back |
| OverlayBox.PercentSpansTheRows | packages/tui/src/tui.ts:938-992 | the same for a row in per cent, when what is shown of the overlay is not too high |
| OverlayBox.AnchoredRows | packages/tui/src/tui.ts:958-1012 | a box anchored at the top begins at the top margin, at the bottom it ends at the bottom margin, and in the centre, which is also what a row that cannot be read gives, the rows left above and below differ by at most one |
| OverlayBox.AnchoredColumns | packages/tui/src/tui.ts:980-1029 | the same from left to right |
| OverlayBox.OffsetMovesDown | packages/tui/src/tui.ts:986-992 | an offset moves an anchored box by as much as it says unless that leads out of the margins |
| OverlayBox.OffsetMovesRight | packages/tui/src/tui.ts:986-992 | the same from left to right, the width unchanged |
| OverlayBox.NumberPlaces | packages/tui/src/tui.ts:942-981 | a number is the row or column itself when the margins allow it |
| OverlayBox.WidthAsked | packages/tui/src/tui.ts:919-926 | the width asked for, a number or the whole part of a percentage, is given if there is room, and no less than the least width asked for; with none asked for it is 80 or all there is |
| OverlayBox.HeightAsked | packages/tui/src/tui.ts:928-936 | the height shown is the overlay's, cut to the greatest height asked for and to the room there is |
| OverlayBox.MarginsMean | packages/tui/src/tui.ts:905-913 | each side has its own margin, and a negative one counts as none |
| OverlayBox.NoMargins | packages/tui/src/tui.ts:905-913 | without margins there are none on any side |
| CompositeLine.ComposedShows | packages/tui/src/tui.ts:1176-1212 | a composed line is exactly as wide as the terminal, and every column shows what an independent column-by-column description says: base, overlay or blank, in the style they have in their lines |
| CompositeLine.ComposedWidth | packages/tui/src/tui.ts:1176-1223 | the final width check finds too much if and only if the box reaches over the end of the line |
| CompositeLine.RightSideStays | packages/tui/src/tui.ts:1176-1212 | right of the box every grapheme stays in its columns if and only if none reaches over the box's right edge |
| CompositeLine.WideGraphemeShifts | packages/tui/src/tui.ts:1176-1212 | a concrete line: a box over the first half of a wide grapheme moves the letter after it one column to the left |
| CompositeLine.CompositeLineAt | packages/tui/src/tui.ts:1176-1224 | the method, its guard included, yields the composed line; never wider than the terminal |
| CompositeLine.SliceShows | packages/tui/src/utils.ts:1062-1105 | a slice shows its columns as the line does if and only if the codes before it and those at its start come to the same in either order |
| CompositeLine.SliceMisordersCodes | packages/tui/src/utils.ts:1062-1105 | a concrete slice that is bold although bold has been taken back before it begins |
| CompositeLine.AfterShows | packages/tui/src/utils.ts:1117-1188 | the part after a box is the line from its first whole grapheme there, reopened in the style it has in the line |
| CompositeLine.BeforePaints | packages/tui/src/utils.ts:1117-1188 | the part before a box is a prefix of the line that ends by the box |
| CompositeLine.SlicedPaints | packages/tui/src/utils.ts:1062-1105 | a strict slice from column 0 is a prefix of the line that fits |
| CompositeLine.ResetClears | packages/tui/src/tui.ts:1093 | the reset between segments leaves no attribute, colour or hyperlink on, whatever was on |
| Compositor.SliceWithWidth | packages/tui/src/utils.ts:1062-1105 | the loop computes the specified slice and its exact width |
| Compositor.ExtractSegments | packages/tui/src/utils.ts:1117-1188 | the single pass computes both parts and their exact widths |
| Columns.FitCells | packages/tui/src/utils.ts:1062-1188 | what fits before a column are exactly the columns whose grapheme ends by it |
| Columns.GlyphAtWhole | packages/tui/src/utils.ts:1117-1188 | the first grapheme that stands at or after a column begins at the first column there that no grapheme reaches into |
| OverlayPainter.TopmostShows | packages/tui/src/tui.ts:1076-1088 | one row under any list of boxes: when no edge cuts a wide grapheme, every column shows the last box covering it, and the content where none does; a touched row is exactly as wide as the terminal |
| OverlayPainter.CompositedShows | packages/tui/src/tui.ts:1032-1091 | the rows `compositeOverlays` returns: in every column the overlay with the greatest focus order of those that cover it, and the content where none does, as long as no left margin takes the whole width and no edge cuts a wide grapheme |
| Overlays.CompositeOverlays | packages/tui/src/tui.ts:1032-1091 | rendering, placing, padding and drawing all visible overlays in focus order gives the specified rows |
| Overlays.DrawOne | packages/tui/src/tui.ts:1076-1088 | one overlay changes exactly the rows it covers |
| Overlays.StackedInOrder | packages/tui/src/tui.ts:1040-1042 | overlays are drawn once each, in ascending focus order, equal ones in the order they were shown |
| OverlayStacking.VisibleWithout | packages/tui/src/tui.ts:1040-1040 | of a stack the visible overlays are drawn and no others: a hidden one leaves what is drawn below and above it as it is |
| OverlayStacking.PlacedMeans | packages/tui/src/tui.ts:1042-1062 | an overlay is rendered at the width of its box; of its lines the first are shown, as many as its height allows, and where they go is decided by that number |
| OverlayStacking.RowsNeeded | packages/tui/src/tui.ts:1064-1072 | there are as many rows as the content, the terminal and every overlay need, and no more |
| Overlays.PlainComposed | packages/tui/src/tui.ts:1176-1212 | composing lines of whole escape codes and no images gives such a line |
| StableSort.SortFacts | packages/tui/src/tui.ts:1040-1042 | the sort gives a permutation, ascending, equal keys in their old order |
| KittyRange.RangeIsClosed | packages/tui/src/tui.ts:1138-1159 | when old and new lines agree below the first change, no identified image of either is cut by an end of the widened range, and every one that reaches the change lies inside |
| KittyRange.RangeIsLeast | packages/tui/src/tui.ts:1138-1159 | it is the smallest such range |
| KittyRange.IncludedWhenReaching | packages/tui/src/tui.ts:1145-1153 | an image widens the range if and only if it reaches the changed lines |
| KittyRange.BlockIs | packages/tui/src/tui.ts:1124-1136 | an image's block is its line and the blank rows below it, as many as it asks for and finds |
| KittyRange.ExpandChangedRange | packages/tui/src/tui.ts:1138-1159 | the two loops compute the specified range |
| KittyRange.GetReservedRows | packages/tui/src/tui.ts:1124-1136 | the rows reserved are blank, as many as asked for and found, and none beyond the last index allowed |
| AnsiRoundTrip.RoundTrip | packages/tui/src/utils.ts:537-556 | feeding a cleared tracker the codes printed for a state restores that state, 256-colour, RGB and hyperlink terminator included |
| AnsiRoundTrip.ActiveCodesRestore | packages/tui/src/utils.ts:537-604 | the same whatever text follows the printed codes |
| AnsiRoundTrip.ProcessWellFormed | packages/tui/src/utils.ts:383-515 | every state reached from the cleared one is one of those for which this holds |
| AnsiRoundTrip.PrintsNothingIffClear | packages/tui/src/utils.ts:537-571 | the printed string is empty if and only if `hasActiveCodes()` is false |
| AnsiRoundTrip.LinkPrints | packages/tui/src/utils.ts:338-364 | a code that opens a hyperlink is exactly the code printed for that hyperlink |
| AnsiRoundTrip.SgrReadsBack | packages/tui/src/utils.ts:290-336 | an SGR code is read as one code with its parameters, whatever follows it |
| AnsiCodes.FoundExactly | packages/tui/src/utils.ts:290-336 | a code is found at a place if and only if there stands ESC [ up to the first of the letters m, G, K, H and J, or ESC ] or ESC _ up to the first BEL or ESC \ |
| AnsiCodes.SgrMeans | packages/tui/src/utils.ts:395-515 | an SGR code without parameters clears all but the hyperlink; otherwise its parameters take effect |
| AnsiCodes.ParametersMean | packages/tui/src/utils.ts:418-455 | parameters take effect from left to right, a 256-colour or RGB colour as one |
| AnsiCodes.ParameterMeans | packages/tui/src/utils.ts:457-512 | 0 clears all but the hyperlink, 39 and 49 a colour; the sixteen basic foreground and background numbers are kept as colours; anything else is an attribute switch or nothing |
| AnsiCodes.OnMeans | packages/tui/src/utils.ts:461-485 | the eight numbers that switch an attribute on |
| AnsiCodes.OffMeans | packages/tui/src/utils.ts:486-511 | the eight that switch attributes off, 22 both bold and dim |
| AnsiCodes.OthersMeanNothing | packages/tui/src/utils.ts:457-512 | no other number switches anything |
| AnsiCodes.LinkMeans | packages/tui/src/utils.ts:338-393 | ESC ]8; parameters ; address and BEL or ESC \ opens that hyperlink with that terminator, and closes one if the address is empty |
| AnsiCodes.OtherCodesMeanNothing | packages/tui/src/utils.ts:383-393 | a code that is no hyperlink and does not end in m changes nothing |
| AnsiCodes.TextMeans | packages/tui/src/utils.ts:591-605 | the codes of a text take effect in order, and nothing between them does |
| TextLayout.ReadAnsiCode | packages/tui/src/utils.ts:290-336 | the scan finds the escape code at a position, or that there is none |
| TextLayout.AnsiCodeTracker.Process | packages/tui/src/utils.ts:383-515 | one code updates exactly the fields it concerns: hyperlink, attributes, colours, or none, as `SgrMeans` and `LinkMeans` say |
| TextLayout.AnsiCodeTracker.ApplyParams | packages/tui/src/utils.ts:395-515 | the parameter loop, which takes 256-colour and RGB colours together, computes the specified state |
| TextLayout.AnsiCodeTracker.GetActiveCodes | packages/tui/src/utils.ts:537-556 | the codes printed are those of the state |
| TextLayout.AnsiCodeTracker.UpdateFromString | packages/tui/src/utils.ts:591-605 | the scan over a text processes exactly its codes |
| WrapProofs.WrapPreservesStyle | packages/tui/src/utils.ts:694-798 | each output line displayed from a clean state, all lines together show the input's non-blank graphemes in order, each with the attributes, colours and hyperlink it had |
| WrapProofs.WrapSingleShows | packages/tui/src/utils.ts:719-798 | the same for one line, soft breaks and broken words included |
| WrapProofs.BreakWordShows | packages/tui/src/utils.ts:816-883 | a long word broken over lines shows the same graphemes in the same style |
| WrapProofs.TokensRejoin | packages/tui/src/utils.ts:607-681 | the tokens of a line joined are the line, codes included |
| WrapBounds.WrapIsBounded | packages/tui/src/utils.ts:694-883 | every output line keeps to the limit if no grapheme and no run of white space is wider |
| WrapBounds.WideGraphemeOverflows | packages/tui/src/utils.ts:816-883 | a wider grapheme always makes some line too wide |
| WrapBounds.SoftBreaksAreClosed | packages/tui/src/utils.ts:573-589 | at every soft break underline and hyperlink are off |
| WrapBreaks.WrapBreaksWell | packages/tui/src/utils.ts:694-883 | of every input line: the graphemes of its output lines, blanks included, are stretches of its own graphemes, in order, which leave out blanks only and only at line ends; a line ends only because the next run of spaces or of other unbreakable graphemes does not fit; inside a run only when the run is wider than the limit, in a line begun with or in it, and because the next grapheme does not fit; without codes a line does not begin with plain spaces unless other white space stands before them; no wrapped line ends in white space |
| WrapBreaks.WrapsAt | packages/tui/src/utils.ts:719-798 | the same for one line, whatever codes reopen the style before it |
| WrapBreaks.TokensAreRuns | packages/tui/src/utils.ts:607-681 | the tokens of a line are exactly its runs: plain spaces, single breakable characters, and all else between them |
| WrapBreaks.BreakAllRun | packages/tui/src/utils.ts:816-883 | a run wider than the limit is parted exactly where its next grapheme does not fit |
| TextLayout.SplitIntoTokensWithAnsi | packages/tui/src/utils.ts:607-681 | the scan yields the specified tokens: spaces apart from words, breakable characters on their own, codes with what follows them |
| TextLayout.BreakWord | packages/tui/src/utils.ts:816-883 | the loop breaks a word as specified and leaves the tracker in the style at its end |
| TextLayout.WrapLine | packages/tui/src/utils.ts:719-798 | the loop over tokens wraps one line as specified; `WrapsAt` says where it breaks and which blanks it leaves out |
| TextLayout.WrapTextWithAnsi | packages/tui/src/utils.ts:694-717 | the loop over input lines carries the style from line to line as specified; `WrapBreaksWell` and `WrapPreservesStyle` say what comes out |
| Truncate.TruncatedFits | packages/tui/src/utils.ts:915-1051 | a truncated text is never wider than allowed, exactly as wide when padded; text that fits is unchanged apart from padding; other text keeps a prefix, the reset and the ellipsis |
| Truncate.KeptIsLongest | packages/tui/src/utils.ts:951-1048 | the prefix kept is the longest that fits |
| Truncate.AsciiKept | packages/tui/src/utils.ts:943-949 | on printable ASCII, cutting at characters is cutting at columns: the fast path agrees with the general loop |
| Truncate.TruncateToWidth | packages/tui/src/utils.ts:915-1051 | fast path and scan meet the same contract |
| Truncate.ScanGraphemes | packages/tui/src/utils.ts:951-1048 | the scan keeps the longest prefix and overflows if and only if the text is too wide |
| Truncate.TruncateFragment | packages/tui/src/utils.ts:61-139 | the ellipsis is cut to its longest prefix that fits |
| Truncate.CutLeavesLinkOpen | packages/tui/src/utils.ts:141-160 | after a cut attributes and colours are off; a truncated text ends in no style if and only if no hyperlink is open at the end of what is left, which for an ellipsis without codes is the end of the prefix kept |
| Truncate.LinkedTextCut | packages/tui/src/utils.ts:141-160 | a concrete text that closes its hyperlink, and whose truncation leaves it open |
| StdinChunking.ChunkingIsInvisible | packages/tui/src/stdin-buffer.ts:287-398 | two non-empty chunks give the same events and state as their concatenation if and only if the cut neither parts a pair of escapes nor takes a paste marker under way for input |
| StdinEvents.PartedPairExample | packages/tui/src/stdin-buffer.ts:202-237 | a concrete cut that shows: escape and up arrow are two sequences, and three when cut after the second escape |
| StdinChunking.AnyChunking | packages/tui/src/stdin-buffer.ts:287-398 | so does any number of chunks with safe cuts |
| StdinChunking.AlignedMarkerWaits | packages/tui/src/stdin-buffer.ts:287-387 | a marker that starts after whole sequences may be cut anywhere |
| StdinChunking.ProcessKeepsValid | packages/tui/src/stdin-buffer.ts:287-398 | after input the buffer is empty or an unfinished escape sequence, and the timer runs exactly when it is not empty |
| StdinProofs.ExtractJoins | packages/tui/src/stdin-buffer.ts:192-255 | sequences and remainder joined are the buffer; the remainder is empty or an escape sequence none of whose prefixes is complete, and is not split any further |
| StdinProofs.ExtractYieldsTokens | packages/tui/src/stdin-buffer.ts:192-255 | every sequence taken off is minimal, or the lone escape that an introducer parted from its pair |
| StdinProofs.ExtractUndoesJoin | packages/tui/src/stdin-buffer.ts:192-255 | minimal sequences joined split back into exactly those sequences if and only if no ESC ESC is followed by an introducer |
| StdinProofs.ExtractGrows | packages/tui/src/stdin-buffer.ts:192-255 | more input only continues from the remainder, unless it parts a pair |
| StdinProofs.ExtractParts | packages/tui/src/stdin-buffer.ts:202-237 | what splitting does when an introducer arrives after a pair of escapes |
| StdinGrammar.WholeIsOneSequence | packages/tui/src/stdin-buffer.ts:28-190 | whatever the grammar calls one whole sequence is reported as one: a plain character, ESC and a character, ESC O and a character, ESC [ up to its final byte, ESC [ M and three characters, ESC [ < and three numbers and M or m, ESC ] up to the first BEL or ST, ESC P or ESC _ up to the first ST; and every proper beginning of it is kept back |
| StdinGrammar.WholeIsMinimal | packages/tui/src/stdin-buffer.ts:28-190 | no proper beginning of a whole sequence is complete, and all of it is |
| StdinGrammar.MinimalIsWhole | packages/tui/src/stdin-buffer.ts:28-190 | the other way round: what is complete with no complete beginning is a whole sequence by that grammar |
| StdinGrammar.ExtractByGrammar | packages/tui/src/stdin-buffer.ts:192-255 | a buffer is its sequences and its remainder joined; each sequence is whole by the grammar, or an escape before something longer that begins with an escape; no beginning of the remainder is whole |
| StdinGrammar.TwoEscapes | packages/tui/src/stdin-buffer.ts:202-237 | two escapes are one sequence unless the next character is one of the five that introduce something longer; then the first stands alone |
| StdinGrammar.AnnouncedExactly | packages/tui/src/stdin-buffer.ts:180-190 | the keyboard report that announces a character is ESC [, its code point of at least 32, at most two more fields, and u |
| StdinBuffer.TakeEscape | packages/tui/src/stdin-buffer.ts:198-248 | the inner loop finds the first sequence of a buffer; `WholeIsOneSequence` says which strings that are |
| StdinBuffer.ExtractCompleteSequences | packages/tui/src/stdin-buffer.ts:192-255 | the loop computes the specified sequences and remainder, and terminates; `ExtractByGrammar` says what they are |
| StdinBuffer.StdinBuffer.Process | packages/tui/src/stdin-buffer.ts:287-387 | `process` updates buffer, paste state and timer and emits as specified; `ExtractByGrammar`, `PastesAreReported` and `ChunkingIsInvisible` say what that comes to |
| StdinBuffer.StdinBuffer.EmitDataSequence | packages/tui/src/stdin-buffer.ts:389-398 | one sequence is reported or dropped, and what is announced is kept, as specified; `EmitKeeps` says which are dropped |
| StdinEvents.EmitKeeps | packages/tui/src/stdin-buffer.ts:389-398 | of any list of sequences exactly those are dropped that repeat, as a plain character, what the sequence right before them reported; all others are reported once, in order |
| StdinEvents.SwallowedOnce | packages/tui/src/stdin-buffer.ts:389-398 | a report makes at most one character disappear, and a dropped character none |
| StdinBuffer.StdinBuffer.OnTimeout | packages/tui/src/stdin-buffer.ts:374-414 | the timeout emits what waits as it is, as specified |
| StdinEvents.TimeoutReportsTheRest | packages/tui/src/stdin-buffer.ts:374-414 | input without a paste and then the timeout: what has been reported is the whole input cut into its sequences, repetitions apart, and nothing is buffered |
| StdinEvents.PastesAreReported | packages/tui/src/stdin-buffer.ts:315-372 | input with any number of pastes: each is reported whole, once, in its place, and the input before each as it would be on its own |
| StdinEvents.OpenPaste | packages/tui/src/stdin-buffer.ts:341-372 | while the end of a paste is missing what was pasted waits, and what came before it has been reported |
| ToolBatchProofs.ParallelRefinesSequential | packages/agent/src/agent-loop.ts:409-531 | every interleaving of a concurrent batch gives the sequential executor's results in source order, its decision to terminate, and for each call the same events in the same order; with an abort too, if both executors see it at the same look at the signal |
| ToolBatchProofs.ParallelFacts | packages/agent/src/agent-loop.ts:466-531 | concurrently, each call shows its start, its updates and its end in that order, and results come in call order |
| ToolBatchProofs.SequentialLives | packages/agent/src/agent-loop.ts:409-464 | one at a time, each executed call shows its whole life and the others nothing |
| ToolBatchProofs.SequentialProtocol | packages/agent/src/agent-loop.ts:409-464 | a sequential batch keeps the event protocol and ends exactly its results |
| ToolBatchProofs.CountsAgree | packages/agent/src/agent-loop.ts:409-531 | an abort stops both executors after the same number of calls |
| ToolBatchProofs.EveryCallAnswered | packages/agent/src/agent-loop.ts:466-531 | without an abort every call is answered, each with its own result |
| ToolBatchProofs.OutcomesMean | packages/agent/src/agent-loop.ts:409-700 | what executing calls comes to: a call that runs before the abort gives its own outcome, any other an error that does not ask to terminate; calls are executed in order until all are or the run is found aborted |
| ToolBatchProofs.CompleteExactly | packages/agent/src/agent-loop.ts:492-516 | a concurrent batch has ended exactly if the scheduler has given each call that runs a turn for each of its partial results and one to end |
| AgentLoop.Prompt | packages/agent/src/agent.ts:367-376 | a prompt is refused while a run is active, and changes nothing then; otherwise one good run that starts with it. What was ever passed to `steer` or `followUp` is what was before and what the polls of the run let in, and what was taken off each queue is what was before and what those polls drained: with conservation that fixes what is delivered, held and queued |
| AgentLoop.Continue | packages/agent/src/agent.ts:378-405 | `continue()`: the exact refusals, which change nothing; after an assistant message what one drain takes off the steering queue, or else off the follow-up queue, becomes the prompts; the account of both queues then goes on as for a prompt |
| AgentLoop.RunPromptMessages | packages/agent/src/agent.ts:428-456 | a run opens, follows the protocol, leaves the agent idle with nothing held when it ends, and accounts for every message passed in before and during it |
| AgentLoop.GoodRunMeans | packages/agent/src/agent-loop.ts:170-284 | at every event the agent's own transcript, as it is then, is the initial one plus the messages ended so far, and the message under way is the one it mirrors; at every `turn_end` the loop's context and new messages agree with it; `agent_end` carries them all, with the loop's pending messages empty |
| AgentLoop.NothingDrainedIsLost | packages/agent/src/agent-loop.ts:170-284 | besides prompts, replies and tool results the transcript gains exactly what was drained from the queues, in that order and once, less what is still pending; nothing is when the run has ended |
| RunTrace.FollowUpsComeLast | packages/agent/src/agent-loop.ts:260-278 | follow-ups are asked for only right after an empty steering poll that follows a turn with no tool calls left |
| RunTrace.ToolsLeftMeans | packages/agent/src/agent-loop.ts:207-225 | for a reply that does not fail, the model has to be asked again because of tools if and only if there are calls and some executed call's outcome does not ask to terminate |
| RunTrace.FailureEnds | packages/agent/src/agent-loop.ts:207-213 | a failed or aborted reply ends the run, with none of its calls executed |
| RunTrace.ResultsMean | packages/agent/src/agent-loop.ts:385-402 | otherwise each executed call has its result, with its content and error mark, in the order of the calls |
| RunTrace.ToolCallsAreFollowed | packages/agent/src/agent-loop.ts:176-258 | while tool calls are left, as `ToolsLeftMeans` says, the model is asked again, whatever the steering queue holds |
| RunTrace.EndsForAReason | packages/agent/src/agent-loop.ts:207-284 | a run ends with a failed reply, at the stop hook, or with no tool calls left and both queues found empty |
| RunTrace.DrainedIsInjected | packages/agent/src/agent-loop.ts:170-284 | whatever is drained is injected before the next reply, in order and once |
| RunMeaning.RulesExactly | packages/agent/src/agent-loop.ts:170-284 | a list of steps follows the rules of the loop if and only if every step is in place: the steering queue is asked first and after every turn that does not end the run; a turn is taken after a poll, injects just what that brought, and needs messages, tool calls left, or to be the first; follow-ups are asked for when a steering poll after a turn leaves neither; nothing follows the end |
| RunMeaning.EndsMean | packages/agent/src/agent-loop.ts:207-258 | a turn ends the run exactly when its reply failed or was aborted or the stop hook asks for it |
| RunMeaning.TranscriptMeans | packages/agent/src/agent-loop.ts:196-235 | a turn adds what it injects, its reply and its results to the transcript, in that order, and a poll nothing |
| RunMeaning.PassedMeans | packages/agent/src/agent-loop.ts:170-284 | what is passed in during a run is what the script has before its first poll and before each poll after a turn |
| RunMeaning.StreamShows | packages/agent/src/agent-loop.ts:319-383 | a reply that starts while it streams is announced in its first form, updated with every later one and ended in its final one; any other is announced and ended in its final form |
| RunMeaning.TurnMeans | packages/agent/src/agent-loop.ts:176-254 | a turn keeps the event protocol and closes with its reply and results; what it ends is what it injects, the reply and the results; each executed call shows its whole life and the others nothing |
| RunMeaning.RunMeans | packages/agent/src/agent-loop.ts:105-284 | the events of a run keep the protocol, and what they end is the prompts and then the transcript of its steps |
| AgentLoop.Loop.RunLoop | packages/agent/src/agent-loop.ts:170-284 | the nested loop keeps the event protocol, the history, the rules for polling, injecting and ending, and the account of both queues; its events are exactly those its steps call for; it ends with nothing waiting, or at the end of the script with a reply due |
| AgentLoop.Loop.RunAgentLoop | packages/agent/src/agent-loop.ts:105-128 | prompts are announced inside the first turn, then the loop runs |
| AgentLoop.Loop.StreamAssistantResponse | packages/agent/src/agent-loop.ts:290-383 | a reply is announced once, mirrored while it streams, and ended once: the events are exactly those the stream calls for, and the final reply replaces the partial one in the context |
| EventTrace.StreamKeepsProtocol | packages/agent/src/agent-loop.ts:325-383 | a reply keeps the event protocol if and only if its stream starts the message at most once before it finishes |
| AgentLoop.Loop.ExecuteToolCalls | packages/agent/src/agent-loop.ts:385-402 | either executor shows exactly its own events, tool starts, updates and ends included, and the results do not depend on which; it asks to terminate if and only if every executed call's outcome does, and there is one |
| AgentLoop.Loop.FinishTurn | packages/agent/src/agent-loop.ts:215-254 | a turn shows its reply, its tool calls and a `turn_end` with that reply and those results, and becomes a step of the run |
| AgentLoop.Loop.ExecuteToolCallsSequential | packages/agent/src/agent-loop.ts:409-464 | the loop emits exactly the specified events and results |
| AgentLoop.Loop.ExecuteToolCallsParallel | packages/agent/src/agent-loop.ts:466-531 | the three phases emit exactly the specified events and results for a completion order |
| AgentLoop.Loop.InjectPending | packages/agent/src/agent-loop.ts:196-205 | pending messages are injected in order and become delivered |
| AgentLoop.Loop.PollFollowUps | packages/agent/src/agent-loop.ts:268-278 | a follow-up poll, taken with nothing pending, becomes a step of the run; what is pending afterwards is exactly what the queue's mode takes off the queue and what has just arrived |
| AgentLoop.Agent.ProcessEvent | packages/agent/src/agent.ts:574-621 | the state mirrors the protocol: the message under way, the tools running, the transcript |
| AgentLoop.Agent.Steer | packages/agent/src/agent.ts:304-306 | a steering message is queued; nothing ever steered is lost, repeated or reordered |
| AgentLoop.Agent.FollowUp | packages/agent/src/agent.ts:309-311 | the same for follow-ups |
| AgentLoop.PendingMessageQueue.Drain | packages/agent/src/agent.ts:162-176 | draining takes everything, or at most one message and one if there is any, as the mode says, and leaves the rest |
| AgentLoop.HistoryAt | packages/agent/src/agent-loop.ts:170-284 | a good history holds at every event |
| HarnessQueues.NothingLostOrReordered | packages/agent/src/harness/agent-harness.ts:387-397 | over any pushes, drains, failed and abandoned drains: taken, then held, then waiting messages are exactly those pushed, in order; only an abandoned drain loses any |
| HarnessQueues.Front | packages/agent/src/harness/agent-harness.ts:387-389 | what one drain takes off is the whole queue in one mode and at most one message in the other, from the front, and something unless the queue is empty |
| AgentHarness.MessageQueue.Take | packages/agent/src/harness/agent-harness.ts:387-389 | taking off leaves the rest in order; one at a time at most one message goes |
| HarnessQueues.WrittenOnceInOrder | packages/agent/src/harness/agent-harness.ts:462-486 | as long as flushes do not overlap: what flushes have appended and what waits is exactly what was deferred, as it is recorded, in order, once each; the rest of the log was written directly, in order |
| HarnessQueues.FlushEnds | packages/agent/src/harness/agent-harness.ts:462-486 | a flush that ends without failure leaves nothing waiting; a write that fails stays at the head |
| HarnessQueues.OverlapDuplicates | packages/agent/src/harness/agent-harness.ts:462-486 | two overlapping flushes append the head twice and lose the next write; all is well only if the two are recorded alike |
| HarnessRun.ExecuteBalances | packages/agent/src/harness/agent-harness.ts:526-606 | over a whole run, whatever fails in it: what is polled and waits is what waited and was queued, what is logged and waits is what waited and was deferred, each once and in order, and the rest of the log was written directly; nothing waits to be written if the run ends well or has started and its last flush has no failure |
| HarnessRun.StartBalances | packages/agent/src/harness/agent-harness.ts:531-555 | what a run starts with, or loses, and what then waits for the next turn is what waited and was queued meanwhile; messages are lost if and only if there are any, they are announced, and the hook fails |
| HarnessRun.HandleBalances | packages/agent/src/harness/agent-harness.ts:375-515 | the same balance for every single thing that may happen in a run |
| HarnessRun.FlushBalances | packages/agent/src/harness/agent-harness.ts:462-486 | a flush moves writes from waiting to logged in order, those that arrive during its awaits included |
| HarnessRun.FlushEmpties | packages/agent/src/harness/agent-harness.ts:462-486 | a flush succeeds exactly when it leaves nothing waiting, and always does when no append fails |
| HarnessRun.ExecuteIdle | packages/agent/src/harness/agent-harness.ts:507-515 | a run that goes well leaves the harness idle |
| HarnessRun.HandleStops | packages/agent/src/harness/agent-harness.ts:568-597 | nothing that would come after a failure in the loop happens |
| HarnessEvents.FlushExactly | packages/agent/src/harness/agent-harness.ts:462-486 | a flush writes what waits and what arrives meanwhile in order, each once, up to the first append that fails; what arrives is what comes during the appends awaited, and that write and all after it stay |
| HarnessEvents.FlushingMeans | packages/agent/src/harness/agent-harness.ts:494-513 | the end of a turn and of a run and the preparation of a turn flush what waits whatever else fails, and are well exactly if nothing is left and nothing else failed; only the end of a run makes the harness idle, and only with nothing left |
| HarnessEvents.PollMeans | packages/agent/src/harness/agent-harness.ts:387-397 | a poll takes from its own queue all of it or one message if that can be announced, leaves the rest and what arrives meanwhile in order, and fails exactly if there was something to announce and that failed |
| HarnessEvents.QueueingMeans | packages/agent/src/harness/agent-harness.ts:657-672 | steering and follow-ups are refused while idle and next-turn messages never; what is taken comes last in its own queue, and nothing else changes |
| HarnessEvents.MessageEndMeans | packages/agent/src/harness/agent-harness.ts:488-493 | a message that ends is logged directly if its append succeeds, and the run goes on if the listeners do not fail either |
| HarnessEvents.AppendingMeans | packages/agent/src/harness/agent-harness.ts:674-684 | a message appended while idle is logged at once, otherwise it waits; neither makes a run fail |
| HarnessEvents.OtherMeans | packages/agent/src/harness/agent-harness.ts:514-515 | any other event changes nothing, and fails with its listeners |
| HarnessEvents.InTwoParts | packages/agent/src/harness/agent-harness.ts:556-580 | events that go well followed by others do what the first do and then what the others do from there |
| HarnessEvents.StartMeans | packages/agent/src/harness/agent-harness.ts:531-555 | a run starts exactly if the next-turn messages, if any, can be announced and the hook does not fail; with those messages, the prompt and the hook's; what arrives meanwhile is for the next turn |
| HarnessEvents.FinishMeans | packages/agent/src/harness/agent-harness.ts:556-606 | a failed loop alone is reported; the last flush is made in any case, and the run ends well exactly if loop or report went well, there is a reply and nothing is left to write |
| HarnessEvents.ExecuteMeans | packages/agent/src/harness/agent-harness.ts:526-606 | a run that does not start changes the next-turn queue alone |
| AgentHarness.AgentHarness.DrainQueuedMessages | packages/agent/src/harness/agent-harness.ts:387-397 | a drain takes the steps of a drain; it hands its prefix over or restores it ahead of what came meanwhile |
| AgentHarness.MessageQueue.Conserves | packages/agent/src/harness/agent-harness.ts:387-397 | between drains what a queue has handed over and what waits in it is what was ever pushed, in order |
| AgentHarness.AgentHarness.FlushPendingSessionWrites | packages/agent/src/harness/agent-harness.ts:462-486 | the loop takes the steps of one flush, arrivals during its awaits included, adds nothing else to the log, and stops at the first failure; without one nothing waits |
| AgentHarness.AgentHarness.Accounts | packages/agent/src/harness/agent-harness.ts:462-486 | at any time the deferred writes are in the log or wait, once and in order, and the rest of the log was written directly |
| AgentHarness.AgentHarness.TurnEnd | packages/agent/src/harness/agent-harness.ts:494-506 | deferred writes are flushed even when a listener failed |
| AgentHarness.AgentHarness.AgentEnd | packages/agent/src/harness/agent-harness.ts:507-513 | the harness becomes idle exactly when no append fails, and only with nothing left to write |
| AgentHarness.AgentHarness.StartMessages | packages/agent/src/harness/agent-harness.ts:531-555 | a run starts with the next-turn messages, the prompt and what the hook adds, or not at all: with the queue restored if it cannot be announced, and with what was queued lost if the hook fails |
| AgentHarness.AgentHarness.HandleEvent | packages/agent/src/harness/agent-harness.ts:375-515 | each thing that may happen in a run does to the fields what is specified, adds exactly what it brings to the histories of what was queued, deferred and written directly, and hands over exactly what it polls |
| AgentHarness.AgentHarness.HandleEvents | packages/agent/src/harness/agent-harness.ts:556-580 | the same for events one after the other, up to the first that fails |
| AgentHarness.AgentHarness.ExecuteTurn | packages/agent/src/harness/agent-harness.ts:526-606 | start, loop, failure report and last flush together do to fields and histories what is specified for the whole run; the messages it starts with and those it polls are returned |
| AgentHarness.AgentHarness.Prompt | packages/agent/src/harness/agent-harness.ts:608-622 | refused unless idle, and idle afterwards whatever happens; queued messages are taken or wait and deferred writes are logged or wait, in order and once; the messages lost are exactly those for the next turn when the hook fails after they have been announced; if the run goes well, or has started and its last flush has no failure, every write deferred is in the log |
| AgentHarness.AgentHarness.Enqueue | packages/agent/src/harness/agent-harness.ts:657-672 | steering and follow-ups are refused while idle |
| AgentHarness.AgentHarness.AppendMessage | packages/agent/src/harness/agent-harness.ts:674-684 | a write goes to the log when idle and is deferred otherwise |
| HeartbeatProofs.NeverDoubledNeverDropped | packages/orchestrator/src/radius.ts:194-306 | under every interleaving of registrations, disconnects, stops, timers and answers an instance has at most one armed timer, and an armed timer belongs to an instance in the map; while Radius is enabled every instance in the map has a timer armed or a heartbeat under way |
| HeartbeatProofs.StepSound | packages/orchestrator/src/radius.ts:276-306 | every step keeps timers, records and instances linked one to one |
| HeartbeatProofs.StepCovered | packages/orchestrator/src/radius.ts:354-405 | with Radius enabled no step drops a heartbeat |
| HeartbeatProofs.DroppedExactlyWhen | packages/orchestrator/src/radius.ts:194-405 | a step drops a heartbeat if and only if Radius is disabled and either a timer goes off or a live instance gets its third 404 in a row, with nothing else armed or under way for that instance |
| HeartbeatProofs.ThirdNotFoundDrops | packages/orchestrator/src/radius.ts:389-396 | a concrete run from the start: the third 404 arrives while Radius is disabled, and the instance stays in the map without a timer |
| HeartbeatProofs.AppearsWhenRegistered | packages/orchestrator/src/radius.ts:194-215 | an instance enters the map if and only if a registration of it succeeds, recovery included |
| HeartbeatProofs.DisconnectUndone | packages/orchestrator/src/radius.ts:194-235 | a concrete run: a registration under way brings a disconnected instance and its timer back |
| HeartbeatProofs.CountsInARow | packages/orchestrator/src/radius.ts:276-405 | over any run, a record's count of 404s is the number of them since its last success or start, and its count of failures the number of those since its last success, 404 or start |
| HeartbeatProofs.NotFoundDecides | packages/orchestrator/src/radius.ts:378-396 | up to the second 404 in a row the heartbeat goes on; from the third an instance that is not live is forgotten, and a live one is registered anew exactly if Radius is enabled |
| HeartbeatProofs.DelaysMean | packages/orchestrator/src/radius.ts:276-405 | when the next heartbeat is due: after a success, a start or a 404 that is let pass, at the interval; after n failures in a row at a delay that doubles with n from 1000 to 30000 ms, and at most a quarter more |
| HeartbeatProofs.RegisteringMeans | packages/orchestrator/src/radius.ts:194-235 | a registration is begun exactly while Radius is enabled, and an instance that is no longer live is forgotten instead |
| Heartbeats.BackoffBounded | packages/orchestrator/src/radius.ts:81-88 | every delay lies between 1000 and 30000 ms, and at most a quarter above the exponential delay |
| Heartbeats.JitterIsAQuarter | packages/orchestrator/src/radius.ts:81-88 | the random part is always a share of a quarter of the exponential delay: the least range of 250 ms never decides |
| Heartbeats.ExponentialGrows | packages/orchestrator/src/radius.ts:81-85 | the exponential delay is 1000 ms at first and doubles with every failure up to the maximum |
| RadiusPresence.RadiusPresence.SchedulePiHeartbeat | packages/orchestrator/src/radius.ts:295-306 | the timer of the record is replaced, never added to, and set to the delay given |
| RadiusPresence.RadiusPresence.StartPiHeartbeat | packages/orchestrator/src/radius.ts:276-293 | a known record is reused with its counters reset, an unknown one made |
| RadiusPresence.RadiusPresence.DisconnectPi | packages/orchestrator/src/radius.ts:217-224 | the timer is cleared and the instance forgotten |
| RadiusPresence.RadiusPresence.Stop | packages/orchestrator/src/radius.ts:171-180 | every timer is cleared and every instance forgotten |
| RadiusPresence.RadiusPresence.HeartbeatPi | packages/orchestrator/src/radius.ts:354-362 | what happens when a timer goes off |
| RadiusPresence.RadiusPresence.HeartbeatAnswered | packages/orchestrator/src/radius.ts:364-405 | success, transient failure and 404 lead to a new timer; the third 404 in a row to a new registration, or to removal when the instance is not live |
| Fuzzy.GreedyIsComplete | packages/tui/src/fuzzy.ts:24-61 | the greedy scan succeeds if and only if the query is a subsequence of the text |
| Fuzzy.ScanQuery | packages/tui/src/fuzzy.ts:16-68 | the loop with its running score decides that, and scores the greedy placement as specified |
| FuzzyScores.ExactIsBest | packages/tui/src/fuzzy.ts:63-66 | an exact match scores 100 points better than the same characters at the beginning of a longer text |
| FuzzyScores.RowsAreRewarded | packages/tui/src/fuzzy.ts:35-55 | each further character of a row at the beginning is rewarded by 5 points more than the one before, costs a tenth of a point for every place before it, and earns 10 points after white space or one of five marks |
| FuzzyScores.WordsAreRewarded | packages/tui/src/fuzzy.ts:32-52 | a match that begins a word scores 10 points better than one that does not |
| FuzzyScores.GapsCost | packages/tui/src/fuzzy.ts:40-55 | one more character in a gap costs 2 points, and a tenth of a point for each character matched after it |
| FuzzyScores.ExchangedCosts | packages/tui/src/fuzzy.ts:70-93 | a query that matches only exchanged scores 5 points worse than the exchanged one would |
| FuzzyScores.ScoresAddUp | packages/tui/src/fuzzy.ts:115-128 | the score of an item is the sum of those of its tokens |
| FuzzyScores.ScoreIs | packages/tui/src/fuzzy.ts:16-68 | the scan matches each character at the first place after the one before it |
| FuzzyScores.NothingScoresNothing | packages/tui/src/fuzzy.ts:17-61 | an empty query matches with score 0, and what does not match has score 0 |
| FuzzyScores.SeparatorsAre | packages/tui/src/fuzzy.ts:104-107 | queries are split at slashes and at exactly the white space of the language |
| FuzzyScores.LettersAre | packages/tui/src/fuzzy.ts:75-82 | letters and digits are the 26 and 10 ASCII ones |
| Fuzzy.MatchesWhenInOrder | packages/tui/src/fuzzy.ts:70-93 | a token matches if and only if it occurs in order as it is or with letters and digits exchanged |
| Fuzzy.SwappedIs | packages/tui/src/fuzzy.ts:75-82 | letters and digits are exchanged, and exchanging twice is back |
| Fuzzy.SwappedOnly | packages/tui/src/fuzzy.ts:75-82 | only queries of that form are exchanged |
| Fuzzy.FilterIsExact | packages/tui/src/fuzzy.ts:99-137 | exactly the matching items come out, by ascending total score, equal ones in their old order |
| Fuzzy.MatchingHolds | packages/tui/src/fuzzy.ts:115-133 | an item is kept if and only if it was given and all tokens match |
| Fuzzy.FuzzyFilter | packages/tui/src/fuzzy.ts:99-137 | the loops and the sort compute the specified result |
| Fuzzy.TokensSplit | packages/tui/src/fuzzy.ts:104-107 | white space and slashes separate tokens |
| Fuzzy.TokensWord | packages/tui/src/fuzzy.ts:104-107 | text without separators is one token, nothing is none |

## Left out

- RendererProofs.RenderExact: image lines in the draw loops are not part of the theorem, nor is a render in a Termux session after the height alone has changed, which rewrites in place what the terminal itself has moved; every other render is.
- RendererProofs.EveryRenderShowsItsFrame: a resize that ends at the size last rendered, or comes before the first render, must leave the terminal as it was, see `RendererProofs.UnseenResize`; it also assumes no line wider than the terminal and a marker at or below the viewport top; what else is then missing is what `RendererProofs.RefusedExactly` and `RendererProofs.RenderExact` say.
- Renderer.NewLines: `normalizeTerminalOutput`, which replaces two Thai and Lao vowels by sequences of equal width, is taken as already applied.
- OverlayFocusProofs.FocusDiscipline: covers showing, focusing and removing capturing overlays; with `setHidden`, `unfocus` and `setFocus` the focus may be on a hidden overlay, even after an input, and what holds is said by `OverlayFocusProofs.AlwaysConsistent` and `OverlayResume`.
- FocusManager.TUI.Release: `unfocus()` and `setHidden()` through the handle of an overlay that has been removed are not modelled, nor are `visible()` callbacks; entries are values known by an id, updated in the stack, so aliasing between handle and stack entry is not captured.
- OverlayBox.PercentSpansTheRoom: percentages are reals and other sizes integers, so floating-point rounding and fractional sizes are not captured.
- CompositeLine.ComposedShows: says of a blank that it is a space, not in which style; graphemes are taken as segmented, so joins across a seam are not captured.
- OverlayPainter.CompositedShows: assumes a left margin that leaves a column, lines without images, content no wider than the terminal and no wide grapheme cut by an edge; a single line is described without the last assumption.
- KittyRange.RangeIsClosed: assumes that the two lists agree below the first changed line, which is how that line is found, and that a line with an image id is one the image test recognises.
- WrapBounds.WrapIsBounded: for white space only the sufficient condition is proved, since a wide run that is trimmed does no harm.
- Truncate.TruncateToWidth: the scan without codes and tabs and the one with them are one loop here, because atoms already tell codes, tabs and graphemes apart.
- Compositor.ExtractSegments: `beforeEnd` may not lie behind `afterStart`, as at its one call; the pooled tracker is a local style.
- StdinBuffer.StdinBuffer.Process: strings only; conversion of bytes with the high bit set is left out, and so are `flush` on demand and `destroy`.
- AgentLoop.Loop.StreamAssistantResponse: assumes that a stream starts its message at most once before it finishes, without which the protocol is broken by `EventTrace.StreamKeepsProtocol`; replacing the context in `prepareNextTurn` or `transformContext`, hook and listener exceptions and the events of a failed run are left out.
- AgentLoop.RunPromptMessages: `ended` is false when the script of replies ends first, which stands for a run still waiting for a reply that is due; clearing the queues is left out.
- ToolBatchProofs.ParallelRefinesSequential: for tools and hooks whose outcome depends only on the call, and a signal both executors see at the same look; an abort while a tool runs falls at different looks in the two.
- AgentHarness.AgentHarness.FlushPendingSessionWrites: the session is a log that every kind of write is appended to, the leaf included, each entry marked as flushed or written directly; `abort`, which clears the queues, is left out.
- AgentHarness.AgentHarness.Prompt: the events of the run are any sequence that ends in `agent_end`, not those of `AgentLoop`; `skill` and `promptFromTemplate` differ only in the prompt.
- HarnessQueues.WrittenOnceInOrder: assumes that no flush starts while another is under way; `HarnessQueues.OverlapDuplicates` shows what happens otherwise.
- HeartbeatProofs.NeverDoubledNeverDropped: a machine is registered throughout; the machine's own heartbeat and the re-registration that starts without a machine are left out, and re-registering all instances is any number of single steps.
- Heartbeats.BackoffBounded: the random draw is a real number from 0 up to 1.
- Fuzzy.ScanQuery: scores are counted in tenths, and lower-casing is a parameter.
- Escape codes other than SGR and hyperlinks, when they occur inside lines, are taken to change no style.
- Unicode tables, grapheme segmentation and `eastAsianWidth`: graphemes and widths are given data.
- Real terminals, timers, sockets, `fetch` and session storage: they are parameters or steps.
- Synchronised-output markers, showing and hiding the cursor, render throttling, debug and crash logs.
- `packages/orchestrator/src/supervisor.ts`, compaction, branch summaries, key tables, configuration, providers and command lines: not part of this model.

/** Cutting text to a width, with an ellipsis where something is left out. */
module Truncate {
  import opened Wrappers
  import opened Strings
  import opened AnsiTracker
  import opened Wrap
  import opened WrapProofs
  import opened Columns
  import opened Compositor
  import opened CompositeLine

  /** One printable ASCII character: one column. */
  predicate Ascii(a: Atom) {
    a.Glyph? && |a.text| == 1 && a.width == 1 && ' ' <= a.text[0] <= '~'
  }

  predicate AllAscii(line: Line) {
    forall i :: 0 <= i < |line| ==> Ascii(line[i])
  }

  /** The first atom, from `i` on, that does not fit into `limit` columns. */
  function RoomFrom(line: Line, i: nat, limit: nat): (n: nat)
    requires i <= |line|
    ensures i <= n <= |line|
    ensures forall k :: i <= k < n ==> At(line, k) + line[k].Columns() <= limit || line[k].Code?
    ensures n < |line| ==> line[n].Glyph? && At(line, n) + line[n].width > limit
    decreases |line| - i
  {
    if i == |line| || (line[i].Glyph? && At(line, i) + line[i].width > limit) then i else RoomFrom(line, i + 1, limit)
  }

  /** The longest prefix that fits into `limit` columns, without codes after its last grapheme. */
  function Kept(line: Line, limit: nat): Line {
    TrimCodes(line[..RoomFrom(line, 0, limit)])
  }

  lemma KeptFits(line: Line, limit: nat)
    ensures Width(Kept(line, limit)) <= limit && Kept(line, limit) <= line
    ensures Width(line) <= limit ==> RoomFrom(line, 0, limit) == |line|
    ensures Width(line) > limit ==> RoomFrom(line, 0, limit) < |line|
  {
    hide Width, TrimCodes;
    var n := RoomFrom(line, 0, limit);
    AtEnds(line);
    PaintTrimmed(CLEAR, line[..n]);
    RoomWidth(line, n, limit);
    if n < |line| { AtStep(line, n); AtMonotone(line, n + 1, |line|); }
  }

  lemma {:induction false} RoomWidth(line: Line, n: nat, limit: nat)
    requires n <= RoomFrom(line, 0, limit)
    ensures At(line, n) <= limit
  {
    hide Width, At;
    AtEnds(line);
    if n > 0 {
      RoomWidth(line, n - 1, limit);
      AtStep(line, n - 1);
      assert line[n - 1].Glyph? ==> At(line, n - 1) + line[n - 1].Columns() <= limit;
    }
  }

  /** On printable ASCII, cutting at columns is cutting at characters. */
  lemma AsciiKept(line: Line, limit: nat)
    requires AllAscii(line)
    ensures Width(line) == |line|
    ensures Kept(line, limit) == line[..if |line| <= limit then |line| else limit]
  {
    hide Width, At, TrimCodes, RoomFrom;
    AtEnds(line);
    AsciiAt(line, |line|);
    var n := RoomFrom(line, 0, limit);
    RoomWidth(line, n, limit);
    AsciiAt(line, n);
    AsciiUntrimmed(line, n);
  }

  lemma AsciiUntrimmed(line: Line, n: nat)
    requires AllAscii(line) && n <= |line|
    ensures TrimCodes(line[..n]) == line[..n]
  {
    if n > 0 { assert line[..n][n - 1] == line[n - 1] && Ascii(line[n - 1]); }
  }

  lemma {:induction false} AsciiAt(line: Line, i: nat)
    requires AllAscii(line) && i <= |line|
    ensures At(line, i) == i
  {
    hide Width, At;
    AtEnds(line);
    if i > 0 { AsciiAt(line, i - 1); AtStep(line, i - 1); }
  }

  /* ---------- The contract ---------- */

  const RESET: Line := [Code(SGR_RESET)]

  /** `finalizeTruncatedResult`. */
  function Finish(prefix: Line, ellipsis: Line, maxWidth: nat, pad: bool): Line {
    var result := if ellipsis != [] then prefix + RESET + ellipsis + RESET else prefix + RESET;
    if pad then Padded(result, Max(0, maxWidth - (Width(prefix) + Width(ellipsis)))) else result
  }

  /** What truncation promises: text that fits is left alone; other text is cut, and the cut is shown if there is room. */
  function Truncated(text: Line, maxWidth: int, ellipsis: Line, pad: bool): Line {
    if maxWidth <= 0 then []
    else if Width(text) <= maxWidth then if pad then Padded(text, maxWidth - Width(text)) else text
    else if Width(ellipsis) < maxWidth then Finish(Kept(text, maxWidth - Width(ellipsis)), ellipsis, maxWidth, pad)
    else if Width(Kept(ellipsis, maxWidth)) == 0 then if pad then Spaces(maxWidth) else []
    else Finish([], Kept(ellipsis, maxWidth), maxWidth, pad)
  }

  lemma FinishWidth(prefix: Line, ellipsis: Line, maxWidth: nat, pad: bool)
    requires Width(prefix) + Width(ellipsis) <= maxWidth
    ensures Width(Finish(prefix, ellipsis, maxWidth, pad)) ==
      if pad then maxWidth else Width(prefix) + Width(ellipsis)
  {
    hide Width, Padded;
    CodesShowNothing(CLEAR, RESET);
    WidthConcat(prefix, RESET);
    WidthConcat(prefix + RESET, ellipsis);
    WidthConcat(prefix + RESET + ellipsis, RESET);
    WidthNone();
    var result := if ellipsis != [] then prefix + RESET + ellipsis + RESET else prefix + RESET;
    PaintPadded(result, Max(0, maxWidth - (Width(prefix) + Width(ellipsis))));
  }

  /** The result is never wider than allowed, exactly as wide when padded, and begins with a prefix of the text. */
  lemma TruncatedFits(text: Line, maxWidth: int, ellipsis: Line, pad: bool)
    ensures var r := Truncated(text, maxWidth, ellipsis, pad);
      && Width(r) <= Max(0, maxWidth)
      && (pad ==> Width(r) == Max(0, maxWidth))
      && (maxWidth > 0 && Width(text) <= maxWidth ==> text <= r && (!pad ==> r == text))
      && (maxWidth > 0 && Width(text) > maxWidth && Width(ellipsis) < maxWidth ==>
          Kept(text, maxWidth - Width(ellipsis)) + RESET + ellipsis <= r)
  {
    hide Width, Kept, Spaces;
    WidthNone();
    if maxWidth > 0 {
      if Width(text) <= maxWidth {
        PaintPadded(text, maxWidth - Width(text));
      } else if Width(ellipsis) < maxWidth {
        KeptFits(text, maxWidth - Width(ellipsis));
        FinishWidth(Kept(text, maxWidth - Width(ellipsis)), ellipsis, maxWidth, pad);
        FinishStarts(Kept(text, maxWidth - Width(ellipsis)), ellipsis, maxWidth, pad);
      } else {
        KeptFits(ellipsis, maxWidth);
        PaintSpaces(CLEAR, maxWidth);
        FinishWidth([], Kept(ellipsis, maxWidth), maxWidth, pad);
      }
    }
  }

  lemma FinishStarts(prefix: Line, ellipsis: Line, maxWidth: nat, pad: bool)
    ensures prefix + RESET + ellipsis <= Finish(prefix, ellipsis, maxWidth, pad)
  {
    hide Width, Spaces;
  }

  lemma {:induction false} GlyphsKeepStyle(s: Style, line: Line)
    requires forall i :: 0 <= i < |line| ==> line[i].Glyph?
    ensures StyleAfter(s, line) == s
    decreases |line|
  {
    if line != [] { GlyphsKeepStyle(s, line[1..]); }
  }

  /** The resets around the ellipsis end attributes and colours, and leave hyperlinks as they are. */
  lemma FinishStyle(prefix: Line, ellipsis: Line, maxWidth: nat, pad: bool)
    ensures StyleAfter(CLEAR, Finish(prefix, ellipsis, maxWidth, pad)) == Reset(StyleAfter(CLEAR, prefix + RESET + ellipsis))
  {
    hide Width, Process, StyleAfter;
    var cut := prefix + RESET + ellipsis;
    var result := if ellipsis != [] then cut + RESET else prefix + RESET;
    ResetEnds(cut);
    ResetEnds(prefix);
    assert ellipsis == [] ==> cut == prefix + RESET;
    var n := Max(0, maxWidth - (Width(prefix) + Width(ellipsis)));
    StyleConcat(CLEAR, result, Spaces(n));
    GlyphsKeepStyle(StyleAfter(CLEAR, result), Spaces(n));
  }

  lemma ResetEnds(line: Line)
    ensures StyleAfter(CLEAR, line + RESET) == Reset(StyleAfter(CLEAR, line))
    ensures Reset(Reset(StyleAfter(CLEAR, line))) == Reset(StyleAfter(CLEAR, line))
  {
    hide Process, StyleAfter;
    var s := StyleAfter(CLEAR, line);
    StyleConcat(CLEAR, line, RESET);
    PaintOne(s, Code(SGR_RESET));
    SgrResets(s);
  }

  /** What is left of a text that is too wide, and of an ellipsis that is, before padding and the last reset. */
  function CutTo(text: Line, maxWidth: int, ellipsis: Line): Line {
    if maxWidth <= 0 then []
    else if Width(ellipsis) < maxWidth then Kept(text, maxWidth - Width(ellipsis)) + RESET + ellipsis
    else if Width(Kept(ellipsis, maxWidth)) == 0 then []
    else RESET + Kept(ellipsis, maxWidth)
  }

  /**
   * A text that is cut ends in no style at all if and only if no hyperlink is open at the end of what is
   * left: the resets end attributes and colours, but not a hyperlink. When the ellipsis has no codes and
   * there is room for it, that is whether one is open where the text is cut.
   */
  lemma CutLeavesLinkOpen(text: Line, maxWidth: int, ellipsis: Line, pad: bool)
    requires Width(text) > maxWidth
    ensures var r := Truncated(text, maxWidth, ellipsis, pad);
      && StyleAfter(CLEAR, r) == Reset(StyleAfter(CLEAR, CutTo(text, maxWidth, ellipsis)))
      && (StyleAfter(CLEAR, r) == CLEAR <==> StyleAfter(CLEAR, CutTo(text, maxWidth, ellipsis)).link.None?)
    ensures Width(ellipsis) < maxWidth && (forall i :: 0 <= i < |ellipsis| ==> ellipsis[i].Glyph?) ==>
      StyleAfter(CLEAR, CutTo(text, maxWidth, ellipsis)) == Reset(StyleAfter(CLEAR, Kept(text, maxWidth - Width(ellipsis))))
  {
    hide Width, Process, StyleAfter, Kept, Finish;
    NoStyle([]);
    if 0 < maxWidth <= Width(ellipsis) {
      var kept := Kept(ellipsis, maxWidth);
      FinishStyle([], kept, maxWidth, pad);
      assert [] + RESET + kept == RESET + kept;
      GlyphsKeepStyle(CLEAR, Spaces(maxWidth));
    } else if maxWidth > 0 {
      var kept := Kept(text, maxWidth - Width(ellipsis));
      FinishStyle(kept, ellipsis, maxWidth, pad);
      ResetEnds(kept);
      StyleConcat(CLEAR, kept + RESET, ellipsis);
      if forall i :: 0 <= i < |ellipsis| ==> ellipsis[i].Glyph? { GlyphsKeepStyle(Reset(StyleAfter(CLEAR, kept)), ellipsis); }
    }
  }

  const LINK_TO_U := "\U{1B}]8;;u\U{07}"
  const LINKED: Line := [Code(LINK_TO_U), Glyph("a", 1, Other), Glyph("b", 1, Other), Glyph("c", 1, Other), Code(LINK_RESET)]
  const DOTS: Line := [Glyph(".", 1, Other)]

  lemma LinkOpens(s: Style)
    ensures Process(s, LINK_TO_U) == s.(link := Some(Link("", "u", [BEL])))
  {
    assert LINK_TO_U[..4] == LINK_START;
    assert LINK_TO_U[4..|LINK_TO_U| - 1] == ";u";
    assert StartsAt(";u", 0, ";");
  }

  lemma LinkedKept()
    ensures Width(LINKED) == 3 && Width(DOTS) == 1 && Kept(LINKED, 1) == LINKED[..2]
  {
    hide At, Width;
    var l := LINKED;
    AtEnds(l);
    AtEnds(DOTS);
    AtStep(DOTS, 0);
    AtStep(l, 0);
    AtStep(l, 1);
    AtStep(l, 2);
    AtStep(l, 3);
    AtStep(l, 4);
    assert RoomFrom(l, 2, 1) == 2 && RoomFrom(l, 1, 1) == 2;
    assert l[..2][|l[..2]| - 1] == l[1];
  }

  lemma LinkedStyles()
    ensures StyleAfter(CLEAR, LINKED) == CLEAR
    ensures StyleAfter(CLEAR, LINKED[..2]) == CLEAR.(link := Some(Link("", "u", [BEL])))
  {
    hide Process, StyleAfter;
    var (open, letters, rest) := ([Code(LINK_TO_U)], LINKED[1..4], LINKED[1..2]);
    var linked := Process(CLEAR, LINK_TO_U);
    LinkOpens(CLEAR);
    PaintOne(CLEAR, Code(LINK_TO_U));
    StyleConcat(CLEAR, open, rest);
    GlyphsKeepStyle(linked, rest);
    assert LINKED[..2] == open + rest;
    StyleConcat(CLEAR, open, letters);
    GlyphsKeepStyle(linked, letters);
    StyleConcat(CLEAR, open + letters, [Code(LINK_RESET)]);
    PaintOne(linked, Code(LINK_RESET));
    LinkResets(linked);
    assert LINKED == open + letters + [Code(LINK_RESET)];
  }

  /** A linked text that closes its link, cut to two columns: the link stays open behind the ellipsis. */
  lemma LinkedTextCut()
    ensures StyleAfter(CLEAR, LINKED) == CLEAR
    ensures Truncated(LINKED, 2, DOTS, false) == LINKED[..2] + RESET + DOTS + RESET
    ensures StyleAfter(CLEAR, Truncated(LINKED, 2, DOTS, false)) == CLEAR.(link := Some(Link("", "u", [BEL])))
  {
    hide Width, StyleAfter, Kept;
    LinkedKept();
    LinkedStyles();
    CutLeavesLinkOpen(LINKED, 2, DOTS, false);
  }

  /** Nothing that would still fit is left out: the next grapheme would be too much. */
  lemma KeptIsLongest(line: Line, limit: nat)
    requires Width(line) > limit
    ensures var k := Kept(line, limit); exists i ::
      && |k| <= i < |line| && line[i].Glyph? && Width(k) + line[i].width > limit
      && forall j :: |k| <= j < i ==> line[j].Code?
  {
    hide Width, At, TrimCodes, RoomFrom;
    KeptFits(line, limit);
    var n := RoomFrom(line, 0, limit);
    PaintTrimmed(CLEAR, line[..n]);
    AtIs(line, n);
    forall j | |Kept(line, limit)| <= j < n ensures line[j].Code? { assert line[..n][j] == line[j]; }
    assert n < |line| && line[n].Glyph?;
  }

  /* ---------- The operations ---------- */

  /** Whether a scan has kept `result`, with `pending` codes, of the first `i` atoms. */
  ghost predicate Keeping(line: Line, limit: nat, i: nat, keep: bool, result: Line, pending: Line)
    requires i <= |line|
  {
    && (keep <==> i <= RoomFrom(line, 0, limit))
    && if keep then result + pending == line[..i] && result == TrimCodes(line[..i]) else result == Kept(line, limit)
  }

  lemma KeepCode(line: Line, limit: nat, i: nat, keep: bool, result: Line, pending: Line)
    requires i < |line| && line[i].Code? && Keeping(line, limit, i, keep, result, pending)
    ensures Keeping(line, limit, i + 1, keep, result, pending + [line[i]])
  {
    hide TrimCodes, At;
    TrimStep(line, i);
    assert line[..i + 1] == line[..i] + [line[i]];
  }

  lemma KeepGlyph(line: Line, limit: nat, i: nat, keep: bool, result: Line, pending: Line)
    requires i < |line| && line[i].Glyph? && Keeping(line, limit, i, keep, result, pending)
    ensures if keep && At(line, i) + line[i].width <= limit
      then Keeping(line, limit, i + 1, true, result + pending + [line[i]], [])
      else Keeping(line, limit, i + 1, false, result, [])
  {
    hide TrimCodes, At;
    TrimStep(line, i);
    assert line[..i + 1] == line[..i] + [line[i]];
    var n := RoomFrom(line, 0, limit);
    assert i < n ==> At(line, i) + line[i].Columns() <= limit;
  }

  lemma KeepStart(line: Line, limit: nat)
    ensures Keeping(line, limit, 0, true, [], [])
  {
  }

  /** While everything is kept, the width kept is the column reached. */
  lemma KeepWidth(line: Line, limit: nat, i: nat, result: Line, pending: Line)
    requires i <= |line| && Keeping(line, limit, i, true, result, pending)
    ensures Width(result) == At(line, i) <= limit && OnlyCodes(pending)
  {
    hide Width, At, TrimCodes;
    RoomWidth(line, i, limit);
    PaintTrimmed(CLEAR, line[..i]);
    AtIs(line, i);
    TrimRest(line[..i], result, pending);
  }

  lemma AtIs(line: Line, i: nat)
    requires i <= |line|
    ensures At(line, i) == Width(line[..i])
  {
  }

  lemma TrimRest(line: Line, result: Line, pending: Line)
    requires result + pending == line && result == TrimCodes(line)
    ensures OnlyCodes(pending)
  {
    forall i | 0 <= i < |pending| ensures pending[i].Code? { assert pending[i] == line[|result| + i]; }
  }

  /** `truncateFragmentToWidth`: the ASCII case cuts at characters, the other at graphemes. */
  method TruncateFragment(text: Line, maxWidth: nat) returns (result: Line, width: nat)
    ensures result == (if maxWidth == 0 then [] else Kept(text, maxWidth)) && width == Width(result)
  {
    hide Width, Kept, Keeping, At, RoomFrom;
    WidthNone();
    if maxWidth == 0 || text == [] { KeptNone(maxWidth); return [], 0; }
    if AllAscii(text) {
      AsciiKept(text, maxWidth);
      result := text[..if |text| <= maxWidth then |text| else maxWidth];
      AsciiKept(result, maxWidth);
      return result, |result|;
    }
    result, width := [], 0;
    KeepStart(text, maxWidth);
    AtEnds(text);
    var i, pendingAnsi: Line := 0, [];
    while i < |text|
      invariant i <= |text| && width == At(text, i) == Width(result)
      invariant Keeping(text, maxWidth, i, true, result, pendingAnsi)
    {
      AtStep(text, i);
      if text[i].Code? {
        KeepCode(text, maxWidth, i, true, result, pendingAnsi);
        pendingAnsi := pendingAnsi + [text[i]];
      } else {
        KeepGlyph(text, maxWidth, i, true, result, pendingAnsi);
        if width + text[i].width > maxWidth {
          KeepDone(text, maxWidth, i + 1, false, result, []);
          return;
        }
        KeepWidth(text, maxWidth, i, result, pendingAnsi);
        WidthSnoc(result, pendingAnsi, text[i]);
        result := result + pendingAnsi + [text[i]];
        pendingAnsi := [];
        width := width + text[i].width;
      }
      i := i + 1;
    }
    KeepDone(text, maxWidth, i, true, result, pendingAnsi);
  }

  lemma KeepDone(line: Line, limit: nat, i: nat, keep: bool, result: Line, pending: Line)
    requires i <= |line| && Keeping(line, limit, i, keep, result, pending) && (keep ==> i == |line|)
    ensures result == Kept(line, limit)
  {
    hide At, TrimCodes;
  }

  lemma KeptNone(limit: nat)
    ensures Kept([], limit) == []
  {
  }

  /** `truncateToWidth`: the ASCII case and the scan over graphemes keep the same contract. */
  method TruncateToWidth(text: Line, maxWidth: int, ellipsis: Line, pad: bool) returns (result: Line)
    ensures result == Truncated(text, maxWidth, ellipsis, pad)
  {
    hide Width, Kept, At, RoomFrom, Finish, Spaces;
    if maxWidth <= 0 { return []; }
    WidthNone();
    if text == [] { PadNone(maxWidth); return if pad then Spaces(maxWidth) else []; }
    var ellipsisWidth := Width(ellipsis);
    if ellipsisWidth >= maxWidth {
      var textWidth := Width(text);
      if textWidth <= maxWidth { return if pad then text + Spaces(maxWidth - textWidth) else text; }
      var clipped, width := TruncateFragment(ellipsis, maxWidth);
      if width == 0 { return if pad then Spaces(maxWidth) else []; }
      return Finish([], clipped, maxWidth, pad);
    }
    var targetWidth := maxWidth - ellipsisWidth;
    if AllAscii(text) {
      AsciiKept(text, targetWidth);
      if |text| <= maxWidth { return if pad then text + Spaces(maxWidth - |text|) else text; }
      return Finish(text[..targetWidth], ellipsis, maxWidth, pad);
    }
    var prefix, overflowed := ScanGraphemes(text, targetWidth, maxWidth);
    if !overflowed { return if pad then text + Spaces(Max(0, maxWidth - Width(text))) else text; }
    return Finish(prefix, ellipsis, maxWidth, pad);
  }

  lemma PadNone(n: nat)
    ensures Padded([], n) == Spaces(n)
  {
    assert [] + Spaces(n) == Spaces(n);
  }

  /** Keep what fits into `targetWidth`, and go on until the text is known to overflow `maxWidth` or ends. */
  method ScanGraphemes(text: Line, targetWidth: nat, maxWidth: nat) returns (result: Line, overflowed: bool)
    requires targetWidth <= maxWidth
    ensures overflowed <==> Width(text) > maxWidth
    ensures overflowed ==> result == Kept(text, targetWidth)
  {
    hide Width, Kept, Keeping, At, RoomFrom;
    result, overflowed := [], false;
    var pendingAnsi: Line, visibleSoFar, keptWidth, keepContiguousPrefix := [], 0, 0, true;
    WidthNone();
    KeepStart(text, targetWidth);
    AtEnds(text);
    var i := 0;
    while i < |text|
      invariant i <= |text| && visibleSoFar == At(text, i) <= maxWidth
      invariant Keeping(text, targetWidth, i, keepContiguousPrefix, result, pendingAnsi)
      invariant keepContiguousPrefix ==> keptWidth == visibleSoFar
    {
      AtStep(text, i);
      var a := text[i];
      if a.Code? {
        KeepCode(text, targetWidth, i, keepContiguousPrefix, result, pendingAnsi);
        pendingAnsi := pendingAnsi + [a];
        i := i + 1;
        continue;
      }
      KeepGlyph(text, targetWidth, i, keepContiguousPrefix, result, pendingAnsi);
      if keepContiguousPrefix && keptWidth + a.width <= targetWidth {
        result := result + pendingAnsi + [a];
        keptWidth := keptWidth + a.width;
      } else {
        keepContiguousPrefix := false;
      }
      pendingAnsi := [];
      visibleSoFar := visibleSoFar + a.width;
      i := i + 1;
      if visibleSoFar > maxWidth {
        overflowed := true;
        AtMonotone(text, i, |text|);
        KeepDone(text, targetWidth, i, keepContiguousPrefix, result, pendingAnsi);
        return;
      }
    }
  }
}

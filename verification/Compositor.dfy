/** Cutting lines at columns, and laying overlays over them. */
module Compositor {
  import opened AnsiTracker
  import opened Wrap
  import opened WrapProofs
  import opened Columns

  /* ---------- Parts of a line ---------- */

  function TrimCodes(line: Line): (r: Line)
    ensures |r| <= |line| && r == line[..|r|]
    ensures r != [] ==> r[|r| - 1].Glyph?
    ensures forall i :: |r| <= i < |line| ==> line[i].Code?
  {
    if line != [] && line[|line| - 1].Code? then TrimCodes(line[..|line| - 1]) else line
  }

  function Codes(line: Line): (r: Line)
    ensures OnlyCodes(r)
    ensures (forall i :: 0 <= i < |line| ==> line[i].Glyph?) ==> r == []
  {
    if line == [] then [] else
      Codes(line[..|line| - 1]) + if line[|line| - 1].Code? then [line[|line| - 1]] else []
  }

  /** What stands before column `end`, up to its last grapheme. */
  function Before(line: Line, end: nat): Line {
    TrimCodes(line[..Fit(line, end, true)])
  }

  /** What stands from column `from` to column `to`, in the style it has in the line. */
  function After(line: Line, from: int, to: int, strict: bool): Line {
    var (m, n) := (GlyphAt(line, from), Fit(line, to, strict));
    if m < n then ActiveAtoms(StyleAt(line, m)) + line[m..n] else []
  }

  /**
   * Columns `start` to `end` of a line. Codes met inside the range before its first grapheme come out
   * ahead of those that precede the range.
   */
  function Sliced(line: Line, start: nat, end: int, strict: bool): Line {
    var (s, m, n) := (ReachFrom(line, 0, start), GlyphAt(line, start), Fit(line, end, strict));
    if n <= s then []
    else if m < n then line[s..m] + Codes(line[..s]) + line[m..n]
    else line[s..n]
  }

  lemma CodesStep(line: Line, i: nat)
    requires i < |line|
    ensures Codes(line[..i + 1]) == Codes(line[..i]) + if line[i].Code? then [line[i]] else []
  {
    assert line[..i + 1][..i] == line[..i];
  }

  lemma Snoc<T>(s: seq<T>, m: nat, i: nat)
    requires m <= i < |s|
    ensures s[m..i + 1] == s[m..i] + [s[i]]
  {
  }

  lemma Marks(line: Line, start: nat, end: int, strict: bool)
    ensures ReachFrom(line, 0, start) <= GlyphAt(line, start)
    ensures var (s, m, n) := (ReachFrom(line, 0, start), GlyphAt(line, start), Fit(line, end, strict));
      && (forall i :: s <= i < |line| ==> At(line, i) >= start)
      && (forall i :: 0 <= i <= |line| && At(line, i) < start ==> i < s || i == |line|)
  {
    hide At;
    var s := ReachFrom(line, 0, start);
    forall i | s <= i < |line| ensures At(line, i) >= start { AtMonotone(line, s, i); }
  }

  /** What `sliceWithWidth` has collected once it stands at atom `i`. */
  ghost predicate Slicing(line: Line, start: nat, i: nat, text: Line, pending: Line)
    requires i <= |line|
  {
    var (s, m) := (ReachFrom(line, 0, start), GlyphAt(line, start));
    if i <= s then text == [] && pending == Codes(line[..i])
    else if i <= m then text == line[s..i] && pending == Codes(line[..s])
    else s <= m && text == line[s..m] + Codes(line[..s]) + line[m..i] && pending == []
  }

  lemma SliceCode(line: Line, start: nat, i: nat, text: Line, pending: Line)
    requires i < |line| && line[i].Code? && Slicing(line, start, i, text, pending)
    ensures if At(line, i) >= start then Slicing(line, start, i + 1, text + [line[i]], pending)
      else Slicing(line, start, i + 1, text, pending + [line[i]])
  {
    hide At, Codes;
    Marks(line, start, 0, true);
    CodesStep(line, i);
    var (s, m) := (ReachFrom(line, 0, start), GlyphAt(line, start));
    assert i < s <==> At(line, i) < start;
    if i == s { assert line[..s] == line[..i] && line[s..i + 1] == [line[i]]; }
    else if s < i { Snoc(line, s, i); if m <= i { Snoc(line, m, i); } }
  }

  lemma SliceGlyph(line: Line, start: nat, i: nat, text: Line, pending: Line)
    requires i < |line| && line[i].Glyph? && Slicing(line, start, i, text, pending)
    ensures if At(line, i) >= start then Slicing(line, start, i + 1, text + pending + [line[i]], [])
      else Slicing(line, start, i + 1, text, pending)
  {
    hide At, Codes;
    Marks(line, start, 0, true);
    CodesStep(line, i);
    var (s, m) := (ReachFrom(line, 0, start), GlyphAt(line, start));
    assert i < s <==> At(line, i) < start;
    assert s <= i ==> m <= i;
    if m <= i { Snoc(line, m, i); }
    if m == i { assert line[m..m + 1] == [line[m]]; }
  }

  /** `sliceWithWidth`. */
  method SliceWithWidth(line: Line, start: nat, length: int, strict: bool) returns (text: Line, width: nat)
    ensures text == if length <= 0 then [] else Sliced(line, start, start + length, strict)
    ensures width == Width(text)
  {
    hide At, Width, Codes, Slicing;
    text, width := [], 0;
    WidthNone();
    if length <= 0 { return; }
    var end := start + length;
    var currentCol, i, pending: Line := 0, 0, [];
    AtEnds(line);
    SlicingStart(line, start);
    ghost var kept := 0;
    while i < |line|
      invariant i <= |line| && kept == i && kept <= Fit(line, end, strict) && currentCol == At(line, i) < end
      invariant Slicing(line, start, kept, text, pending)
      invariant width == Width(text)
    {
      AtStep(line, i);
      if line[i].Code? {
        SliceCode(line, start, i, text, pending);
        if currentCol >= start {
          WidthSnoc(text, [], line[i]);
          text := text + [line[i]];
        } else {
          pending := pending + [line[i]];
        }
        i := i + 1;
        kept := i;
        continue;
      }
      var w := line[i].width;
      SliceGlyph(line, start, i, text, pending);
      assert Full(line, i, end, strict) <==> strict && currentCol + w > end;
      if start <= currentCol < end && (!strict || currentCol + w <= end) {
        SlicingPending(line, start, i, text, pending);
        WidthSnoc(text, pending, line[i]);
        text := text + pending + [line[i]];
        pending := [];
        width := width + w;
      }
      kept := if strict && currentCol + w > end then i else i + 1;
      currentCol := currentCol + w;
      i := i + 1;
      if currentCol >= end {
        FitIs(line, kept, end, strict);
        break;
      }
    }
    SliceDone(line, start, end, strict, text, pending);
  }

  lemma SliceDone(line: Line, start: nat, end: int, strict: bool, text: Line, pending: Line)
    requires Slicing(line, start, Fit(line, end, strict), text, pending)
    ensures text == Sliced(line, start, end, strict)
  {
    hide At, Codes, Fit;
    Marks(line, start, end, strict);
  }

  lemma SlicingStart(line: Line, start: nat)
    ensures Slicing(line, start, 0, [], [])
  {
  }

  /** Only codes wait. */
  lemma SlicingPending(line: Line, start: nat, i: nat, text: Line, pending: Line)
    requires i <= |line| && Slicing(line, start, i, text, pending)
    ensures OnlyCodes(pending)
  {
  }

  lemma WidthNone()
    ensures Width([]) == 0
  {
  }

  lemma WidthSnoc(text: Line, pending: Line, a: Atom)
    requires OnlyCodes(pending)
    ensures Width(text + pending + [a]) == Width(text) + a.Columns()
    ensures Width(text + [a]) == Width(text) + a.Columns()
  {
    WidthConcat(text + pending, [a]);
    WidthConcat(text, pending);
    WidthConcat(text, [a]);
    CodesShowNothing(CLEAR, pending);
    assert [a][1..] == [];
  }

  /* ---------- Both sides of an overlay ---------- */

  lemma TrimStep(line: Line, i: nat)
    requires i < |line|
    ensures line[i].Code? ==> TrimCodes(line[..i + 1]) == TrimCodes(line[..i])
    ensures line[i].Glyph? ==> TrimCodes(line[..i + 1]) == line[..i + 1]
  {
    assert line[..i + 1][..i] == line[..i];
  }

  /** What has been collected before column `end` once the scan stands at atom `i`. */
  ghost predicate Leading(line: Line, end: nat, i: nat, before: Line, pending: Line)
    requires i <= |line|
  {
    if i <= Fit(line, end, true) then before + pending == line[..i] && before == TrimCodes(line[..i])
    else before == Before(line, end)
  }

  lemma LeadingStep(line: Line, end: nat, i: nat, before: Line, pending: Line)
    requires i < |line| && Leading(line, end, i, before, pending)
    ensures line[i].Code? && At(line, i) < end ==> Leading(line, end, i + 1, before, pending + [line[i]])
    ensures line[i].Glyph? && At(line, i) < end && At(line, i) + line[i].width <= end ==>
      Leading(line, end, i + 1, before + pending + [line[i]], [])
    ensures Full(line, i, end, true) ==> Leading(line, end, i + 1, before, pending)
  {
    hide At, TrimCodes;
    var n := Fit(line, end, true);
    TrimStep(line, i);
    assert line[..i + 1] == line[..i] + [line[i]];
    if i >= n {
      AtMonotone(line, n, i);
      if n < i { AtStep(line, n); AtMonotone(line, n + 1, i); }
      FitIs(line, n, end, true);
    }
  }

  /** What has been collected from column `from` on once the scan stands at atom `i`. */
  ghost predicate Trailing(line: Line, from: int, to: int, strict: bool, i: nat, after: Line, started: bool)
    requires i <= |line|
  {
    var (m, n) := (GlyphAt(line, from), Fit(line, to, strict));
    && (started <==> m < i && m < n)
    && (from < to ==> i <= n || (n < |line| && i == n + 1))
    && after == if started then ActiveAtoms(StyleAt(line, m)) + line[m..if i <= n then i else n] else []
  }

  lemma TrailingNone(line: Line, from: int, to: int, strict: bool)
    requires to <= from
    ensures Fit(line, to, strict) <= GlyphAt(line, from)
  {
    var m := GlyphAt(line, from);
    assert m < |line| ==> Full(line, m, to, strict);
  }

  lemma TrailingCode(line: Line, from: int, to: int, strict: bool, i: nat, after: Line, started: bool)
    requires i < |line| && line[i].Code? && Trailing(line, from, to, strict, i, after, started)
    requires from < to ==> At(line, i) < to
    ensures Trailing(line, from, to, strict, i + 1,
      if from <= At(line, i) < to && started then after + [line[i]] else after, started)
  {
    hide At, ActiveAtoms, StyleAt;
    var (m, n) := (GlyphAt(line, from), Fit(line, to, strict));
    if to <= from { TrailingNone(line, from, to, strict); }
    else {
      if i > n { AtStep(line, n); }
      if started { AtMonotone(line, m, i); Snoc(line, m, i); }
    }
  }

  lemma TrailingGlyph(line: Line, from: int, to: int, strict: bool, i: nat, after: Line, started: bool)
    requires i < |line| && line[i].Glyph? && Trailing(line, from, to, strict, i, after, started)
    requires from < to ==> At(line, i) < to
    ensures if from <= At(line, i) < to && (!strict || At(line, i) + line[i].width <= to)
      then Trailing(line, from, to, strict, i + 1,
        (if started then after else ActiveAtoms(StyleAt(line, i))) + [line[i]], true)
      else Trailing(line, from, to, strict, i + 1, after, started)
  {
    hide At, ActiveAtoms, StyleAt;
    var (m, n) := (GlyphAt(line, from), Fit(line, to, strict));
    if i <= n && Full(line, i, to, strict) { FitIs(line, i, to, strict); }
    if to <= from { TrailingNone(line, from, to, strict); }
    else {
      if i > n { AtStep(line, n); }
      if m <= i { AtMonotone(line, m, i); Snoc(line, m, i); }
    }
  }

  lemma TrailingDone(line: Line, from: int, to: int, strict: bool, i: nat, after: Line, started: bool)
    requires i <= |line| && Trailing(line, from, to, strict, i, after, started)
    requires i == |line| || to <= from || At(line, i) >= to
    ensures after == After(line, from, to, strict)
  {
    hide At, ActiveAtoms, StyleAt;
    if i < |line| && i <= Fit(line, to, strict) && to > from { FitIs(line, i, to, strict); }
    if to <= from { TrailingNone(line, from, to, strict); }
  }

  /**
   * `extractSegments`: in one pass over the line, what stands before `beforeEnd`, and what stands from
   * `afterStart` on, opened in the style it has in the line.
   */
  method ExtractSegments(line: Line, beforeEnd: nat, afterStart: nat, afterLen: int, strictAfter: bool)
    returns (before: Line, beforeWidth: nat, after: Line, afterWidth: nat)
    requires beforeEnd <= afterStart
    ensures before == Before(line, beforeEnd) && beforeWidth == Width(before)
    ensures after == After(line, afterStart, afterStart + afterLen, strictAfter) && afterWidth == Width(after)
  {
    hide At, Width, Leading, Trailing, Process, StyleAfter, Before, After, Fit, GlyphAt, StyleAt, ActiveAtoms;
    before, beforeWidth, after, afterWidth := [], 0, [], 0;
    var currentCol, i, pendingBefore: Line, afterStarted, style := 0, 0, [], false, CLEAR;
    var afterEnd := afterStart + afterLen;
    SegmentsStart(line, beforeEnd, afterStart, afterEnd, strictAfter);
    AtEnds(line);
    while i < |line|
      invariant i <= |line| && currentCol == At(line, i) && style == StyleAt(line, i)
      invariant afterLen > 0 ==> currentCol < afterEnd
      invariant Leading(line, beforeEnd, i, before, pendingBefore) && OnlyCodes(pendingBefore)
      invariant Trailing(line, afterStart, afterEnd, strictAfter, i, after, afterStarted)
      invariant !afterStarted ==> after == []
      invariant beforeWidth == Width(before) && afterWidth == Width(after)
    {
      AtStep(line, i);
      StyleStep(line, i);
      LeadingStep(line, beforeEnd, i, before, pendingBefore);
      var a := line[i];
      if a.Code? {
        TrailingCode(line, afterStart, afterEnd, strictAfter, i, after, afterStarted);
        WidthSnoc(after, [], a);
        style := Process(style, a.code);
        if currentCol < beforeEnd {
          pendingBefore := pendingBefore + [a];
        } else if afterStart <= currentCol < afterEnd && afterStarted {
          after := after + [a];
        }
        i := i + 1;
        continue;
      }
      var w := a.width;
      TrailingGlyph(line, afterStart, afterEnd, strictAfter, i, after, afterStarted);
      WidthSnoc(before, pendingBefore, a);
      if currentCol < beforeEnd && currentCol + w <= beforeEnd {
        before := before + pendingBefore + [a];
        pendingBefore := [];
        beforeWidth := beforeWidth + w;
      } else if afterStart <= currentCol < afterEnd {
        if !strictAfter || currentCol + w <= afterEnd {
          if !afterStarted {
            WidthActive(style);
            assert after + ActiveAtoms(style) == ActiveAtoms(style);
            after := after + ActiveAtoms(style);
            afterStarted := true;
          }
          WidthSnoc(after, [], a);
          after := after + [a];
          afterWidth := afterWidth + w;
        }
      }
      currentCol := currentCol + w;
      i := i + 1;
      if if afterLen <= 0 then currentCol >= beforeEnd else currentCol >= afterEnd { break; }
    }
    SegmentsDone(line, beforeEnd, afterStart, afterEnd, i, before, pendingBefore);
    TrailingDone(line, afterStart, afterEnd, strictAfter, i, after, afterStarted);
  }

  lemma SegmentsStart(line: Line, end: nat, from: int, to: int, strict: bool)
    ensures Leading(line, end, 0, [], []) && Trailing(line, from, to, strict, 0, [], false)
    ensures StyleAt(line, 0) == CLEAR && Width([]) == 0
  {
  }

  lemma WidthActive(s: Style)
    ensures OnlyCodes(ActiveAtoms(s)) && Width(ActiveAtoms(s)) == 0
  {
    CodesShowNothing(CLEAR, ActiveAtoms(s));
  }

  lemma StyleStep(line: Line, i: nat)
    requires i < |line|
    ensures StyleAt(line, i + 1) == Next(StyleAt(line, i), line[i])
  {
    hide Process, Next, StyleAfter;
    Snoc(line, 0, i);
    assert line[0..i] == line[..i] && line[0..i + 1] == line[..i + 1];
    StyleConcat(CLEAR, line[..i], [line[i]]);
    PaintOne(StyleAt(line, i), line[i]);
  }

  lemma SegmentsDone(line: Line, end: nat, from: int, to: int, i: nat, before: Line, pending: Line)
    requires i <= |line| && Leading(line, end, i, before, pending) && end <= from
    requires i == |line| || (if to <= from then At(line, i) >= end else At(line, i) >= to)
    ensures before == Before(line, end)
  {
    hide At, TrimCodes;
    if i < |line| && i <= Fit(line, end, true) { FitIs(line, i, end, true); }
  }
}

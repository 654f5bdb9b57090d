/** When wrapped lines keep to the limit, and what they never leave switched on. */
module WrapBounds {
  import opened Wrappers
  import opened Strings
  import opened AnsiTracker
  import opened AnsiRoundTrip
  import opened Wrap
  import opened WrapProofs

  /* ---------- Lines keep to the limit ---------- */

  /** No grapheme, and no run of white space, is wider than the limit. */
  ghost predicate Wrappable(line: Line, limit: nat) {
    && (forall i :: 0 <= i < |line| ==> line[i].Columns() <= limit)
    && (forall i, j :: 0 <= i <= j <= |line| && AllBlank(line[i..j]) ==> Width(line[i..j]) <= limit)
  }

  ghost predicate AllFit(lines: seq<Line>, limit: nat) {
    forall i :: 0 <= i < |lines| ==> Width(lines[i]) <= limit
  }

  ghost predicate BreakFits(b: Breaking, limit: nat) {
    b.width == Width(b.current) <= limit && AllFit(b.lines, limit)
  }

  ghost predicate Narrow(line: Line, limit: nat) {
    forall i :: 0 <= i < |line| ==> line[i].Columns() <= limit
  }

  lemma CodesAreNarrow(s: Style)
    ensures OnlyCodes(ActiveAtoms(s)) && Width(ActiveAtoms(s)) == 0
    ensures OnlyCodes(ResetAtoms(s)) && Width(ResetAtoms(s)) == 0
  {
    CodesShowNothing(CLEAR, ActiveAtoms(s));
    CodesShowNothing(CLEAR, ResetAtoms(s));
  }

  lemma WidthSnoc(line: Line, a: Atom)
    ensures Width(line + [a]) == Width(line) + a.Columns()
  {
    WidthConcat(line, [a]);
    assert [a][1..] == [];
  }

  lemma {:induction false} BreakAllFits(b: Breaking, word: Line, limit: nat)
    requires BreakFits(b, limit) && Narrow(word, limit)
    ensures BreakFits(BreakAll(b, word, limit), limit)
    decreases |word|
  {
    hide ActiveAtoms, ResetAtoms, Width, OnlyCodes, Process;
    if word != [] {
      CodesAreNarrow(b.style);
      WidthConcat(b.current, ResetAtoms(b.style));
      WidthSnoc(b.current, word[0]);
      WidthSnoc(ActiveAtoms(b.style), word[0]);
      BreakAllFits(BreakAtom(b, word[0], limit), word[1..], limit);
    }
  }

  ghost predicate WrapFits(w: Wrapping, limit: nat) {
    w.length == Width(w.current) <= limit && AllFit(w.lines, limit)
  }

  lemma WrapTokenFits(w: Wrapping, token: Line, limit: nat)
    requires WrapFits(w, limit) && Narrow(token, limit)
    requires AllBlank(token) ==> Width(token) <= limit
    ensures WrapFits(WrapToken(w, token, limit), limit)
  {
    hide ActiveAtoms, ResetAtoms, Width, OnlyCodes, AllBlank, BreakAll, StyleAfter, TrimEnd, Narrow;
    CodesAreNarrow(w.style);
    WidthConcat(w.current, ResetAtoms(w.style));
    if Width(token) > limit {
      var b := Breaking([], ActiveAtoms(w.style), 0, w.style);
      BreakAllFits(b, token, limit);
    } else {
      TrimShowsSame(w.current);
      WidthConcat(TrimEnd(w.current), ResetAtoms(w.style));
      WidthConcat(ActiveAtoms(w.style), token);
      WidthConcat(w.current, token);
    }
  }

  /** Every token is a stretch of the line it came from. */
  lemma TokenIsStretch(tokens: seq<Line>)
    requires tokens != []
    ensures var line := Concat(tokens); var t := tokens[0];
      |t| <= |line| && line[0..|t|] == t && line[|t|..] == Concat(tokens[1..])
  {
  }

  lemma {:induction false} WrapAllFits(w: Wrapping, tokens: seq<Line>, limit: nat)
    requires WrapFits(w, limit) && Wrappable(Concat(tokens), limit)
    ensures WrapFits(WrapAll(w, tokens, limit), limit)
    decreases |tokens|
  {
    hide Width, AllBlank, WrapToken, WrapFits;
    if tokens != [] {
      var line := Concat(tokens);
      var t := tokens[0];
      TokenIsStretch(tokens);
      assert forall i :: 0 <= i < |t| ==> t[i] == line[i];
      assert AllBlank(line[0..|t|]) ==> Width(line[0..|t|]) <= limit;
      WrapTokenFits(w, t, limit);
      RestWrappable(line, |t|, limit);
      WrapAllFits(WrapToken(w, t, limit), tokens[1..], limit);
    }
  }

  lemma RestWrappable(line: Line, n: nat, limit: nat)
    requires n <= |line| && Wrappable(line, limit)
    ensures Wrappable(line[n..], limit)
  {
    hide Width, AllBlank;
    var rest := line[n..];
    forall i, j | 0 <= i <= j <= |rest| && AllBlank(rest[i..j]) ensures Width(rest[i..j]) <= limit {
      assert rest[i..j] == line[n + i..n + j];
    }
  }

  /** Codes in front of a line leave it as wrappable as it was. */
  lemma PrefixWrappable(prefix: Line, line: Line, limit: nat)
    requires OnlyCodes(prefix) && Wrappable(line, limit)
    ensures Wrappable(prefix + line, limit)
  {
    var whole := prefix + line;
    forall i, j | 0 <= i <= j <= |whole| && AllBlank(whole[i..j]) ensures Width(whole[i..j]) <= limit {
      if i < j {
        assert whole[i..j][0].IsBlank();
        assert i >= |prefix|;
        assert whole[i..j] == line[i - |prefix|..j - |prefix|];
      }
    }
  }

  lemma WrapSingleFits(line: Line, limit: nat)
    requires Wrappable(line, limit)
    ensures AllFit(WrapSingleLine(line, limit), limit)
  {
    hide Width, WrapAll, SplitIntoTokens, Wrappable, TrimEnd;
    if Width(line) > limit {
      SeeNothing(CLEAR);
      TokensRejoin(line);
      var w := WrapAll(NO_LINES, SplitIntoTokens(line), limit);
      WrapAllFits(NO_LINES, SplitIntoTokens(line), limit);
      var all := if w.current == [] then w.lines else w.lines + [w.current];
      forall i | 0 <= i < |all| ensures Width(TrimEnd(all[i])) <= limit { TrimShowsSame(all[i]); }
    }
  }

  lemma {:induction false} WrapFromFits(done: seq<Line>, style: Style, text: seq<Line>, limit: nat)
    requires AllFit(done, limit)
    requires forall i :: 0 <= i < |text| ==> Wrappable(text[i], limit)
    ensures AllFit(WrapFrom(done, style, text, limit), limit)
    decreases |text|
  {
    hide Width, WrapSingleLine, Wrappable, ActiveAtoms, ResetAtoms, StyleAfter;
    if text != [] {
      var prefix := if done == [] then [] else ActiveAtoms(style);
      CodesAreNarrow(style);
      PrefixWrappable(prefix, text[0], limit);
      WrapSingleFits(prefix + text[0], limit);
      WrapFromFits(done + WrapSingleLine(prefix + text[0], limit), StyleAfter(style, text[0]), text[1..], limit);
    }
  }

  /** Wrapped lines keep to the limit, if no grapheme and no run of white space is wider. */
  lemma WrapIsBounded(text: seq<Line>, limit: nat)
    requires forall i :: 0 <= i < |text| ==> Wrappable(text[i], limit)
    ensures AllFit(WrapText(text, limit), limit)
  {
    hide Wrappable, WrapFrom;
    WrapFromFits([], CLEAR, text, limit);
  }

  /* ---------- When they cannot ---------- */

  lemma {:induction false} SeenIsThere(s: Style, line: Line, x: Shown)
    requires x in See(s, line)
    ensures x.glyph in line
    decreases |line|
  {
    hide Process;
    if line[0].Code? {
      SeenIsThere(Process(s, line[0].code), line[1..], x);
    } else if x in See(s, line[1..]) {
      SeenIsThere(s, line[1..], x);
    }
  }

  lemma {:induction false} ThereIsSeen(s: Style, line: Line, g: Atom)
    requires g in line && g.Glyph? && !g.IsBlank()
    ensures exists x :: x in See(s, line) && x.glyph == g
    decreases |line|
  {
    hide Process;
    if line[0] == g {
      assert Shown(g, s) in See(s, line);
    } else {
      var s' := if line[0].Code? then Process(s, line[0].code) else s;
      ThereIsSeen(s', line[1..], g);
      var x :| x in See(s', line[1..]) && x.glyph == g;
      assert x in See(s, line);
    }
  }

  lemma {:induction false} WiderThanItsGlyphs(line: Line, g: Atom)
    requires g in line
    ensures Width(line) >= g.Columns()
  {
    if line[0] != g { WiderThanItsGlyphs(line[1..], g); }
  }

  lemma {:induction false} SeenInSomeLine(lines: seq<Line>, x: Shown)
    requires x in SeeLines(lines)
    ensures exists k :: 0 <= k < |lines| && x in See(CLEAR, lines[k])
  {
    hide See;
    if x in See(CLEAR, lines[0]) {
    } else {
      SeenInSomeLine(lines[1..], x);
      var k :| 0 <= k < |lines[1..]| && x in See(CLEAR, lines[1..][k]);
      assert x in See(CLEAR, lines[k + 1]);
    }
  }

  lemma {:induction false} SeenInText(s: Style, text: seq<Line>, i: nat, g: Atom)
    requires i < |text| && g in text[i] && g.Glyph? && !g.IsBlank()
    ensures exists x :: x in SeeText(s, text) && x.glyph == g
    decreases |text|
  {
    hide See, StyleAfter;
    if i == 0 {
      ThereIsSeen(s, text[0], g);
      var x :| x in See(s, text[0]) && x.glyph == g;
      assert x in SeeText(s, text);
    } else {
      SeenInText(StyleAfter(s, text[0]), text[1..], i - 1, g);
      var x :| x in SeeText(StyleAfter(s, text[0]), text[1..]) && x.glyph == g;
      assert x in SeeText(s, text);
    }
  }

  /** A grapheme wider than the limit always makes some line too wide. */
  lemma WideGraphemeOverflows(text: seq<Line>, limit: nat, i: nat, g: Atom)
    requires forall k :: 0 <= k < |text| ==> Readable(text[k])
    requires i < |text| && g in text[i] && g.Glyph? && !g.IsBlank() && g.width > limit
    ensures !AllFit(WrapText(text, limit), limit)
  {
    hide See, SeeText, SeeLines, WrapText, Width, Readable;
    WrapPreservesStyle(text, limit);
    SeenInText(CLEAR, text, i, g);
    var x :| x in SeeText(CLEAR, text) && x.glyph == g;
    var lines := WrapText(text, limit);
    SeenInSomeLine(lines, x);
    var k :| 0 <= k < |lines| && x in See(CLEAR, lines[k]);
    SeenIsThere(CLEAR, lines[k], x);
    WiderThanItsGlyphs(lines[k], g);
  }

  /* ---------- Nothing bleeds past a soft break ---------- */

  /** A line after which neither underline nor a hyperlink is on. */
  ghost predicate Closed(line: Line) {
    !StyleAfter(CLEAR, line).on.underline && StyleAfter(CLEAR, line).link == None
  }

  lemma UnderlineOff(s: Style)
    ensures Process(s, UNDERLINE_OFF) == s.(on := s.on.(underline := false))
  {
    var code := UNDERLINE_OFF;
    assert code[1] != LINK_START[1];
    assert ParamsEnd(code, 2) == 4;
    assert code[2..4] == "24";
    SplitNone("24", ';');
    assert "24"[..1] == "2" && "2"[..0] == "";
    assert DigitsValue("24") == 24;
    assert ["24"][1..] == [];
  }

  lemma CloseTakesLinkOff(s: Style, l: Link)
    requires LinkOk(l)
    ensures Process(s, FormatClose(l.terminator)) == s.(link := None)
  {
    var code := FormatClose(l.terminator);
    hide IsCode, Process;
    var open := FormatLink(l);
    assert l.terminator == [BEL] || l.terminator == ST;
    assert LINK_START <= code && code == LINK_START + (";" + l.terminator);
    var body := ";";
    assert code[4..5] == body;
    assert body[0..1] == ";";
    IndexOfIs(body, ";", 0);
    assert body[1..] == "";
    ClosesLink(s, code);
  }

  lemma ClosesLink(s: Style, code: string)
    requires ParseLink(code).Closes?
    ensures Process(s, code) == s.(link := None)
  {
    hide ParseLink;
  }

  lemma ResetCloses(line: Line)
    requires WellFormed(StyleAfter(CLEAR, line))
    ensures Closed(line + ResetAtoms(StyleAfter(CLEAR, line)))
  {
    hide Process, LinkOk, ForegroundOk, BackgroundOk, FormatClose;
    var s := StyleAfter(CLEAR, line);
    var first := if s.on.underline then [Code(UNDERLINE_OFF)] else [];
    var second := if s.link.Some? then [Code(FormatClose(s.link.value.terminator))] else [];
    StyleConcat(CLEAR, line, first + second);
    StyleConcat(s, first, second);
    UnderlineOff(s);
    var t := s.(on := s.on.(underline := false));
    assert StyleAfter(s, first) == t;
    if s.link.Some? { CloseTakesLinkOff(t, s.link.value); }
  }

  ghost predicate AllClosed(lines: seq<Line>) {
    forall i :: 0 <= i < |lines| ==> Closed(lines[i])
  }

  lemma {:induction false} BreakAllCloses(b: Breaking, word: Line, limit: nat)
    requires SoundBreak(b) && Readable(word) && AllClosed(b.lines)
    ensures AllClosed(BreakAll(b, word, limit).lines)
    decreases |word|
  {
    hide Closed, StyleAfter, WellFormed, Width, ResetAtoms, ActiveAtoms, Process, IsCode;
    if word != [] {
      ResetCloses(b.current);
      BreakAtomShows(b, word[0], limit);
      BreakAllCloses(BreakAtom(b, word[0], limit), word[1..], limit);
    }
  }

  lemma WrapTokenCloses(w: Wrapping, token: Line, limit: nat)
    requires Sound(w) && Readable(token) && AllClosed(w.lines)
    ensures AllClosed(WrapToken(w, token, limit).lines)
  {
    hide Closed, StyleAfter, WellFormed, Width, ResetAtoms, ActiveAtoms, BreakAll, Readable, AllBlank, TrimEnd, OnlyCodes;
    ResetCloses(w.current);
    if Width(token) > limit && !AllBlank(token) {
      ActiveReopens(w.style);
      CodesShowNothing(CLEAR, ActiveAtoms(w.style));
      BreakAllCloses(Breaking([], ActiveAtoms(w.style), 0, w.style), token, limit);
    } else {
      TrimShowsSame(w.current);
      ResetCloses(TrimEnd(w.current));
    }
  }

  lemma {:induction false} WrapAllCloses(w: Wrapping, tokens: seq<Line>, limit: nat)
    requires Sound(w) && Readable(Concat(tokens)) && AllClosed(w.lines)
    ensures AllClosed(WrapAll(w, tokens, limit).lines)
    decreases |tokens|
  {
    hide Closed, Sound, Width, AllBlank, WrapToken, IsCode;
    if tokens != [] {
      var t := tokens[0];
      TokenIsStretch(tokens);
      var line := Concat(tokens);
      assert Readable(t) by { assert forall i :: 0 <= i < |t| ==> t[i] == line[i]; }
      assert Readable(Concat(tokens[1..])) by {
        assert forall i :: 0 <= i < |Concat(tokens[1..])| ==> Concat(tokens[1..])[i] == line[|t| + i];
      }
      WrapTokenCloses(w, t, limit);
      if Width(t) > limit && !AllBlank(t) { WrapLongShows(w, t, limit); } else { WrapFittingShows(w, t, limit); }
      WrapAllCloses(WrapToken(w, t, limit), tokens[1..], limit);
    }
  }

  /** At every soft break underline and hyperlink are off, so neither reaches the padding that follows. */
  lemma SoftBreaksAreClosed(line: Line, limit: nat, i: nat)
    requires Readable(line) && i + 1 < |WrapSingleLine(line, limit)|
    ensures Closed(WrapSingleLine(line, limit)[i])
  {
    hide Width, WrapAll, SplitIntoTokens, Readable, StyleAfter, Concat, TrimEnd;
    SeeNothing(CLEAR);
    TokensRejoin(line);
    var w := WrapAll(NO_LINES, SplitIntoTokens(line), limit);
    WrapAllCloses(NO_LINES, SplitIntoTokens(line), limit);
    TrimShowsSame(w.lines[i]);
  }
}

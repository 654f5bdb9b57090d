/**
 * Wrapping shows the same graphemes in the same style, closes what must not bleed, and keeps to the
 * limit.
 */
module WrapProofs {
  import opened Wrappers
  import opened Strings
  import opened AnsiTracker
  import opened AnsiRoundTrip
  import opened Wrap

  /* ---------- What a reader sees ---------- */

  datatype Shown = Shown(glyph: Atom, style: Style)

  /** The graphemes of `line` other than white space, each in the style it is displayed in when reading starts in `s`. */
  function See(s: Style, line: Line): seq<Shown>
    decreases |line|
  {
    if line == [] then []
    else if line[0].Code? then See(Process(s, line[0].code), line[1..])
    else (if line[0].IsBlank() then [] else [Shown(line[0], s)]) + See(s, line[1..])
  }

  /** Each line displayed on its own, from a clean state. */
  function SeeLines(lines: seq<Line>): seq<Shown> {
    if lines == [] then [] else See(CLEAR, lines[0]) + SeeLines(lines[1..])
  }

  /** The input lines read one after the other, the style carrying over. */
  function SeeText(s: Style, text: seq<Line>): seq<Shown>
    decreases |text|
  {
    if text == [] then [] else See(s, text[0]) + SeeText(StyleAfter(s, text[0]), text[1..])
  }

  /** The codes of the input are whole escape codes. */
  ghost predicate Readable(line: Line) {
    forall i :: 0 <= i < |line| && line[i].Code? ==> IsCode(line[i].code)
  }

  function Concat(lines: seq<Line>): Line {
    if lines == [] then [] else lines[0] + Concat(lines[1..])
  }

  /* ---------- Concatenation ---------- */

  lemma {:induction false} WidthConcat(a: Line, b: Line)
    ensures Width(a + b) == Width(a) + Width(b)
  {
    if a == [] { assert a + b == b; } else { WidthConcat(a[1..], b); assert (a + b)[1..] == a[1..] + b; }
  }

  lemma {:induction false} StyleConcat(s: Style, a: Line, b: Line)
    ensures StyleAfter(s, a + b) == StyleAfter(StyleAfter(s, a), b)
    decreases |a|
  {
    hide Process;
    if a == [] {
      assert a + b == b;
    } else {
      StyleConcat(if a[0].Code? then Process(s, a[0].code) else s, a[1..], b);
      assert (a + b)[1..] == a[1..] + b && (a + b)[0] == a[0];
    }
  }

  lemma {:induction false} SeeConcat(s: Style, a: Line, b: Line)
    ensures See(s, a + b) == See(s, a) + See(StyleAfter(s, a), b)
    decreases |a|
  {
    hide Process;
    if a == [] {
      assert a + b == b;
      assert [] + See(s, b) == See(s, b);
    } else {
      SeeConcat(if a[0].Code? then Process(s, a[0].code) else s, a[1..], b);
      assert (a + b)[1..] == a[1..] + b && (a + b)[0] == a[0];
      if !a[0].Code? {
        var head: seq<Shown> := if a[0].IsBlank() then [] else [Shown(a[0], s)];
        assert head + (See(s, a[1..]) + See(StyleAfter(s, a), b)) == (head + See(s, a[1..])) + See(StyleAfter(s, a), b);
      }
    }
  }

  lemma {:induction false} SeeLinesConcat(a: seq<Line>, b: seq<Line>)
    ensures SeeLines(a + b) == SeeLines(a) + SeeLines(b)
  {
    hide See;
    if a == [] {
      assert a + b == b;
    } else {
      SeeLinesConcat(a[1..], b);
      assert (a + b)[1..] == a[1..] + b;
    }
  }

  lemma SeeLinesOne(line: Line)
    ensures SeeLines([line]) == See(CLEAR, line)
  {
    hide See;
    assert [line][1..] == [];
    assert See(CLEAR, line) + [] == See(CLEAR, line);
  }

  lemma {:induction false} ConcatConcat(a: seq<Line>, b: seq<Line>)
    ensures Concat(a + b) == Concat(a) + Concat(b)
  {
    if a == [] {
      assert a + b == b;
    } else {
      ConcatConcat(a[1..], b);
      assert (a + b)[1..] == a[1..] + b;
      assert a[0] + (Concat(a[1..]) + Concat(b)) == (a[0] + Concat(a[1..])) + Concat(b);
    }
  }

  lemma ConcatSnoc(a: seq<Line>, t: Line)
    ensures Concat(a + [t]) == Concat(a) + t
  {
    ConcatConcat(a, [t]);
    assert [t][1..] == [];
    assert t + [] == t;
  }

  lemma ConcatLast(a: seq<Line>)
    requires a != []
    ensures Concat(a) == Concat(a[..|a| - 1]) + a[|a| - 1]
  {
    ConcatSnoc(a[..|a| - 1], a[|a| - 1]);
    assert a == a[..|a| - 1] + [a[|a| - 1]];
  }

  /* ---------- Codes the wrapper adds ---------- */

  ghost predicate OnlyCodes(line: Line) {
    forall i :: 0 <= i < |line| ==> line[i].Code?
  }

  lemma {:induction false} CodesShowNothing(s: Style, line: Line)
    requires OnlyCodes(line)
    ensures See(s, line) == [] && Width(line) == 0
    decreases |line|
  {
    if line != [] { CodesShowNothing(Process(s, line[0].code), line[1..]); }
  }

  /** The codes that reopen a style do reopen it. */
  lemma ActiveReopens(s: Style)
    requires WellFormed(s)
    ensures StyleAfter(CLEAR, ActiveAtoms(s)) == s
    ensures OnlyCodes(ActiveAtoms(s)) && Readable(ActiveAtoms(s))
  {
    hide WellFormed, Process;
    var sgr := if SgrText(s) != "" then [Code(SgrText(s))] else [];
    var link := if s.link.Some? then [Code(LinkText(s))] else [];
    StyleConcat(CLEAR, sgr, link);
    SgrReopens(s);
    if s.link.Some? { LinkReopens(s); }
    assert StyleAfter(CLEAR, sgr) == s.(link := None);
  }

  lemma SgrReopens(s: Style)
    requires WellFormed(s)
    ensures if SgrText(s) != "" then Process(CLEAR, SgrText(s)) == s.(link := None) && IsCode(SgrText(s))
            else s.(link := None) == CLEAR
  {
    hide ForegroundOk, BackgroundOk, LinkOk, Process, ExtractAnsiCode;
    NoCodes(s);
    if SgrText(s) != "" {
      SgrBack(s);
      CodesAreParams(s);
      JoinParams(SgrCodes(s));
      SgrReadsBack(Join(SgrCodes(s), ';'), "");
      assert SgrText(s) + "" == SgrText(s);
    }
  }

  lemma LinkReopens(s: Style)
    requires WellFormed(s) && s.link.Some?
    ensures Process(s.(link := None), LinkText(s)) == s && IsCode(LinkText(s))
  {
    hide ForegroundOk, BackgroundOk, IsCode, FindSgr, ParseLink;
  }

  lemma ResetShowsNothing(s: Style, line: Line)
    ensures See(CLEAR, line + ResetAtoms(s)) == See(CLEAR, line)
    ensures Width(line + ResetAtoms(s)) == Width(line)
  {
    hide See, Width, StyleAfter;
    SeeConcat(CLEAR, line, ResetAtoms(s));
    WidthConcat(line, ResetAtoms(s));
    CodesShowNothing(StyleAfter(CLEAR, line), ResetAtoms(s));
    assert See(CLEAR, line) + [] == See(CLEAR, line);
  }

  lemma {:induction false} TrimShowsSame(line: Line)
    ensures See(CLEAR, TrimEnd(line)) == See(CLEAR, line)
    ensures StyleAfter(CLEAR, TrimEnd(line)) == StyleAfter(CLEAR, line)
    ensures Width(TrimEnd(line)) <= Width(line)
    decreases |line|
  {
    hide See, StyleAfter, Width;
    if line != [] && line[|line| - 1].IsBlank() {
      var front := line[..|line| - 1];
      var last := line[|line| - 1];
      TrimShowsSame(front);
      assert line == front + [last];
      SeeConcat(CLEAR, front, [last]);
      StyleConcat(CLEAR, front, [last]);
      WidthConcat(front, [last]);
      OneBlank(StyleAfter(CLEAR, front), last);
      assert See(CLEAR, front) + [] == See(CLEAR, front);
    }
  }

  lemma OneBlank(s: Style, a: Atom)
    requires a.IsBlank()
    ensures See(s, [a]) == [] && StyleAfter(s, [a]) == s
  {
    assert [a][1..] == [];
  }

  lemma {:induction false} BlankShowsNothing(s: Style, line: Line)
    requires AllBlank(line)
    ensures See(s, line) == [] && StyleAfter(s, line) == s
    decreases |line|
  {
    if line != [] { BlankShowsNothing(s, line[1..]); }
  }

  lemma {:induction false} TrimAllShowsSame(lines: seq<Line>)
    ensures SeeLines(TrimAll(lines)) == SeeLines(lines)
  {
    hide See;
    if lines != [] {
      TrimShowsSame(lines[0]);
      TrimAllShowsSame(lines[1..]);
      assert TrimAll(lines)[1..] == TrimAll(lines[1..]);
    }
  }

  lemma {:induction false} StyleWellFormed(s: Style, line: Line)
    requires WellFormed(s) && Readable(line)
    ensures WellFormed(StyleAfter(s, line))
    decreases |line|
  {
    hide WellFormed, Process, IsCode;
    if line != [] {
      if line[0].Code? { ProcessWellFormed(s, line[0].code); }
      StyleWellFormed(if line[0].Code? then Process(s, line[0].code) else s, line[1..]);
    }
  }

  /* ---------- Tokens ---------- */

  function Collected(s: Splitter): Line {
    Concat(s.tokens) + s.current + s.pending
  }

  lemma SplitAtomCollects(s: Splitter, a: Atom)
    ensures Collected(SplitAtom(s, a)) == Collected(s) + [a]
  {
    hide Concat;
    ConcatSnoc(s.tokens, s.current);
    if a.Glyph? && a.kind.Cjk? {
      var f := Flush(s);
      ConcatSnoc(f.tokens, s.pending + [a]);
      assert f.current == [] && Concat(f.tokens) == Concat(s.tokens) + s.current;
      assert Concat(f.tokens) + (s.pending + [a]) + [] + [] == Collected(s) + [a];
    } else if a.Glyph? {
      var f := if s.current != [] && s.inSpace != a.kind.Space? then Flush(s) else s;
      assert Concat(f.tokens) + f.current == Concat(s.tokens) + s.current;
      assert Concat(f.tokens) + (f.current + s.pending + [a]) + [] == Concat(f.tokens) + f.current + s.pending + [a];
    } else {
      assert Concat(s.tokens) + s.current + (s.pending + [a]) == Collected(s) + [a];
    }
  }

  lemma {:induction false} SplitAllCollects(s: Splitter, line: Line)
    ensures Collected(SplitAll(s, line)) == Collected(s) + line
    decreases |line|
  {
    hide Collected, SplitAtom;
    if line != [] {
      SplitAtomCollects(s, line[0]);
      SplitAllCollects(SplitAtom(s, line[0]), line[1..]);
      assert Collected(s) + [line[0]] + line[1..] == Collected(s) + line;
    } else {
      assert Collected(s) + line == Collected(s);
    }
  }

  /** No atom is lost or moved by splitting into tokens. */
  lemma TokensRejoin(line: Line)
    ensures Concat(SplitIntoTokens(line)) == line
  {
    hide Concat, SplitAll;
    var s := SplitAll(NO_TOKENS, line);
    SplitAllCollects(NO_TOKENS, line);
    NothingCollected();
    assert [] + line == line;
    ConcatSnoc(s.tokens, s.current);
    if s.pending == [] {
      assert Concat(s.tokens) + s.current + [] == Concat(s.tokens) + s.current;
    } else if s.current != [] || s.tokens == [] {
      ConcatSnoc(s.tokens, s.current + s.pending);
      assert Concat(s.tokens) + (s.current + s.pending) == Concat(s.tokens) + s.current + s.pending;
    } else {
      var front := s.tokens[..|s.tokens| - 1];
      var last := s.tokens[|s.tokens| - 1];
      ConcatLast(s.tokens);
      ConcatSnoc(front, last + s.pending);
      assert Concat(front) + (last + s.pending) == Concat(front) + last + s.pending;
      assert Concat(s.tokens) + [] == Concat(s.tokens);
    }
  }

  lemma NothingCollected()
    ensures Collected(NO_TOKENS) == []
  {
  }

  /* ---------- Style is preserved ---------- */

  function ShowsBreak(b: Breaking): seq<Shown> {
    SeeLines(b.lines) + See(CLEAR, b.current)
  }

  /** The line under way ends in the tracked style, and its tracked width is its width. */
  ghost predicate SoundBreak(b: Breaking) {
    WellFormed(b.style) && StyleAfter(CLEAR, b.current) == b.style && b.width == Width(b.current)
  }

  lemma SeeOne(s: Style, a: Atom)
    ensures See(s, [a]) == (if a.Code? || a.IsBlank() then [] else [Shown(a, s)])
    ensures StyleAfter(s, [a]) == (if a.Code? then Process(s, a.code) else s)
    ensures Width([a]) == a.Columns()
  {
    hide Process;
    assert [a][1..] == [];
  }

  lemma Extend(line: Line, a: Atom)
    ensures var s := StyleAfter(CLEAR, line);
      && See(CLEAR, line + [a]) == See(CLEAR, line) + See(s, [a])
      && StyleAfter(CLEAR, line + [a]) == StyleAfter(s, [a])
      && Width(line + [a]) == Width(line) + a.Columns()
  {
    hide See, StyleAfter, Width;
    SeeConcat(CLEAR, line, [a]);
    StyleConcat(CLEAR, line, [a]);
    WidthConcat(line, [a]);
    SeeOne(CLEAR, a);
  }

  lemma BreakAtomShows(b: Breaking, a: Atom, limit: nat)
    requires SoundBreak(b) && (a.Code? ==> IsCode(a.code))
    ensures var r := BreakAtom(b, a, limit);
      && SoundBreak(r)
      && r.style == StyleAfter(b.style, [a])
      && ShowsBreak(r) == ShowsBreak(b) + See(b.style, [a])
  {
    hide See, StyleAfter, Width, SeeLines, WellFormed, Process, IsCode, ActiveAtoms, ResetAtoms, OnlyCodes;
    SeeOne(b.style, a);
    if a.Code? {
      ProcessWellFormed(b.style, a.code);
      Extend(b.current, a);
      assert ShowsBreak(b) == SeeLines(b.lines) + (See(CLEAR, b.current) + See(b.style, [a]));
    } else if b.width + a.width > limit {
      var closed := b.current + ResetAtoms(b.style);
      var open := ActiveAtoms(b.style);
      SeeLinesConcat(b.lines, [closed]);
      SeeLinesOne(closed);
      ResetShowsNothing(b.style, b.current);
      ActiveReopens(b.style);
      CodesShowNothing(CLEAR, open);
      Extend(open, a);
      assert [] + See(b.style, [a]) == See(b.style, [a]);
    } else {
      Extend(b.current, a);
      assert SeeLines(b.lines) + (See(CLEAR, b.current) + See(b.style, [a])) == ShowsBreak(b) + See(b.style, [a]);
    }
  }

  lemma {:induction false} BreakAllShows(b: Breaking, word: Line, limit: nat)
    requires SoundBreak(b) && Readable(word)
    ensures var r := BreakAll(b, word, limit);
      && SoundBreak(r)
      && r.style == StyleAfter(b.style, word)
      && ShowsBreak(r) == ShowsBreak(b) + See(b.style, word)
    decreases |word|
  {
    hide See, StyleAfter, SoundBreak, ShowsBreak, BreakAtom, IsCode;
    if word == [] {
      SeeNothing(b.style);
      assert ShowsBreak(b) + [] == ShowsBreak(b);
    } else {
      BreakAtomShows(b, word[0], limit);
      BreakAllShows(BreakAtom(b, word[0], limit), word[1..], limit);
      assert word == [word[0]] + word[1..];
      SeeConcat(b.style, [word[0]], word[1..]);
      StyleConcat(b.style, [word[0]], word[1..]);
      assert (ShowsBreak(b) + See(b.style, [word[0]])) + See(StyleAfter(b.style, [word[0]]), word[1..])
          == ShowsBreak(b) + See(b.style, word);
    }
  }

  lemma SeeNothing(s: Style)
    ensures See(s, []) == [] && StyleAfter(s, []) == s && Width([]) == 0
  {
  }

  lemma BreakWordShows(word: Line, limit: nat, s: Style)
    requires WellFormed(s) && Readable(word)
    ensures var r := BreakLongWord(word, limit, s);
      && SoundBreak(r)
      && r.style == StyleAfter(s, word)
      && ShowsBreak(r) == See(s, word)
  {
    hide See, StyleAfter, WellFormed, BreakAll, IsCode, ActiveAtoms, OnlyCodes;
    ActiveReopens(s);
    CodesShowNothing(CLEAR, ActiveAtoms(s));
    var b := Breaking([], ActiveAtoms(s), 0, s);
    BreakAllShows(b, word, limit);
    assert SeeLines([]) == [];
    assert [] + See(s, word) == See(s, word);
  }

  function Shows(w: Wrapping): seq<Shown> {
    SeeLines(w.lines) + See(CLEAR, w.current)
  }

  ghost predicate Sound(w: Wrapping) {
    WellFormed(w.style) && StyleAfter(CLEAR, w.current) == w.style && w.length == Width(w.current)
  }

  lemma WrapLongShows(w: Wrapping, token: Line, limit: nat)
    requires Sound(w) && Readable(token) && Width(token) > limit && !AllBlank(token)
    ensures var r := WrapToken(w, token, limit);
      && Sound(r)
      && r.style == StyleAfter(w.style, token)
      && Shows(r) == Shows(w) + See(w.style, token)
  {
    hide See, StyleAfter, SeeLines, WellFormed, BreakLongWord, Width, ResetAtoms, AllBlank, Readable;
    var b := BreakLongWord(token, limit, w.style);
    BreakWordShows(token, limit, w.style);
    var closed := w.current + ResetAtoms(w.style);
    var lines := if w.current == [] then w.lines else w.lines + [closed];
    SeeLinesConcat(w.lines, [closed]);
    SeeLinesOne(closed);
    ResetShowsNothing(w.style, w.current);
    SeeNothing(CLEAR);
    assert SeeLines(lines) == Shows(w) by { assert SeeLines(w.lines) + [] == SeeLines(w.lines); }
    SeeLinesConcat(lines, b.lines);
    assert SeeLines(lines) + SeeLines(b.lines) + See(CLEAR, b.current) == SeeLines(lines) + ShowsBreak(b);
  }

  lemma WrapFittingShows(w: Wrapping, token: Line, limit: nat)
    requires Sound(w) && Readable(token) && (Width(token) <= limit || AllBlank(token))
    ensures var r := WrapToken(w, token, limit);
      && Sound(r)
      && r.style == StyleAfter(w.style, token)
      && Shows(r) == Shows(w) + See(w.style, token)
  {
    hide See, StyleAfter, SeeLines, WellFormed, BreakLongWord, Width, ResetAtoms, ActiveAtoms, OnlyCodes, AllBlank, Readable, TrimEnd;
    StyleWellFormed(w.style, token);
    if w.length + Width(token) > limit && w.length > 0 {
      var closed := TrimEnd(w.current) + ResetAtoms(w.style);
      var open := ActiveAtoms(w.style);
      SeeLinesConcat(w.lines, [closed]);
      SeeLinesOne(closed);
      ResetShowsNothing(w.style, TrimEnd(w.current));
      TrimShowsSame(w.current);
      ActiveReopens(w.style);
      CodesShowNothing(CLEAR, open);
      assert SeeLines(w.lines + [closed]) == Shows(w);
      if AllBlank(token) {
        BlankShowsNothing(w.style, token);
      } else {
        SeeConcat(CLEAR, open, token);
        StyleConcat(CLEAR, open, token);
        WidthConcat(open, token);
        assert [] + See(w.style, token) == See(w.style, token);
      }
    } else {
      SeeConcat(CLEAR, w.current, token);
      StyleConcat(CLEAR, w.current, token);
      WidthConcat(w.current, token);
      assert SeeLines(w.lines) + (See(CLEAR, w.current) + See(w.style, token)) == Shows(w) + See(w.style, token);
    }
  }

  lemma {:induction false} WrapAllShows(w: Wrapping, tokens: seq<Line>, limit: nat)
    requires Sound(w) && Readable(Concat(tokens))
    ensures var r := WrapAll(w, tokens, limit);
      Sound(r) && Shows(r) == Shows(w) + See(w.style, Concat(tokens))
    decreases |tokens|
  {
    hide See, StyleAfter, Sound, Shows, WrapToken, IsCode, Width, AllBlank;
    if tokens == [] {
      SeeNothing(w.style);
      assert Shows(w) + [] == Shows(w);
    } else {
      var t := tokens[0];
      assert Readable(t) by { assert forall i :: 0 <= i < |t| ==> t[i] == Concat(tokens)[i]; }
      assert Readable(Concat(tokens[1..])) by {
        assert forall i :: 0 <= i < |Concat(tokens[1..])| ==> Concat(tokens[1..])[i] == Concat(tokens)[|t| + i];
      }
      if Width(t) > limit && !AllBlank(t) { WrapLongShows(w, t, limit); } else { WrapFittingShows(w, t, limit); }
      WrapAllShows(WrapToken(w, t, limit), tokens[1..], limit);
      SeeConcat(w.style, t, Concat(tokens[1..]));
      assert (Shows(w) + See(w.style, t)) + See(StyleAfter(w.style, t), Concat(tokens[1..]))
          == Shows(w) + See(w.style, Concat(tokens));
    }
  }

  /** One wrapped line: read line by line from a clean state, it shows what the input line shows. */
  lemma WrapSingleShows(line: Line, limit: nat)
    requires Readable(line)
    ensures SeeLines(WrapSingleLine(line, limit)) == See(CLEAR, line)
  {
    hide See, StyleAfter, SeeLines, WrapAll, Width, SplitIntoTokens, Concat, Readable, TrimAll;
    if Width(line) <= limit {
      SeeLinesOne(line);
    } else {
      var tokens := SplitIntoTokens(line);
      TokensRejoin(line);
      SeeNothing(CLEAR);
      assert SeeLines([]) == [] by { SeeLinesEmpty(); }
      WrapAllShows(NO_LINES, tokens, limit);
      LinesShow(WrapAll(NO_LINES, tokens, limit));
      assert [] + [] + See(CLEAR, line) == See(CLEAR, line);
    }
  }

  lemma SeeLinesEmpty()
    ensures SeeLines([]) == [] && SeeLines([[]]) == []
  {
  }

  lemma LinesShow(w: Wrapping)
    ensures SeeLines(Lines(w)) == Shows(w)
  {
    hide See, SeeLines, TrimAll;
    SeeNothing(CLEAR);
    SeeLinesEmpty();
    if w.current == [] {
      assert SeeLines(w.lines) + [] == SeeLines(w.lines);
      TrimAllShowsSame(w.lines);
    } else {
      SeeLinesConcat(w.lines, [w.current]);
      SeeLinesOne(w.current);
      TrimAllShowsSame(w.lines + [w.current]);
    }
  }

  lemma {:induction false} WrapFromShows(done: seq<Line>, style: Style, text: seq<Line>, limit: nat)
    requires WellFormed(style) && (done == [] ==> style == CLEAR)
    requires forall i :: 0 <= i < |text| ==> Readable(text[i])
    ensures SeeLines(WrapFrom(done, style, text, limit)) == SeeLines(done) + SeeText(style, text)
    decreases |text|
  {
    hide See, StyleAfter, SeeLines, WrapSingleLine, WellFormed, ActiveAtoms, OnlyCodes, IsCode;
    if text == [] {
      assert SeeLines(done) + [] == SeeLines(done);
    } else {
      var prefix := if done == [] then [] else ActiveAtoms(style);
      ActiveReopens(style);
      SeeNothing(CLEAR);
      CodesShowNothing(CLEAR, prefix);
      WrapSingleShows(prefix + text[0], limit);
      SeeConcat(CLEAR, prefix, text[0]);
      assert [] + See(style, text[0]) == See(style, text[0]);
      var wrapped := WrapSingleLine(prefix + text[0], limit);
      SeeLinesConcat(done, wrapped);
      StyleWellFormed(style, text[0]);
      NeverEmpty(prefix + text[0], limit);
      WrapFromShows(done + wrapped, StyleAfter(style, text[0]), text[1..], limit);
      assert (SeeLines(done) + See(style, text[0])) + SeeText(StyleAfter(style, text[0]), text[1..])
          == SeeLines(done) + SeeText(style, text);
    }
  }

  lemma NeverEmpty(line: Line, limit: nat)
    ensures WrapSingleLine(line, limit) != []
  {
    hide WrapAll, Width, SplitIntoTokens;
  }

  /**
   * Wrapping preserves text and style: the lines of the result, each displayed from a clean state, show
   * exactly the graphemes of the input, in order, each with the attributes and hyperlink it had there.
   */
  lemma WrapPreservesStyle(text: seq<Line>, limit: nat)
    requires forall i :: 0 <= i < |text| ==> Readable(text[i])
    ensures SeeLines(WrapText(text, limit)) == SeeText(CLEAR, text)
  {
    hide WrapFrom, SeeText, Readable;
    SeeLinesEmpty();
    WrapFromShows([], CLEAR, text, limit);
    assert [] + SeeText(CLEAR, text) == SeeText(CLEAR, text);
  }
}

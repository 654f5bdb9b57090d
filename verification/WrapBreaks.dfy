/**
 * Where wrapped lines break: which stretches of the input they hold, blanks included, what is left out
 * between them, and why a line ends where it does.
 */
module WrapBreaks {
  import opened AnsiTracker
  import opened Wrap
  import opened WrapProofs

  /* ---------- Graphemes ---------- */

  /** The graphemes of a line, blanks included, without its codes. */
  function Glyphs(line: Line): (r: Line)
    ensures forall i :: 0 <= i < |r| ==> r[i].Glyph?
  {
    if line == [] then [] else (if line[0].Code? then [] else [line[0]]) + Glyphs(line[1..])
  }

  lemma {:induction false} GlyphsConcat(a: Line, b: Line)
    ensures Glyphs(a + b) == Glyphs(a) + Glyphs(b)
  {
    if a == [] {
      assert a + b == b && [] + Glyphs(b) == Glyphs(b);
    } else {
      hide Glyphs;
      var rest, head := a[1..], if a[0].Code? then [] else [a[0]];
      GlyphsConcat(rest, b);
      GlyphsCons(a[0], rest);
      GlyphsCons(a[0], rest + b);
      assert a == [a[0]] + rest && a + b == [a[0]] + (rest + b);
      Regroup(head, Glyphs(rest), Glyphs(b));
    }
  }

  lemma GlyphsCons(a: Atom, line: Line)
    ensures Glyphs([a] + line) == (if a.Code? then [] else [a]) + Glyphs(line)
  {
    assert ([a] + line)[1..] == line;
  }

  lemma Regroup(a: Line, b: Line, c: Line)
    ensures a + (b + c) == (a + b) + c
  {
  }

  lemma {:induction false} GlyphsNone(line: Line)
    requires OnlyCodes(line)
    ensures Glyphs(line) == []
  {
    if line != [] { GlyphsNone(line[1..]); }
  }

  lemma {:induction false} GlyphsAll(line: Line)
    requires forall i :: 0 <= i < |line| ==> line[i].Glyph?
    ensures Glyphs(line) == line
  {
    if line != [] { GlyphsAll(line[1..]); }
  }

  lemma {:induction false} GlyphsWidth(line: Line)
    ensures Width(Glyphs(line)) == Width(line)
  {
    if line != [] {
      GlyphsWidth(line[1..]);
      var rest := Glyphs(line[1..]);
      if line[0].Glyph? { assert ([line[0]] + rest)[1..] == rest; } else { assert [] + rest == rest; }
    }
  }

  lemma GlyphsSnoc(line: Line, a: Atom)
    ensures Glyphs(line + [a]) == Glyphs(line) + if a.Code? then [] else [a]
  {
    GlyphsConcat(line, [a]);
    assert [a][1..] == [];
  }

  /* ---------- Runs ---------- */

  /** Neighbours that no break may part unless it has to: both plain spaces, or both neither that nor CJK. */
  predicate SameRun(a: Atom, b: Atom)
    requires a.Glyph? && b.Glyph?
  {
    (a.kind.Space? && b.kind.Space?) || (InWord(a) && InWord(b))
  }

  predicate InWord(a: Atom)
    requires a.Glyph?
  {
    !a.kind.Space? && !a.kind.Cjk?
  }

  ghost predicate AllGlyphs(g: Line) {
    forall i :: 0 <= i < |g| ==> g[i].Glyph?
  }

  /** Whether position `t` lies inside a run. */
  predicate Inside(g: Line, t: nat)
    requires AllGlyphs(g)
  {
    0 < t < |g| && SameRun(g[t - 1], g[t])
  }

  /** The end of the run that `t` lies in. */
  function RunEnd(g: Line, t: nat): (e: nat)
    requires AllGlyphs(g) && t <= |g|
    ensures t <= e <= |g| && (t < |g| ==> t < e) && !Inside(g, e)
    ensures forall k :: t < k < e ==> Inside(g, k)
    decreases |g| - t
  {
    if t == |g| then t else if Inside(g, t + 1) then RunEnd(g, t + 1) else t + 1
  }

  /** And its beginning. */
  function RunStart(g: Line, t: nat): (s: nat)
    requires AllGlyphs(g) && t <= |g|
    ensures s <= t && !Inside(g, s) && forall k :: s < k <= t ==> Inside(g, k)
  {
    if Inside(g, t) then RunStart(g, t - 1) else t
  }

  /** One whole run. */
  ghost predicate Run(g: Line, a: nat, b: nat)
    requires AllGlyphs(g)
  {
    a < b <= |g| && !Inside(g, a) && !Inside(g, b) && forall k :: a < k < b ==> Inside(g, k)
  }

  lemma RunIs(g: Line, a: nat, b: nat, t: nat)
    requires AllGlyphs(g) && Run(g, a, b) && a <= t < b
    ensures RunStart(g, t) == a && RunEnd(g, t) == b
  {
  }

  lemma {:induction false} SpacesTogether(g: Line, a: nat, b: nat)
    requires AllGlyphs(g) && a < b <= |g| && (forall k :: a < k < b ==> Inside(g, k)) && g[a].kind.Space?
    ensures forall k :: a <= k < b ==> g[k].kind.Space?
    decreases b
  {
    if a + 1 < b {
      SpacesTogether(g, a, b - 1);
      assert Inside(g, b - 1);
    }
  }

  /* ---------- What wrapping one line gives ---------- */

  /**
   * Why a line that begins with grapheme `s` ends and the next begins with grapheme `q`. Inside a run: the
   * run is wider than the limit, the line began in it, and the next grapheme did not fit. Between runs: the
   * next run did not.
   */
  ghost predicate GoodBreak(g: Line, s: nat, q: nat, limit: nat)
    requires AllGlyphs(g) && s <= q <= |g|
  {
    if Inside(g, q) then
      var a, b := RunStart(g, q), RunEnd(g, q);
      Width(g[a..b]) > limit && a <= s && Width(g[s..q]) + g[q].width > limit
    else Width(g[s..RunEnd(g, q)]) > limit
  }

  /** `line` shows the graphemes from `s` on, up to `q` but for blanks at its end. */
  ghost predicate Holds(line: Line, g: Line, s: nat, q: nat)
    requires s <= q <= |g|
  {
    var n := |Glyphs(line)|;
    s + n <= q && Glyphs(line) == g[s..s + n] && AllBlank(g[s + n..q])
  }

  /** A line begun at `q` does not begin with plain spaces, unless other white space stands before them. */
  predicate Indented(g: Line, q: nat)
    requires AllGlyphs(g)
  {
    0 < q < |g| && !Inside(g, q) && g[q].kind.Space? ==> g[q - 1].kind.Blank?
  }

  /** The lines begin at `starts` in the graphemes of the input, and what follows the last of them at the last start. */
  ghost predicate Parted(lines: seq<Line>, starts: seq<nat>, g: Line) {
    && |starts| == |lines| + 1 && starts[0] == 0
    && (forall i :: 0 <= i < |starts| ==> starts[i] <= |g|)
    && (forall i :: 0 <= i < |lines| ==> starts[i] <= starts[i + 1] && Holds(lines[i], g, starts[i], starts[i + 1]))
  }

  /** The first `n` breaks are good ones. */
  ghost predicate Broken(starts: seq<nat>, g: Line, limit: nat, n: nat, codeless: bool)
    requires AllGlyphs(g) && n < |starts|
  {
    forall i :: 0 < i <= n ==>
      starts[i - 1] <= starts[i] <= |g| && GoodBreak(g, starts[i - 1], starts[i], limit)
      && (codeless ==> Indented(g, starts[i]))
  }

  /** Where every line of one wrapped input line begins, and why. */
  ghost predicate WrappedAt(outs: seq<Line>, starts: seq<nat>, line: Line, limit: nat) {
    && Parted(outs, starts, Glyphs(line)) && outs != [] && starts[|outs|] == |Glyphs(line)|
    && Broken(starts, Glyphs(line), limit, |outs| - 1, AllGlyphs(line))
    && (Width(line) <= limit ==> |outs| == 1 && Glyphs(outs[0]) == Glyphs(line))
    && (Width(line) > limit ==> forall i :: 0 <= i < |outs| && outs[i] != [] ==> !outs[i][|outs[i]| - 1].IsBlank())
  }

  /* ---------- Tokens are runs ---------- */

  /** The graphemes of token `i` are the whole run from `cuts[i]` to `cuts[i + 1]`. */
  ghost predicate Cut(tokens: seq<Line>, cuts: seq<nat>, g: Line)
    requires AllGlyphs(g)
  {
    && |cuts| == |tokens| + 1 && (forall i :: 0 <= i < |cuts| ==> cuts[i] <= |g|)
    && (forall i :: 0 <= i < |tokens| ==> Run(g, cuts[i], cuts[i + 1]) && Glyphs(tokens[i]) == g[cuts[i]..cuts[i + 1]])
  }

  lemma CutSnoc(tokens: seq<Line>, cuts: seq<nat>, g: Line, token: Line, e: nat)
    requires AllGlyphs(g) && Cut(tokens, cuts, g)
    requires Run(g, cuts[|tokens|], e) && Glyphs(token) == g[cuts[|tokens|]..e]
    ensures Cut(tokens + [token], cuts + [e], g)
  {
    hide Inside, Glyphs, AllGlyphs;
  }

  /** The splitter has reached grapheme `pos`, and what it collects is the beginning of a run. */
  ghost predicate Splitting(s: Splitter, cuts: seq<nat>, g: Line, pos: nat) {
    && AllGlyphs(g) && pos <= |g| && Cut(s.tokens, cuts, g) && cuts[0] == 0 && OnlyCodes(s.pending)
    && var p := cuts[|s.tokens|];
    && p <= pos && Glyphs(s.current) == g[p..pos] && !Inside(g, p) && (forall k :: p < k < pos ==> Inside(g, k))
    && (s.current != [] ==> p < pos && (g[pos - 1].kind.Space? <==> s.inSpace) && !g[pos - 1].kind.Cjk?)
    && (s.current == [] && s.tokens != [] ==> 0 < pos && g[pos - 1].kind.Cjk?)
  }

  lemma FlushCuts(s: Splitter, cuts: seq<nat>, g: Line, pos: nat) returns (cuts': seq<nat>)
    requires Splitting(s, cuts, g, pos) && !Inside(g, pos)
    ensures Cut(Flush(s).tokens, cuts', g) && cuts'[0] == 0 && cuts'[|Flush(s).tokens|] == pos
  {
    hide Glyphs, Inside, AllGlyphs;
    if s.current == [] {
      assert Glyphs([]) == [] by { GlyphsNone([]); }
      cuts' := cuts;
    } else {
      CutSnoc(s.tokens, cuts, g, s.current, pos);
      cuts' := cuts + [pos];
    }
  }

  lemma SplitCjk(s: Splitter, a: Atom, cuts: seq<nat>, g: Line, pos: nat) returns (cuts': seq<nat>)
    requires Splitting(s, cuts, g, pos) && pos < |g| && g[pos] == a && a.kind.Cjk?
    ensures Splitting(SplitAtom(s, a), cuts', g, pos + 1)
  {
    assert a.Glyph? && !Inside(g, pos);
    hide Glyphs, AllGlyphs, Cut, Run, Inside;
    var f := Flush(s);
    cuts' := FlushCuts(s, cuts, g, pos);
    CjkAlone(f.tokens, f.inSpace, f.pending, a, cuts', g, pos);
    cuts' := cuts' + [pos + 1];
  }

  lemma CjkAlone(tokens: seq<Line>, inSpace: bool, pending: Line, a: Atom, cuts: seq<nat>, g: Line, pos: nat)
    requires AllGlyphs(g) && Cut(tokens, cuts, g) && cuts[0] == 0 && cuts[|tokens|] == pos
    requires OnlyCodes(pending) && pos < |g| && g[pos] == a && a.kind.Cjk?
    ensures Splitting(Splitter(tokens + [pending + [a]], [], inSpace, []), cuts + [pos + 1], g, pos + 1)
  {
    assert a.Glyph? && !Inside(g, pos) && Run(g, pos, pos + 1);
    hide Glyphs, AllGlyphs, Inside;
    GlyphsNone(pending);
    GlyphsNone([]);
    GlyphsSnoc(pending, a);
    assert [] + [a] == g[pos..pos + 1];
    CutSnoc(tokens, cuts, g, pending + [a], pos + 1);
  }

  /** The grapheme goes on with the run being collected, or begins one. */
  lemma SplitCollect(f: Splitter, a: Atom, cuts: seq<nat>, g: Line, pos: nat)
    requires AllGlyphs(g) && pos < |g| && g[pos] == a && !a.kind.Cjk? && Cut(f.tokens, cuts, g) && cuts[0] == 0
    requires OnlyCodes(f.pending)
    requires cuts[|f.tokens|] <= pos && Glyphs(f.current) == g[cuts[|f.tokens|]..pos] && !Inside(g, cuts[|f.tokens|])
    requires forall k :: cuts[|f.tokens|] < k <= pos ==> Inside(g, k)
    ensures Splitting(Splitter(f.tokens, f.current + f.pending + [a], a.kind.Space?, []), cuts, g, pos + 1)
  {
    var p := cuts[|f.tokens|];
    assert a.Glyph?;
    hide Glyphs, AllGlyphs, Inside;
    GlyphsNone(f.pending);
    GlyphsConcat(f.current, f.pending);
    GlyphsSnoc(f.current + f.pending, a);
    assert g[p..pos] + [] + [a] == g[p..pos + 1];
  }

  lemma SplitOther(s: Splitter, a: Atom, cuts: seq<nat>, g: Line, pos: nat) returns (cuts': seq<nat>)
    requires Splitting(s, cuts, g, pos) && pos < |g| && g[pos] == a && !a.kind.Cjk?
    ensures Splitting(SplitAtom(s, a), cuts', g, pos + 1)
  {
    var p := cuts[|s.tokens|];
    assert forall k :: p < k < pos ==> Inside(g, k);
    assert a.Glyph? && (pos > 0 ==> g[pos - 1].Glyph?);
    hide Glyphs, AllGlyphs;
    var f := if s.current != [] && s.inSpace != a.kind.Space? then Flush(s) else s;
    assert Glyphs([]) == [] by { GlyphsNone([]); }
    if s.current != [] && s.inSpace != a.kind.Space? {
      cuts' := FlushCuts(s, cuts, g, pos);
      assert Glyphs(f.current) == g[pos..pos];
    } else {
      cuts' := cuts;
    }
    SplitCollect(f, a, cuts', g, pos);
  }

  lemma {:induction false} SplitAllCuts(s: Splitter, line: Line, cuts: seq<nat>, g: Line, pos: nat)
      returns (cuts': seq<nat>)
    requires Splitting(s, cuts, g, pos) && Glyphs(line) == g[pos..]
    ensures Splitting(SplitAll(s, line), cuts', g, |g|)
    decreases |line|
  {
    hide Cut, Inside, AllGlyphs, OnlyCodes;
    if line == [] {
      cuts' := cuts;
    } else {
      var a := line[0];
      if a.Code? {
        assert [] + Glyphs(line[1..]) == Glyphs(line[1..]);
        assert OnlyCodes(s.pending + [a]) by { OneMoreCode(s.pending, a); }
        cuts' := SplitAllCuts(SplitAtom(s, a), line[1..], cuts, g, pos);
      } else {
        assert g[pos] == g[pos..][0] == a && Glyphs(line[1..]) == g[pos..][1..] == g[pos + 1..];
        if a.kind.Cjk? { cuts' := SplitCjk(s, a, cuts, g, pos); } else { cuts' := SplitOther(s, a, cuts, g, pos); }
        cuts' := SplitAllCuts(SplitAtom(s, a), line[1..], cuts', g, pos + 1);
      }
    }
  }

  lemma OneMoreCode(codes: Line, a: Atom)
    requires OnlyCodes(codes) && a.Code?
    ensures OnlyCodes(codes + [a])
  {
  }

  /** The tokens of a line with graphemes are its runs, in order. */
  lemma TokensAreRuns(line: Line) returns (cuts: seq<nat>)
    requires Glyphs(line) != []
    ensures AllGlyphs(Glyphs(line)) && Cut(SplitIntoTokens(line), cuts, Glyphs(line))
    ensures cuts[0] == 0 && cuts[|SplitIntoTokens(line)|] == |Glyphs(line)|
  {
    hide SplitAll;
    var g := Glyphs(line);
    GlyphsNone([]);
    assert OnlyCodes([]) && Cut([], [0], g) && g[0..] == g && g[0..0] == [];
    cuts := SplitAllCuts(NO_TOKENS, line, [0], g, 0);
    cuts := LastCuts(SplitAll(NO_TOKENS, line), cuts, g);
  }

  lemma LastCuts(s: Splitter, cuts: seq<nat>, g: Line) returns (cuts': seq<nat>)
    requires Splitting(s, cuts, g, |g|) && g != []
    ensures Cut(Tokens(s), cuts', g) && cuts'[0] == 0 && cuts'[|Tokens(s)|] == |g|
  {
    hide Glyphs, AllGlyphs;
    GlyphsNone(s.pending);
    GlyphsNone([]);
    if s.pending == [] {
      cuts' := FlushCuts(s, cuts, g, |g|);
    } else if s.current != [] {
      GlyphsConcat(s.current, s.pending);
      CutSnoc(s.tokens, cuts, g, s.current + s.pending, |g|);
      cuts' := cuts + [|g|];
    } else {
      GlyphsConcat(s.tokens[|s.tokens| - 1], s.pending);
      cuts' := cuts;
    }
  }

  /* ---------- One more line ---------- */

  /** The finished lines, and where the one under way begins. */
  ghost predicate Finished(lines: seq<Line>, starts: seq<nat>, g: Line, limit: nat, codeless: bool) {
    AllGlyphs(g) && Parted(lines, starts, g) && Broken(starts, g, limit, |lines|, codeless)
  }

  lemma OneMoreLine(lines: seq<Line>, starts: seq<nat>, g: Line, limit: nat, codeless: bool, line: Line, q: nat)
    requires Finished(lines, starts, g, limit, codeless)
    requires starts[|lines|] <= q <= |g| && Holds(line, g, starts[|lines|], q)
    requires GoodBreak(g, starts[|lines|], q, limit) && (codeless ==> Indented(g, q))
    ensures Finished(lines + [line], starts + [q], g, limit, codeless)
  {
    hide Holds, GoodBreak, Indented, AllGlyphs;
  }

  lemma HoldsAll(line: Line, codes: Line, g: Line, s: nat, q: nat)
    requires s <= q <= |g| && Glyphs(line) == g[s..q] && OnlyCodes(codes)
    ensures Holds(line + codes, g, s, q)
  {
    GlyphsNone(codes);
    GlyphsConcat(line, codes);
  }

  lemma {:induction false} TrimGlyphs(line: Line)
    ensures |Glyphs(TrimEnd(line))| <= |Glyphs(line)|
    ensures Glyphs(TrimEnd(line)) == Glyphs(line)[..|Glyphs(TrimEnd(line))|]
    ensures AllBlank(Glyphs(line)[|Glyphs(TrimEnd(line))|..])
    ensures TrimEnd(line) != [] ==> !TrimEnd(line)[|TrimEnd(line)| - 1].IsBlank()
  {
    hide Glyphs;
    if line != [] && line[|line| - 1].IsBlank() {
      var n := |line| - 1;
      TrimGlyphs(line[..n]);
      GlyphsSnoc(line[..n], line[n]);
      assert line == line[..n] + [line[n]];
    }
  }

  lemma HoldsTrimmed(line: Line, codes: Line, g: Line, s: nat, q: nat)
    requires s <= q <= |g| && Holds(line, g, s, q) && OnlyCodes(codes)
    ensures Holds(TrimEnd(line) + codes, g, s, q)
  {
    hide Glyphs, TrimEnd;
    TrimGlyphs(line);
    GlyphsNone(codes);
    GlyphsConcat(TrimEnd(line), codes);
    var n, k := |Glyphs(line)|, |Glyphs(TrimEnd(line))|;
    assert Glyphs(TrimEnd(line)) + [] == Glyphs(TrimEnd(line));
    assert Glyphs(line)[..k] == g[s..s + n][..k] == g[s..s + k];
    assert g[s + k..q] == Glyphs(line)[k..] + g[s + n..q];
  }

  /* ---------- Breaking a run ---------- */

  /** Breaking the run from `p` to `e` has reached `pos`, after the finished `lines`. */
  ghost predicate BreakingRun(b: Breaking, lines: seq<Line>, starts: seq<nat>, g: Line, p: nat, e: nat, pos: nat,
    limit: nat, codeless: bool)
  {
    && Finished(lines + b.lines, starts, g, limit, codeless) && Run(g, p, e) && Width(g[p..e]) > limit
    && (codeless && 0 < p ==> !g[p].kind.Space?)
    && var s := starts[|lines + b.lines|];
    && p <= s <= pos <= e && Glyphs(b.current) == g[s..pos] && b.width == Width(g[s..pos])
  }

  lemma WidthFrom(g: Line, s: nat, p: nat, e: nat)
    requires s <= p <= e <= |g|
    ensures Width(g[s..e]) == Width(g[s..p]) + Width(g[p..e])
  {
    WidthConcat(g[s..p], g[p..e]);
    assert g[s..e] == g[s..p] + g[p..e];
  }

  lemma WidthOne(g: Line, pos: nat)
    requires AllGlyphs(g) && pos < |g|
    ensures Width(g[pos..pos + 1]) == g[pos].width
  {
    assert g[pos..pos + 1] == [g[pos]] && [g[pos]][1..] == [];
  }

  lemma BreakInRun(g: Line, p: nat, e: nat, s: nat, pos: nat, limit: nat)
    requires AllGlyphs(g) && Run(g, p, e) && Width(g[p..e]) > limit && p <= s <= pos < e
    requires Width(g[s..pos]) + g[pos].width > limit
    ensures GoodBreak(g, s, pos, limit)
  {
    hide Width;
    RunIs(g, p, e, pos);
  }

  lemma ActiveHoldNothing(s: Style)
    ensures OnlyCodes(ActiveAtoms(s)) && Glyphs(ActiveAtoms(s)) == []
  {
    hide SgrText, LinkText;
    GlyphsNone(ActiveAtoms(s));
  }

  lemma BreakGlyph(b: Breaking, a: Atom, lines: seq<Line>, starts: seq<nat>, g: Line, p: nat, e: nat, pos: nat,
      limit: nat, codeless: bool) returns (starts': seq<nat>)
    requires BreakingRun(b, lines, starts, g, p, e, pos, limit, codeless) && pos < e && a.Glyph? && a == g[pos]
    ensures BreakingRun(BreakAtom(b, a, limit), lines, starts', g, p, e, pos + 1, limit, codeless)
  {
    hide Width, Glyphs, Inside, Holds, GoodBreak, Indented, AllGlyphs;
    var s := starts[|lines + b.lines|];
    if b.width + a.width > limit {
      BreakBefore(b, a, lines, starts, g, p, e, pos, limit, codeless);
      starts' := starts + [pos];
    } else {
      WidthFrom(g, s, pos, pos + 1);
      WidthOne(g, pos);
      GlyphsSnoc(b.current, a);
      assert g[s..pos] + [a] == g[s..pos + 1];
      starts' := starts;
    }
  }

  lemma BreakBefore(b: Breaking, a: Atom, lines: seq<Line>, starts: seq<nat>, g: Line, p: nat, e: nat, pos: nat,
      limit: nat, codeless: bool)
    requires BreakingRun(b, lines, starts, g, p, e, pos, limit, codeless) && pos < e && a.Glyph? && a == g[pos]
    requires b.width + a.width > limit
    ensures BreakingRun(BreakAtom(b, a, limit), lines, starts + [pos], g, p, e, pos + 1, limit, codeless)
  {
    hide Width, Glyphs, Holds, GoodBreak, ActiveAtoms;
    var s := starts[|lines + b.lines|];
    var line := b.current + ResetAtoms(b.style);
    BreakInRun(g, p, e, s, pos, limit);
    HoldsAll(b.current, ResetAtoms(b.style), g, s, pos);
    OneMoreLine(lines + b.lines, starts, g, limit, codeless, line, pos);
    hide Inside, Broken, Parted;
    assert lines + b.lines + [line] == lines + (b.lines + [line]);
    ActiveHoldNothing(b.style);
    GlyphsSnoc(ActiveAtoms(b.style), a);
    assert [] + [a] == g[pos..pos + 1];
    WidthOne(g, pos);
  }

  lemma {:induction false} BreakAllRun(b: Breaking, word: Line, lines: seq<Line>, starts: seq<nat>, g: Line, p: nat,
      e: nat, pos: nat, limit: nat, codeless: bool) returns (starts': seq<nat>)
    requires BreakingRun(b, lines, starts, g, p, e, pos, limit, codeless) && Glyphs(word) == g[pos..e]
    ensures BreakingRun(BreakAll(b, word, limit), lines, starts', g, p, e, e, limit, codeless)
    decreases |word|
  {
    hide Width, Inside, ActiveAtoms, Finished, BreakAtom;
    if word == [] {
      starts' := starts;
    } else {
      var a := word[0];
      if a.Code? {
        assert [] + Glyphs(word[1..]) == Glyphs(word[1..]);
        BreakCode(b, a, lines, starts, g, p, e, pos, limit, codeless);
        starts' := BreakAllRun(BreakAtom(b, a, limit), word[1..], lines, starts, g, p, e, pos, limit, codeless);
      } else {
        assert g[pos] == g[pos..e][0] == a && Glyphs(word[1..]) == g[pos..e][1..] == g[pos + 1..e];
        starts' := BreakGlyph(b, a, lines, starts, g, p, e, pos, limit, codeless);
        starts' := BreakAllRun(BreakAtom(b, a, limit), word[1..], lines, starts', g, p, e, pos + 1, limit, codeless);
      }
    }
  }

  lemma BreakCode(b: Breaking, a: Atom, lines: seq<Line>, starts: seq<nat>, g: Line, p: nat, e: nat, pos: nat,
      limit: nat, codeless: bool)
    requires BreakingRun(b, lines, starts, g, p, e, pos, limit, codeless) && a.Code?
    ensures BreakingRun(BreakAtom(b, a, limit), lines, starts, g, p, e, pos, limit, codeless)
  {
    hide Width, Inside, ActiveAtoms, Finished, Glyphs, Process;
    GlyphsSnoc(b.current, a);
  }

  /* ---------- Placing the tokens ---------- */

  /** Wrapping has reached `pos`, the beginning of a run or the end. */
  ghost predicate Under(w: Wrapping, starts: seq<nat>, g: Line, pos: nat, limit: nat, codeless: bool) {
    && Finished(w.lines, starts, g, limit, codeless) && pos <= |g|
    && var s := starts[|w.lines|];
    && s <= pos && Glyphs(w.current) == g[s..pos] && w.length == Width(g[s..pos])
    && (pos > 0 ==> w.current != [] || w.lines != [])
  }

  /** `token` is the run from `p` to `e`. */
  ghost predicate TokenAt(token: Line, g: Line, p: nat, e: nat, codeless: bool) {
    AllGlyphs(g) && Run(g, p, e) && Glyphs(token) == g[p..e] && (codeless && 0 < p ==> AllGlyphs(token))
  }

  lemma SpacesAreBlank(token: Line, g: Line, p: nat, e: nat)
    requires TokenAt(token, g, p, e, true) && 0 < p && g[p].kind.Space?
    ensures AllBlank(token)
  {
    hide Glyphs;
    SpacesTogether(g, p, e);
    GlyphsAll(token);
    assert forall i :: 0 <= i < |token| ==> token[i] == g[p + i];
  }

  lemma NoSpacesAhead(token: Line, g: Line, p: nat, e: nat)
    requires TokenAt(token, g, p, e, true) && !AllBlank(token) && 0 < p
    ensures !g[p].kind.Space?
  {
    hide AllBlank;
    if g[p].kind.Space? { SpacesAreBlank(token, g, p, e); }
  }

  lemma WidthNone(g: Line, p: nat)
    requires p <= |g|
    ensures g[p..p] == [] && Width(g[p..p]) == 0
  {
  }

  lemma NextDoesNotFit(g: Line, s: nat, p: nat, e: nat, limit: nat)
    requires AllGlyphs(g) && s <= p && Run(g, p, e) && Width(g[s..p]) + Width(g[p..e]) > limit
    ensures GoodBreak(g, s, p, limit)
  {
    hide Width;
    RunIs(g, p, e, p);
    WidthFrom(g, s, p, e);
  }

  /** A line under way is finished before a run that needs lines of its own. */
  lemma StartAfresh(w: Wrapping, starts: seq<nat>, g: Line, p: nat, e: nat, limit: nat, codeless: bool)
      returns (starts': seq<nat>)
    requires Under(w, starts, g, p, limit, codeless) && Run(g, p, e) && Width(g[p..e]) > limit
    requires codeless && 0 < p ==> !g[p].kind.Space?
    ensures var lines := if w.current == [] then w.lines else w.lines + [w.current + ResetAtoms(w.style)];
      Finished(lines, starts', g, limit, codeless) && starts'[|lines|] == p
  {
    hide Width, Glyphs, Inside, Broken, GoodBreak, Holds;
    var s := starts[|w.lines|];
    if w.current == [] {
      GlyphsNone([]);
      starts' := starts;
    } else {
      NextDoesNotFit(g, s, p, e, limit);
      HoldsAll(w.current, ResetAtoms(w.style), g, s, p);
      OneMoreLine(w.lines, starts, g, limit, codeless, w.current + ResetAtoms(w.style), p);
      starts' := starts + [p];
    }
  }

  lemma PlaceWide(w: Wrapping, token: Line, starts: seq<nat>, g: Line, p: nat, e: nat, limit: nat, codeless: bool)
      returns (starts': seq<nat>)
    requires Under(w, starts, g, p, limit, codeless) && TokenAt(token, g, p, e, codeless)
    requires Width(token) > limit && !AllBlank(token)
    ensures Under(WrapToken(w, token, limit), starts', g, e, limit, codeless)
  {
    hide Width, Glyphs, Inside, ActiveAtoms, ResetAtoms, Finished, AllBlank, BreakAll, AllGlyphs;
    if codeless && 0 < p { NoSpacesAhead(token, g, p, e); }
    GlyphsWidth(token);
    var lines := if w.current == [] then w.lines else w.lines + [w.current + ResetAtoms(w.style)];
    starts' := StartAfresh(w, starts, g, p, e, limit, codeless);
    var b := Breaking([], ActiveAtoms(w.style), 0, w.style);
    ActiveHoldNothing(w.style);
    WidthNone(g, p);
    assert lines + b.lines == lines;
    starts' := BreakAllRun(b, token, lines, starts', g, p, e, p, limit, codeless);
    RunBroken(BreakAll(b, token, limit), lines, starts', g, p, e, limit, codeless);
  }

  lemma RunBroken(b: Breaking, lines: seq<Line>, starts: seq<nat>, g: Line, p: nat, e: nat, limit: nat, codeless: bool)
    requires BreakingRun(b, lines, starts, g, p, e, e, limit, codeless)
    ensures Under(Wrapping(lines + b.lines, b.current, Width(b.current), b.style), starts, g, e, limit, codeless)
  {
    hide Width, Glyphs, Inside, Holds, Broken, AllGlyphs;
    GlyphsWidth(b.current);
    GlyphsNone([]);
  }

  /** A blank run that does not fit is left out, at the end of its line. */
  lemma PlaceBlank(w: Wrapping, token: Line, starts: seq<nat>, g: Line, p: nat, e: nat, limit: nat, codeless: bool)
    requires Under(w, starts, g, p, limit, codeless) && TokenAt(token, g, p, e, codeless) && AllBlank(token)
    requires w.length + Width(token) > limit
    ensures Finished(w.lines + [TrimEnd(w.current) + ResetAtoms(w.style)], starts + [e], g, limit, codeless)
  {
    hide Width, Glyphs, TrimEnd, Broken;
    var s := starts[|w.lines|];
    GlyphsAll(token);
    assert forall i :: p <= i < e ==> g[i] == token[i - p];
    WidthFrom(g, s, p, e);
    WidthFrom(g, s, e, RunEnd(g, e));
    hide Inside, RunEnd;
    HoldsTrimmed(w.current, ResetAtoms(w.style), g, s, e);
    OneMoreLine(w.lines, starts, g, limit, codeless, TrimEnd(w.current) + ResetAtoms(w.style), e);
  }

  /** A run that does not fit begins the next line. */
  lemma PlaceNext(w: Wrapping, token: Line, starts: seq<nat>, g: Line, p: nat, e: nat, limit: nat, codeless: bool)
    requires Under(w, starts, g, p, limit, codeless) && TokenAt(token, g, p, e, codeless) && !AllBlank(token)
    requires w.length + Width(token) > limit
    ensures Finished(w.lines + [TrimEnd(w.current) + ResetAtoms(w.style)], starts + [p], g, limit, codeless)
  {
    hide Width, Glyphs, TrimEnd, Broken, Inside, GoodBreak;
    var s := starts[|w.lines|];
    if codeless && 0 < p { NoSpacesAhead(token, g, p, e); }
    GlyphsWidth(token);
    NextDoesNotFit(g, s, p, e, limit);
    HoldsTrimmed(w.current, ResetAtoms(w.style), g, s, p);
    OneMoreLine(w.lines, starts, g, limit, codeless, TrimEnd(w.current) + ResetAtoms(w.style), p);
  }

  lemma PlaceFitting(w: Wrapping, token: Line, starts: seq<nat>, g: Line, p: nat, e: nat, limit: nat, codeless: bool)
      returns (starts': seq<nat>)
    requires Under(w, starts, g, p, limit, codeless) && TokenAt(token, g, p, e, codeless)
    requires Width(token) <= limit || AllBlank(token)
    ensures Under(WrapToken(w, token, limit), starts', g, e, limit, codeless)
  {
    hide Width, Glyphs, Inside, AllBlank, AllGlyphs, Broken, StyleAfter, TrimEnd, Holds, ResetAtoms, ActiveAtoms;
    var s := starts[|w.lines|];
    GlyphsWidth(token);
    GlyphsNone([]);
    ActiveHoldNothing(w.style);
    if w.length + Width(token) > limit && w.length > 0 {
      if AllBlank(token) {
        PlaceBlank(w, token, starts, g, p, e, limit, codeless);
        WidthNone(g, e);
        starts' := starts + [e];
      } else {
        PlaceNext(w, token, starts, g, p, e, limit, codeless);
        GlyphsConcat(ActiveAtoms(w.style), token);
        assert [] + g[p..e] == g[p..e];
        starts' := starts + [p];
      }
    } else {
      GlyphsConcat(w.current, token);
      WidthFrom(g, s, p, e);
      assert g[s..p] + g[p..e] == g[s..e];
      starts' := starts;
    }
  }

  /** The tokens are runs, and none but one at the very beginning holds codes if the line is codeless. */
  ghost predicate TokensAt(tokens: seq<Line>, cuts: seq<nat>, g: Line, codeless: bool) {
    && AllGlyphs(g) && Cut(tokens, cuts, g) && cuts[|tokens|] == |g|
    && (codeless ==> forall i :: 0 <= i < |tokens| && 0 < cuts[i] ==> AllGlyphs(tokens[i]))
  }

  lemma {:induction false} PlaceAll(w: Wrapping, tokens: seq<Line>, cuts: seq<nat>, starts: seq<nat>, g: Line,
      limit: nat, codeless: bool) returns (starts': seq<nat>)
    requires TokensAt(tokens, cuts, g, codeless) && Under(w, starts, g, cuts[0], limit, codeless)
    ensures Under(WrapAll(w, tokens, limit), starts', g, |g|, limit, codeless)
    decreases |tokens|
  {
    hide Width, Glyphs, Inside, Under, WrapToken, AllBlank, Run;
    if tokens == [] {
      starts' := starts;
    } else {
      var t, p, e := tokens[0], cuts[0], cuts[1];
      assert TokenAt(t, g, p, e, codeless);
      if Width(t) > limit && !AllBlank(t) {
        starts' := PlaceWide(w, t, starts, g, p, e, limit, codeless);
      } else {
        starts' := PlaceFitting(w, t, starts, g, p, e, limit, codeless);
      }
      assert TokensAt(tokens[1..], cuts[1..], g, codeless);
      starts' := PlaceAll(WrapToken(w, t, limit), tokens[1..], cuts[1..], starts', g, limit, codeless);
    }
  }

  lemma FinishLines(w: Wrapping, starts: seq<nat>, line: Line, limit: nat) returns (starts': seq<nat>)
    requires Under(w, starts, Glyphs(line), |Glyphs(line)|, limit, AllGlyphs(line)) && Width(line) > limit
    ensures WrappedAt(Lines(w), starts', line, limit)
  {
    hide Width, Glyphs, Inside, Broken, Holds, TrimAll;
    var g := Glyphs(line);
    GlyphsWidth(line);
    WidthNone(g, 0);
    assert g[0..0] == [];
    var all := if w.current == [] then w.lines else w.lines + [w.current];
    starts' := LastStart(w, starts, g, limit, AllGlyphs(line));
    TrimmedHold(all, starts', g);
  }

  lemma LastStart(w: Wrapping, starts: seq<nat>, g: Line, limit: nat, codeless: bool) returns (starts': seq<nat>)
    requires Under(w, starts, g, |g|, limit, codeless) && g != []
    ensures var all := if w.current == [] then w.lines else w.lines + [w.current];
      all != [] && Parted(all, starts', g) && starts'[|all|] == |g| && Broken(starts', g, limit, |all| - 1, codeless)
  {
    hide Width, Glyphs, Inside, GoodBreak, Holds, Indented, AllGlyphs;
    GlyphsNone([]);
    if w.current == [] {
      starts' := starts;
    } else {
      HoldsAll(w.current, [], g, starts[|w.lines|], |g|);
      assert w.current + [] == w.current;
      starts' := starts + [|g|];
    }
  }

  lemma TrimmedHold(lines: seq<Line>, starts: seq<nat>, g: Line)
    requires Parted(lines, starts, g)
    ensures Parted(TrimAll(lines), starts, g)
    ensures forall i :: 0 <= i < |lines| && TrimAll(lines)[i] != [] ==>
      !TrimAll(lines)[i][|TrimAll(lines)[i]| - 1].IsBlank()
  {
    hide Glyphs, TrimEnd, AllBlank;
    forall i | 0 <= i < |lines|
      ensures Holds(TrimEnd(lines[i]), g, starts[i], starts[i + 1])
      ensures TrimEnd(lines[i]) != [] ==> !TrimEnd(lines[i])[|TrimEnd(lines[i])| - 1].IsBlank()
    {
      TrimGlyphs(lines[i]);
      HoldsTrimmed(lines[i], [], g, starts[i], starts[i + 1]);
      assert TrimEnd(lines[i]) + [] == TrimEnd(lines[i]);
    }
  }

  /* ---------- Codes only in the first token ---------- */

  ghost predicate Clean(s: Splitter) {
    && (forall i :: 0 < i < |s.tokens| ==> AllGlyphs(s.tokens[i]))
    && (s.tokens != [] ==> AllGlyphs(s.current)) && (s.tokens != [] || s.current != [] ==> s.pending == [])
  }

  lemma {:induction false} SplitCodes(s: Splitter, codes: Line, line: Line)
    requires OnlyCodes(codes)
    ensures SplitAll(s, codes + line) == SplitAll(s.(pending := s.pending + codes), line)
    decreases |codes|
  {
    if codes == [] {
      assert codes + line == line && s.pending + codes == s.pending;
    } else {
      assert (codes + line)[0] == codes[0] && (codes + line)[1..] == codes[1..] + line;
      SplitCodes(SplitAtom(s, codes[0]), codes[1..], line);
      assert s.pending + [codes[0]] + codes[1..] == s.pending + codes;
    }
  }

  lemma {:induction false} SplitClean(s: Splitter, line: Line)
    requires Clean(s) && AllGlyphs(line)
    ensures Clean(SplitAll(s, line))
    ensures line != [] ==> SplitAll(s, line).pending == []
    decreases |line|
  {
    if line != [] { SplitClean(SplitAtom(s, line[0]), line[1..]); }
  }

  lemma TokensClean(prefix: Line, line: Line, i: nat)
    requires OnlyCodes(prefix) && AllGlyphs(line) && line != [] && 0 < i < |SplitIntoTokens(prefix + line)|
    ensures AllGlyphs(SplitIntoTokens(prefix + line)[i])
  {
    hide SplitAll, AllGlyphs;
    SplitCodes(NO_TOKENS, prefix, line);
    SplitClean(NO_TOKENS.(pending := NO_TOKENS.pending + prefix), line);
  }

  /* ---------- Every input line ---------- */

  /** Where one input line, with the codes that reopen the style before it, is parted. */
  lemma WrapsAt(prefix: Line, line: Line, limit: nat) returns (starts: seq<nat>)
    requires OnlyCodes(prefix)
    ensures WrappedAt(WrapSingleLine(prefix + line, limit), starts, line, limit)
  {
    hide Width, Glyphs, Inside, AllGlyphs, Cut, WrapAll, SplitIntoTokens, Lines, GoodBreak;
    var g := Glyphs(line);
    GlyphsNone(prefix);
    GlyphsConcat(prefix, line);
    assert [] + g == g;
    GlyphsWidth(prefix + line);
    GlyphsWidth(line);
    if Width(line) <= limit {
      starts := [0, |g|];
      assert g[0..|g|] == g;
    } else {
      starts := WrapsTokens(prefix, line, limit);
    }
  }

  lemma WrapsTokens(prefix: Line, line: Line, limit: nat) returns (starts: seq<nat>)
    requires OnlyCodes(prefix) && Width(line) > limit && Glyphs(prefix + line) == Glyphs(line)
    ensures WrappedAt(Lines(WrapAll(NO_LINES, SplitIntoTokens(prefix + line), limit)), starts, line, limit)
  {
    hide Width, Glyphs, Inside, Run, WrapAll, SplitIntoTokens, Lines, GoodBreak, WrappedAt;
    var g, tokens := Glyphs(line), SplitIntoTokens(prefix + line);
    GlyphsWidth(line);
    WidthNone(g, 0);
    GlyphsNone([]);
    assert g[0..0] == [] && g != [] && line != [];
    var cuts := TokensAreRuns(prefix + line);
    if AllGlyphs(line) {
      forall i | 0 < i < |tokens| ensures AllGlyphs(tokens[i]) { TokensClean(prefix, line, i); }
    }
    assert TokensAt(tokens, cuts, g, AllGlyphs(line));
    starts := PlaceAll(NO_LINES, tokens, cuts, [0], g, limit, AllGlyphs(line));
    starts := FinishLines(WrapAll(NO_LINES, tokens, limit), starts, line, limit);
  }

  /** The output is the lines of each input line, in order. */
  ghost predicate WrappedText(outs: seq<Line>, text: seq<Line>, limit: nat)
    decreases |text|
  {
    if text == [] then outs == []
    else
      exists k: nat, starts :: k <= |outs| && WrappedAt(outs[..k], starts, text[0], limit)
        && WrappedText(outs[k..], text[1..], limit)
  }

  lemma OneMoreText(head: seq<Line>, starts: seq<nat>, rest: seq<Line>, text: seq<Line>, limit: nat)
    requires text != [] && WrappedAt(head, starts, text[0], limit) && WrappedText(rest, text[1..], limit)
    ensures WrappedText(head + rest, text, limit)
  {
    hide WrappedAt;
    var outs, k := head + rest, |head|;
    assert outs[..k] == head && outs[k..] == rest;
  }

  lemma NoText(limit: nat)
    ensures WrappedText([], [], limit)
  {
  }

  lemma WrapFromStep(done: seq<Line>, style: Style, text: seq<Line>, limit: nat)
    requires text != []
    ensures var prefix := if done == [] then [] else ActiveAtoms(style);
      WrapFrom(done, style, text, limit)
      == WrapFrom(done + WrapSingleLine(prefix + text[0], limit), StyleAfter(style, text[0]), text[1..], limit)
  {
    hide WrapSingleLine, StyleAfter, ActiveAtoms;
  }

  lemma RegroupLines(a: seq<Line>, b: seq<Line>, c: seq<Line>)
    ensures (a + b) + c == a + (b + c)
  {
  }

  lemma {:induction false} WrapFromBreaks(done: seq<Line>, style: Style, text: seq<Line>, limit: nat)
      returns (outs: seq<Line>)
    ensures WrapFrom(done, style, text, limit) == done + outs && WrappedText(outs, text, limit)
    decreases |text|
  {
    if text == [] {
      NoText(limit);
      outs := [];
    } else {
      hide *;
      var prefix := if done == [] then [] else ActiveAtoms(style);
      ActiveHoldNothing(style);
      assert OnlyCodes(prefix) by { NoCodes(); }
      var head := WrapSingleLine(prefix + text[0], limit);
      var starts := WrapsAt(prefix, text[0], limit);
      WrapFromStep(done, style, text, limit);
      var rest := WrapFromBreaks(done + head, StyleAfter(style, text[0]), text[1..], limit);
      OneMoreText(head, starts, rest, text, limit);
      RegroupLines(done, head, rest);
      outs := head + rest;
    }
  }

  lemma NoCodes()
    ensures OnlyCodes([])
  {
  }

  /**
   * Each output line holds a stretch of its input line's graphemes, blanks included; the stretches follow each
   * other and leave out blanks only, at the ends of lines. A line ends because what comes next does not fit,
   * and inside a run only when the run is wider than the limit.
   */
  lemma WrapBreaksWell(text: seq<Line>, limit: nat)
    ensures WrappedText(WrapText(text, limit), text, limit)
  {
    hide WrapFrom, WrappedText;
    var outs := WrapFromBreaks([], CLEAR, text, limit);
    assert [] + outs == outs;
  }
}

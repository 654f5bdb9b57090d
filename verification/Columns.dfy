/**
 * A line as the columns it fills on the screen, and the parts of a line that fit between two columns.
 */
module Columns {
  import opened AnsiTracker
  import opened Wrap
  import opened WrapProofs

  /** One column: the grapheme it belongs to, which part of it this is, how wide it is, and in what style. */
  datatype Cell = Cell(text: string, part: nat, width: nat, style: Style)

  function CellsOf(a: Atom, s: Style): (cells: seq<Cell>)
    ensures |cells| == a.Columns()
  {
    if a.Code? then [] else seq(a.width, i requires 0 <= i < a.width => Cell(a.text, i, a.width, s))
  }

  function Next(s: Style, a: Atom): Style {
    if a.Code? then Process(s, a.code) else s
  }

  /** The columns `line` fills when it is written in style `s`. */
  function Paint(s: Style, line: Line): (cells: seq<Cell>)
    ensures |cells| == Width(line)
    decreases |line|
  {
    if line == [] then [] else CellsOf(line[0], s) + Paint(Next(s, line[0]), line[1..])
  }

  lemma {:induction false} PaintConcat(s: Style, a: Line, b: Line)
    ensures Paint(s, a + b) == Paint(s, a) + Paint(StyleAfter(s, a), b)
    decreases |a|
  {
    hide Process, CellsOf;
    if a == [] {
      assert a + b == b;
    } else {
      PaintConcat(Next(s, a[0]), a[1..], b);
      assert (a + b)[1..] == a[1..] + b && (a + b)[0] == a[0];
    }
  }

  lemma PaintOne(s: Style, a: Atom)
    ensures Paint(s, [a]) == CellsOf(a, s)
    ensures StyleAfter(s, [a]) == Next(s, a)
  {
    hide Process, CellsOf;
    assert [a][1..] == [];
  }

  /** The column where atom `i` stands. */
  function At(line: Line, i: nat): nat
    requires i <= |line|
  {
    Width(line[..i])
  }

  lemma AtStep(line: Line, i: nat)
    requires i < |line|
    ensures At(line, i + 1) == At(line, i) + line[i].Columns()
  {
    assert line[..i + 1] == line[..i] + [line[i]];
    WidthConcat(line[..i], [line[i]]);
    assert [line[i]][1..] == [];
  }

  lemma AtEnds(line: Line)
    ensures At(line, 0) == 0 && At(line, |line|) == Width(line)
  {
    assert line[..|line|] == line;
  }

  lemma {:induction false} AtMonotone(line: Line, i: nat, j: nat)
    requires i <= j <= |line|
    ensures At(line, i) <= At(line, j)
    decreases j - i
  {
    hide At;
    if i < j { AtMonotone(line, i, j - 1); AtStep(line, j - 1); }
  }

  function StyleAt(line: Line, i: nat): Style
    requires i <= |line|
  {
    StyleAfter(CLEAR, line[..i])
  }

  /** Atoms `m` to `n` written in the style they stand in fill the columns they fill in the line. */
  lemma PaintSegment(line: Line, m: nat, n: nat)
    requires m <= n <= |line|
    ensures At(line, m) <= At(line, n) <= Width(line)
    ensures Paint(StyleAt(line, m), line[m..n]) == Paint(CLEAR, line)[At(line, m)..At(line, n)]
  {
    hide Paint, StyleAfter, Width;
    Cut(line, m, n);
    SegmentOf(line[..m], line[m..n], line[n..]);
  }

  lemma Cut<T>(s: seq<T>, m: nat, n: nat)
    requires m <= n <= |s|
    ensures s[..m] + s[m..n] == s[..n] && s[..m] + (s[m..n] + s[n..]) == s
  {
  }

  lemma SegmentOf(a: Line, b: Line, c: Line)
    ensures Width(a + b) == Width(a) + Width(b) && Width(a + (b + c)) == Width(a) + Width(b) + Width(c)
    ensures Paint(StyleAfter(CLEAR, a), b) == Paint(CLEAR, a + (b + c))[Width(a)..Width(a) + Width(b)]
  {
    hide Paint, StyleAfter, Width;
    PaintConcat(CLEAR, a, b + c);
    PaintConcat(StyleAfter(CLEAR, a), b, c);
    WidthConcat(a, b);
    WidthConcat(b, c);
    WidthConcat(a, b + c);
  }

  /** The grapheme that fills column `c`. */
  lemma Owner(line: Line, c: nat) returns (i: nat)
    requires c < Width(line)
    ensures i < |line| && line[i].Glyph? && At(line, i) <= c < At(line, i) + line[i].width
    ensures Paint(CLEAR, line)[c] == Cell(line[i].text, c - At(line, i), line[i].width, StyleAt(line, i))
  {
    hide Process, Paint, StyleAfter, Width;
    AtEnds(line);
    i := 0;
    while At(line, i + 1) <= c
      invariant i < |line| && At(line, i) <= c
      decreases |line| - i
    {
      i := i + 1;
      AtEnds(line);
    }
    AtStep(line, i);
    PaintSegment(line, i, i + 1);
    PaintOne(StyleAt(line, i), line[i]);
    assert line[i..i + 1] == [line[i]];
    var cells := Paint(CLEAR, line);
    assert cells[At(line, i)..At(line, i + 1)][c - At(line, i)] == cells[c];
  }

  /* ---------- What fits before a column ---------- */

  /** Whether nothing more fits before column `end` once atom `i` is reached. */
  predicate Full(line: Line, i: nat, end: int, strict: bool)
    requires i < |line|
  {
    At(line, i) >= end || (strict && line[i].Glyph? && At(line, i) + line[i].width > end)
  }

  /** The first atom, from `i` on, at which column `end` is reached. */
  function FitFrom(line: Line, i: nat, end: int, strict: bool): (n: nat)
    requires i <= |line|
    ensures i <= n <= |line|
    ensures forall k :: i <= k < n ==> !Full(line, k, end, strict)
    ensures n < |line| ==> Full(line, n, end, strict)
    decreases |line| - i
  {
    if i == |line| || Full(line, i, end, strict) then i else FitFrom(line, i + 1, end, strict)
  }

  /** How many atoms of `line` stand before column `end`; with `strict`, none of them reaches over it. */
  function Fit(line: Line, end: int, strict: bool): (n: nat)
    ensures n <= |line|
    ensures forall k :: 0 <= k < n ==> !Full(line, k, end, strict)
    ensures n < |line| ==> Full(line, n, end, strict)
  {
    FitFrom(line, 0, end, strict)
  }

  lemma FitIs(line: Line, n: nat, end: int, strict: bool)
    requires n <= Fit(line, end, strict)
    requires n == |line| || Full(line, n, end, strict)
    ensures n == Fit(line, end, strict)
  {
  }

  lemma FitWidth(line: Line, end: nat)
    ensures At(line, Fit(line, end, true)) <= end
  {
    hide Width;
    var n := Fit(line, end, true);
    AtEnds(line);
    if n > 0 {
      assert !Full(line, n - 1, end, true);
      AtStep(line, n - 1);
    }
  }

  /** Before `end`, the columns of what fits are those whose grapheme ends by `end`. */
  lemma FitCells(line: Line, end: nat, c: nat)
    requires c < end && c < Width(line)
    ensures var cell := Paint(CLEAR, line)[c];
      c < At(line, Fit(line, end, true)) <==> c - cell.part + cell.width <= end
  {
    hide Width, Paint, At;
    var n := Fit(line, end, true);
    var i := Owner(line, c);
    AtStep(line, i);
    FitWidth(line, end);
    if i < n {
      AtMonotone(line, i + 1, n);
    } else {
      AtMonotone(line, n, i);
      if i > n { AtStep(line, n); AtMonotone(line, n + 1, i); }
    }
  }

  /* ---------- Where a column is reached ---------- */

  /** The first atom, from `i` on, that stands at column `x` or later. */
  function ReachFrom(line: Line, i: nat, x: int): (n: nat)
    requires i <= |line|
    ensures i <= n <= |line|
    ensures forall k :: i <= k < n ==> At(line, k) < x
    ensures n < |line| ==> At(line, n) >= x
    decreases |line| - i
  {
    if i == |line| || At(line, i) >= x then i else ReachFrom(line, i + 1, x)
  }

  function GlyphFrom(line: Line, i: nat, x: int): (n: nat)
    requires i <= |line|
    ensures i <= n <= |line|
    ensures forall k :: i <= k < n ==> line[k].Code? || At(line, k) < x
    ensures n < |line| ==> line[n].Glyph? && At(line, n) >= x
    decreases |line| - i
  {
    if i == |line| || (line[i].Glyph? && At(line, i) >= x) then i else GlyphFrom(line, i + 1, x)
  }

  /** The first grapheme that stands at column `x` or later. */
  function GlyphAt(line: Line, x: int): (n: nat)
    ensures n <= |line|
    ensures forall k :: 0 <= k < n ==> line[k].Code? || At(line, k) < x
    ensures n < |line| ==> line[n].Glyph? && At(line, n) >= x
  {
    GlyphFrom(line, 0, x)
  }

  /** The first column from `x` on where a grapheme begins, or where the line has ended. */
  function NextWhole(cells: seq<Cell>, x: nat): (y: nat)
    ensures x <= y && (y == x || y <= |cells|)
    ensures y < |cells| ==> cells[y].part == 0
    ensures forall k :: x <= k < y ==> cells[k].part != 0
    decreases |cells| - x
  {
    if x >= |cells| || cells[x].part == 0 then x else NextWhole(cells, x + 1)
  }

  /** A column where an atom stands begins a grapheme. */
  lemma WholeAt(line: Line, n: nat)
    requires n < |line| && At(line, n) < Width(line)
    ensures Paint(CLEAR, line)[At(line, n)].part == 0
  {
    hide Width, Paint, At;
    var j := Owner(line, At(line, n));
    AtStep(line, j);
    if j < n { AtMonotone(line, j + 1, n); } else { AtMonotone(line, n, j); }
  }

  /** That grapheme stands where the first whole grapheme of the columns does. */
  lemma GlyphAtWhole(line: Line, x: nat)
    ensures var n := GlyphAt(line, x); var y := NextWhole(Paint(CLEAR, line), x);
      if n < |line| && At(line, n) < Width(line) then At(line, n) == y else Width(line) <= y
  {
    hide Width, Paint, At;
    var n := GlyphAt(line, x);
    var y := NextWhole(Paint(CLEAR, line), x);
    if n < |line| && At(line, n) < Width(line) { WholeAt(line, n); }
    if y < Width(line) {
      var i := Owner(line, y);
      assert At(line, i) == y;
      AtMonotone(line, n, i);
    }
  }
}

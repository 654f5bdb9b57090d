/** What a fuzzy score rewards and what it costs, as differences between the scores of two texts. Lower is better. */
module FuzzyScores {
  import opened Fuzzy

  /* ---------- Where the scan matches ---------- */

  /** `f` places `q` in `t`, each character at the first place after the one before it. */
  ghost predicate Earliest(q: string, t: string, f: seq<nat>) {
    && Embeds(q, t, f)
    && forall k, j :: 0 <= k < |f| && Previous(f, k) < j < f[k] ==> t[j] != q[k]
  }

  lemma At(q: string, t: string, f: seq<nat>, k: nat, j: nat)
    requires Earliest(q, t, f) && k < |f|
    ensures |f| == |q| && f[k] < |t| && t[f[k]] == q[k] && (k > 0 ==> f[k - 1] < f[k])
    ensures Previous(f, k) < j < f[k] ==> t[j] != q[k]
  {
  }

  /** The first `n` places lie before `i`. */
  predicate Before(f: seq<nat>, i: nat, n: nat) {
    n <= |f| && (n > 0 ==> f[n - 1] < i) && (n < |f| ==> i <= f[n])
  }

  lemma {:induction false} ScanIs(q: string, t: string, f: seq<nat>, i: nat, n: nat)
    requires Earliest(q, t, f) && i <= |t| && Before(f, i, n)
    ensures Positions(q, t, i) == f[..n]
    decreases i
  {
    hide Positions, Earliest;
    if i == 0 {
      NothingYet(q, t);
    } else if n > 0 && f[n - 1] == i - 1 {
      At(q, t, f, n - 1, 0);
      ScanIs(q, t, f, i - 1, n - 1);
      ScanHits(q, t, f, i, n);
    } else {
      ScanIs(q, t, f, i - 1, n);
      ScanMisses(q, t, f, i, n);
    }
  }

  lemma ScanHits(q: string, t: string, f: seq<nat>, i: nat, n: nat)
    requires Earliest(q, t, f) && 0 < i <= |t| && 0 < n <= |f| && f[n - 1] == i - 1
    requires Positions(q, t, i - 1) == f[..n - 1]
    ensures Positions(q, t, i) == f[..n]
  {
    hide *;
    At(q, t, f, n - 1, 0);
    PositionsStep(q, t, i - 1);
    FrontSnoc(f, n);
  }

  lemma FrontSnoc(f: seq<nat>, n: nat)
    requires 0 < n <= |f|
    ensures |f[..n - 1]| == n - 1 && f[..n] == f[..n - 1] + [f[n - 1]]
  {
  }

  lemma ScanMisses(q: string, t: string, f: seq<nat>, i: nat, n: nat)
    requires Earliest(q, t, f) && 0 < i <= |t| && Before(f, i, n) && (n > 0 ==> f[n - 1] != i - 1)
    requires Positions(q, t, i - 1) == f[..n]
    ensures Positions(q, t, i) == f[..n]
  {
    hide Earliest, Positions;
    NoPlaces(q, t, f);
    if n < |f| { At(q, t, f, n, i - 1); }
    PositionsStep(q, t, i - 1);
  }

  lemma NoPlaces(q: string, t: string, f: seq<nat>)
    requires Earliest(q, t, f)
    ensures |f| == |q|
  {
  }

  lemma NothingYet(q: string, t: string)
    ensures Positions(q, t, 0) == []
  {
  }

  /** The score of a text whose earliest placement is known. */
  lemma ScoreIs(q: string, t: string, f: seq<nat>)
    requires q != "" && Earliest(q, t, f)
    ensures MatchQuery(q, t) == Match(true, Total(t, f) - if q == t then 1000 else 0)
  {
    hide Positions, Total;
    NoPlaces(q, t, f);
    At(q, t, f, |f| - 1, 0);
    hide Earliest;
    ScanIs(q, t, f, |t|, |f|);
    assert f[..|f|] == f;
  }

  /** The places from `start` on, one after the other. */
  function InARow(start: nat, n: nat): (f: seq<nat>)
    ensures |f| == n && forall k :: 0 <= k < n ==> f[k] == start + k
  {
    seq(n, k requires 0 <= k => start + k)
  }

  lemma RowFits(q: string, t: string, start: nat)
    requires q != "" && start + |q| <= |t| && t[start..start + |q|] == q && q[0] !in t[..start]
    ensures Earliest(q, t, InARow(start, |q|))
  {
    hide InARow;
    var f := InARow(start, |q|);
    forall k | 0 <= k < |q| ensures t[f[k]] == q[k] { assert t[start + k] == t[start..start + |q|][k]; }
    forall j | 0 <= j < start ensures t[j] != q[0] { assert t[j] in t[..start]; }
  }

  /** What a match adds depends on the text up to it, and on the places up to its own. */
  lemma {:induction false} SameTotal(t: string, u: string, f: seq<nat>, m: nat)
    requires m <= |t| && m <= |u| && t[..m] == u[..m] && forall k :: 0 <= k < |f| ==> f[k] < m
    ensures Total(t, f) == Total(u, f)
  {
    if f != [] {
      var n := |f| - 1;
      SameTotal(t, u, f[..n], m);
      assert f[n] > 0 ==> t[f[n] - 1] == t[..m][f[n] - 1] == u[f[n] - 1];
    }
  }

  /* ---------- An exact match ---------- */

  /** The whole text scores 100 points better than the same characters at the beginning of a longer one. */
  lemma ExactIsBest(q: string, rest: string)
    requires q != "" && rest != ""
    ensures MatchQuery(q, q).matches && MatchQuery(q, q + rest).matches
    ensures MatchQuery(q, q).score == MatchQuery(q, q + rest).score - 1000
  {
    hide Total, Earliest, InARow;
    var f := InARow(0, |q|);
    RowFits(q, q, 0);
    RowFits(q, q + rest, 0);
    hide MatchQuery;
    ScoreIs(q, q, f);
    ScoreIs(q, q + rest, f);
    SameTotal(q, q + rest, f, |q|);
  }

  /* ---------- Rows ---------- */

  /** What JavaScript's `\s` and the five marks that set words apart have in common here. */
  predicate SetsApart(c: char) {
    c == '-' || c == '_' || c == '.' || c == '/' || c == ':' || IsSpace(c)
  }

  lemma RowGrows(start: nat, n: nat)
    ensures InARow(start, n + 1) == InARow(start, n) + [start + n]
  {
  }

  lemma {:induction false} RowAt(n: nat)
    requires n > 0
    ensures Row(InARow(0, n), n - 1) == n
  {
    RowGrows(0, n - 1);
    if n > 1 {
      RowAt(n - 1);
      RowStable(InARow(0, n - 1), n - 1, n - 2);
    }
  }

  /**
   * Each further character in a row is rewarded by 5 points more than the one before it; it costs a tenth of
   * a point for every place before it, and earns 10 points after a character that sets words apart.
   */
  lemma RowsAreRewarded(q: string, x: char, rest: string)
    requires q != "" && rest != ""
    ensures var t := q + [x] + rest;
      MatchQuery(q + [x], t).score
      == MatchQuery(q, t).score - 50 * (|q| + 1) + |q| - if SetsApart(q[|q| - 1]) then 100 else 0
  {
    hide Total, InARow, Row, Part, MatchQuery;
    var (t, n) := (q + [x] + rest, |q|);
    assert t[..n] == q && t[..n + 1] == q + [x];
    FrontScore(q, t);
    FrontScore(q + [x], t);
    RowGrows(0, n);
    TotalSnoc(t, InARow(0, n), n);
    PartIs(t, InARow(0, n), n);
    RowAt(n);
  }

  lemma FrontScore(q: string, t: string)
    requires 0 < |q| < |t| && t[..|q|] == q
    ensures MatchQuery(q, t) == Match(true, Total(t, InARow(0, |q|)))
  {
    hide Total, Earliest, InARow;
    assert t[0..0 + |q|] == q;
    RowFits(q, t, 0);
    ScoreIs(q, t, InARow(0, |q|));
  }

  /* ---------- Boundaries ---------- */

  lemma {:induction false} BoundaryTotals(q: string, c: char, d: char, n: nat)
    requires 0 < n <= |q| && SetsApart(c) && !SetsApart(d)
    ensures Total([c] + q, InARow(1, n)) == Total([d] + q, InARow(1, n)) - 100
  {
    hide Total, Row, Part, InARow;
    var (t, u) := ([c] + q, [d] + q);
    RowGrows(1, n - 1);
    var f := InARow(1, n - 1);
    TotalSnoc(t, f, n);
    TotalSnoc(u, f, n);
    PartIs(t, f, n);
    PartIs(u, f, n);
    assert t[n - 1] == if n == 1 then c else q[n - 2];
    assert u[n - 1] == if n == 1 then d else q[n - 2];
    if n > 1 { BoundaryTotals(q, c, d, n - 1); } else { EmptyTotals(t, u, f); }
  }

  lemma EmptyTotals(t: string, u: string, f: seq<nat>)
    requires f == []
    ensures Total(t, f) == Total(u, f) == 0
  {
  }

  /** A match that begins a word scores 10 points better than one that does not. */
  lemma WordsAreRewarded(q: string, c: char, d: char)
    requires q != "" && q[0] != c && q[0] != d && SetsApart(c) && !SetsApart(d)
    ensures MatchQuery(q, [c] + q).matches && MatchQuery(q, [d] + q).matches
    ensures MatchQuery(q, [c] + q).score == MatchQuery(q, [d] + q).score - 100
  {
    hide Total, Earliest, InARow, SetsApart;
    var (t, u, n) := ([c] + q, [d] + q, |q|);
    assert t[1..1 + n] == q && u[1..1 + n] == q;
    RowFits(q, t, 1);
    RowFits(q, u, 1);
    ScoreIs(q, t, InARow(1, n));
    ScoreIs(q, u, InARow(1, n));
    hide MatchQuery;
    BoundaryTotals(q, c, d, n);
  }

  /* ---------- Gaps ---------- */

  /** `n` places from the beginning and `m` more from `start` on. */
  function TwoRows(n: nat, start: nat, m: nat): (f: seq<nat>)
    ensures |f| == n + m
  {
    InARow(0, n) + InARow(start, m)
  }

  lemma TwoRowsGrow(n: nat, start: nat, m: nat)
    ensures TwoRows(n, start, m + 1) == TwoRows(n, start, m) + [start + m]
  {
    RowGrows(start, m);
  }

  lemma TwoRowsFit(a: string, fill: string, b: string)
    requires a != "" && b != "" && b[0] !in fill
    ensures Earliest(a + b, a + fill + b, TwoRows(|a|, |a| + |fill|, |b|))
  {
    var (q, t, f) := (a + b, a + fill + b, TwoRows(|a|, |a| + |fill|, |b|));
    assert forall k :: 0 <= k < |f| ==> f[k] == if k < |a| then k else |fill| + k;
    hide TwoRows;
    forall j | |a| - 1 < j < |a| + |fill| ensures t[j] != q[|a|] { assert t[j] == fill[j - |a|]; }
  }

  /** A match at `i` in `t` begins a word exactly if the next place in `u` does. */
  predicate AlikeAt(t: string, u: string, i: nat)
    requires i < |t| && i + 1 < |u|
  {
    Boundary(t, i) == Boundary(u, i + 1)
  }

  /** The totals of the two placements, character by character. */
  lemma {:induction false} GapTotals(t: string, u: string, n: nat, gap: nat, m: nat)
    requires 0 < n && 0 < gap && n + gap + m <= |t| && n + gap + 1 + m <= |u| && t[..n] == u[..n]
    requires forall i :: n + gap <= i < n + gap + m ==> AlikeAt(t, u, i)
    ensures var (f, g) := (TwoRows(n, n + gap, m), TwoRows(n, n + gap + 1, m));
      && (forall k :: 0 <= k < n + m ==> f[k] < |t| && g[k] < |u|)
      && Total(u, g) == Total(t, f) + (if m > 0 then 20 + m else 0)
      && (m > 0 ==> Row(f, n + m - 1) == Row(g, n + m - 1))
      && (m > 0 ==> f[n + m - 1] == n + gap + m - 1 && g[n + m - 1] == n + gap + m)
  {
    hide Total, Row, Part, Boundary;
    var (f, g) := (TwoRows(n, n + gap, m), TwoRows(n, n + gap + 1, m));
    if m == 0 {
      assert f == g == InARow(0, n);
      SameTotal(t, u, f, n);
    } else {
      GapTotals(t, u, n, gap, m - 1);
      TwoRowsGrow(n, n + gap, m - 1);
      TwoRowsGrow(n, n + gap + 1, m - 1);
      var (f', g') := (TwoRows(n, n + gap, m - 1), TwoRows(n, n + gap + 1, m - 1));
      TotalSnoc(t, f', n + gap + m - 1);
      TotalSnoc(u, g', n + gap + m);
      PartIs(t, f', n + gap + m - 1);
      PartIs(u, g', n + gap + m);
      assert AlikeAt(t, u, n + gap + m - 1);
    }
  }

  /**
   * One more character in a gap costs 2 points, and a tenth of a point for each character that is matched
   * after it.
   */
  lemma GapsCost(a: string, fill: string, c: char, b: string)
    requires a != "" && b != "" && fill != "" && b[0] !in fill && b[0] != c
    requires !SetsApart(c) && !SetsApart(fill[|fill| - 1])
    ensures MatchQuery(a + b, a + fill + [c] + b).score == MatchQuery(a + b, a + fill + b).score + 20 + |b|
  {
    hide Total, Earliest, TwoRows, Row;
    var (q, t, u, n, gap, m) := (a + b, a + fill + b, a + (fill + [c]) + b, |a|, |fill|, |b|);
    assert u == a + fill + [c] + b;
    TwoRowsFit(a, fill, b);
    TwoRowsFit(a, fill + [c], b);
    ScoreIs(q, t, TwoRows(n, n + gap, m));
    ScoreIs(q, u, TwoRows(n, n + gap + 1, m));
    hide MatchQuery;
    forall i | n + gap <= i < n + gap + m ensures AlikeAt(t, u, i) {
      assert t[i - 1] == if i == n + gap then fill[gap - 1] else b[i - 1 - n - gap];
      assert u[i] == if i == n + gap then c else b[i - 1 - n - gap];
    }
    GapTotals(t, u, n, gap, m);
  }

  /* ---------- Exchanged queries and several tokens ---------- */

  /** A query that matches only with letters and digits exchanged scores 5 points worse than the exchanged one. */
  lemma ExchangedCosts(lower: string -> string, query: string, text: string, a: string, b: string)
    requires lower(query) == a + b && TwoRuns(a, b)
    requires !Subsequence(a + b, lower(text)) && Subsequence(b + a, lower(text))
    ensures FuzzyMatch(lower, query, text) == Match(true, MatchQuery(b + a, lower(text)).score + 50)
  {
    hide Subsequence, Found;
    SwappedIs(a + b, a, b);
    GreedyIsComplete(a + b, lower(text));
    GreedyIsComplete(b + a, lower(text));
  }

  /** The score of an item is the sum of those of its tokens. */
  lemma {:induction false} ScoresAddUp(lower: string -> string, a: seq<string>, b: seq<string>, text: string)
    ensures TotalScore(lower, a + b, text) == TotalScore(lower, a, text) + TotalScore(lower, b, text)
    ensures |a| == 1 ==> TotalScore(lower, a, text) == FuzzyMatch(lower, a[0], text).score
  {
    hide FuzzyMatch, TotalScore;
    if b == [] {
      assert a + b == a;
      NoTokens(lower, text);
    } else {
      var n := |b| - 1;
      ScoresAddUp(lower, a, b[..n], text);
      assert a + b == (a + b[..n]) + [b[n]] && b == b[..n] + [b[n]];
      OneMoreToken(lower, a + b[..n], b[n], text);
      OneMoreToken(lower, b[..n], b[n], text);
    }
    if |a| == 1 {
      assert a == [] + [a[0]];
      NoTokens(lower, text);
      OneMoreToken(lower, [], a[0], text);
    }
  }

  lemma NoTokens(lower: string -> string, text: string)
    ensures TotalScore(lower, [], text) == 0
  {
  }

  lemma OneMoreToken(lower: string -> string, tokens: seq<string>, token: string, text: string)
    ensures TotalScore(lower, tokens + [token], text)
      == TotalScore(lower, tokens, text) + FuzzyMatch(lower, token, text).score
  {
    hide FuzzyMatch;
    assert (tokens + [token])[..|tokens|] == tokens;
  }

  /** An empty query matches without a score, and what does not match has none either. */
  lemma NothingScoresNothing(q: string, t: string)
    ensures MatchQuery("", t) == Match(true, 0)
    ensures !Subsequence(q, t) ==> MatchQuery(q, t) == Match(false, 0)
  {
    GreedyIsComplete(q, t);
    if q == "" { EmptyFound(t); }
  }

  /* ---------- Characters ---------- */

  /** What `\s` stands for: the white space and line terminators of sections 12.2 and 12.3 of ECMA-262. */
  const WHITE_SPACE := "\U{0009}\U{000A}\U{000B}\U{000C}\U{000D}\U{0020}\U{00A0}\U{1680}"
    + "\U{2000}\U{2001}\U{2002}\U{2003}\U{2004}\U{2005}\U{2006}\U{2007}\U{2008}\U{2009}\U{200A}"
    + "\U{2028}\U{2029}\U{202F}\U{205F}\U{3000}\U{FEFF}"

  const LETTERS := "abcdefghijklmnopqrstuvwxyz"
  const DIGITS := "0123456789"

  lemma WhiteSpaceIs(c: char)
    ensures IsSpace(c) <==> c in WHITE_SPACE
  {
    if '\U{2000}' <= c <= '\U{200A}' { assert WHITE_SPACE[8 + (c as int - 0x2000)] == c; }
  }

  /** A query is split at slashes and white space. */
  lemma SeparatorsAre(c: char)
    ensures Separates(c) <==> c == '/' || c in WHITE_SPACE
  {
    WhiteSpaceIs(c);
  }

  lemma LettersAre(s: string)
    ensures Letters(s) <==> s != "" && forall c :: c in s ==> c in LETTERS
    ensures Digits(s) <==> s != "" && forall c :: c in s ==> c in DIGITS
  {
    forall i | 0 <= i < |s|
      ensures ('a' <= s[i] <= 'z' <==> s[i] in LETTERS) && ('0' <= s[i] <= '9' <==> s[i] in DIGITS)
    {
      if 'a' <= s[i] <= 'z' { assert LETTERS[s[i] as int - 'a' as int] == s[i]; }
      if '0' <= s[i] <= '9' { assert DIGITS[s[i] as int - '0' as int] == s[i]; }
    }
  }
}

/**
 * Fuzzy matching: a greedy scan that decides whether the query's characters occur in order in the text,
 * and a filter that keeps the items matched by every token, best score first. Scores count in tenths;
 * `lower` stands for the conversion to lower case.
 */
module Fuzzy {
  import StableSort

  /* ---------- Occurring in order ---------- */

  /** `f` places the characters of `q`, in order, in `t`. */
  ghost predicate Embeds(q: string, t: string, f: seq<nat>) {
    && |f| == |q|
    && (forall k :: 0 <= k < |f| ==> f[k] < |t| && t[f[k]] == q[k])
    && (forall j, k :: 0 <= j < k < |f| ==> f[j] < f[k])
  }

  ghost predicate Subsequence(q: string, t: string) {
    exists f :: Embeds(q, t, f)
  }

  /** Where the greedy scan of the first `i` characters has matched. */
  function Positions(q: string, t: string, i: nat): (f: seq<nat>)
    requires i <= |t|
    ensures |f| <= |q| && |f| <= i
    ensures forall k :: 0 <= k < |f| ==> f[k] < i && t[f[k]] == q[k]
    ensures forall j, k :: 0 <= j < k < |f| ==> f[j] < f[k]
  {
    if i == 0 then []
    else
      var before := Positions(q, t, i - 1);
      if |before| < |q| && t[i - 1] == q[|before|] then before + [i - 1] else before
  }

  predicate Found(q: string, t: string) {
    |Positions(q, t, |t|)| == |q|
  }

  /** No placement gets further than the scan: the `k`th match of the scan comes no later than any other. */
  lemma {:induction false} GreedyIsFirst(q: string, t: string, f: seq<nat>, i: nat, k: nat)
    requires Embeds(q, t, f) && i <= |t| && k < |q| && f[k] < i
    ensures k < |Positions(q, t, i)| && Positions(q, t, i)[k] <= f[k]
    decreases i
  {
    hide Positions;
    PositionsStep(q, t, i - 1);
    var before := Positions(q, t, i - 1);
    if f[k] < i - 1 {
      GreedyIsFirst(q, t, f, i - 1, k);
    } else {
      if k > 0 {
        assert f[k - 1] < f[k];
        GreedyIsFirst(q, t, f, i - 1, k - 1);
      }
      assert t[i - 1] == q[k];
    }
  }

  /** The greedy scan finds the query exactly when its characters occur in order. */
  lemma GreedyIsComplete(q: string, t: string)
    ensures Found(q, t) <==> Subsequence(q, t)
  {
    if Found(q, t) { assert Embeds(q, t, Positions(q, t, |t|)); }
    if Subsequence(q, t) && q != "" {
      var f :| Embeds(q, t, f);
      GreedyIsFirst(q, t, f, |t|, |q| - 1);
    }
  }

  /* ---------- Scores ---------- */

  datatype Match = Match(matches: bool, score: int)

  predicate IsSpace(c: char) {
    c in "\t\n\U{0B}\U{0C}\r \U{A0}\U{1680}\U{2028}\U{2029}\U{202F}\U{205F}\U{3000}\U{FEFF}" || '\U{2000}' <= c <= '\U{200A}'
  }

  predicate Boundary(t: string, i: nat)
    requires i < |t|
  {
    i == 0 || IsSpace(t[i - 1]) || t[i - 1] in "-_./:"
  }

  /** The match before the `k`th; before the first one, the place before the text. */
  function Previous(f: seq<nat>, k: nat): int
    requires k < |f|
  {
    if k == 0 then -1 else f[k - 1]
  }

  /** How many matches in a row end with the `k`th, not counting the first of them. */
  function Row(f: seq<nat>, k: nat): nat
    requires k < |f|
  {
    if f[k] == Previous(f, k) + 1 then 1 + (if k == 0 then 0 else Row(f, k - 1)) else 0
  }

  function Part(t: string, f: seq<nat>, k: nat): int
    requires k < |f| && f[k] < |t|
  {
    (if f[k] == Previous(f, k) + 1 then -50 * Row(f, k)
     else if k > 0 then 20 * (f[k] - Previous(f, k) - 1)
     else 0)
    - (if Boundary(t, f[k]) then 100 else 0) + f[k]
  }

  function Total(t: string, f: seq<nat>): int
    requires forall k :: 0 <= k < |f| ==> f[k] < |t|
  {
    if f == [] then 0 else
      Total(t, f[..|f| - 1]) + Part(t, f, |f| - 1)
  }

  function MatchQuery(q: string, t: string): Match {
    if q == "" then Match(true, 0)
    else if !Found(q, t) then Match(false, 0)
    else Match(true, Total(t, Positions(q, t, |t|)) - if q == t then 1000 else 0)
  }

  lemma {:induction false} RowStable(f: seq<nat>, x: nat, k: nat)
    requires k < |f|
    ensures Row(f + [x], k) == Row(f, k)
  {
    if k > 0 { RowStable(f, x, k - 1); }
  }

  lemma TotalSnoc(t: string, f: seq<nat>, x: nat)
    requires x < |t| && forall k :: 0 <= k < |f| ==> f[k] < |t|
    ensures Total(t, f + [x]) == Total(t, f) + Part(t, f + [x], |f|)
  {
    assert (f + [x])[..|f|] == f;
  }

  /** What the scan's variables say once the matches are `f`. */
  ghost predicate Scanned(t: string, f: seq<nat>, matched: nat, score: int, last: int, run: nat) {
    && matched == |f| && (forall k :: 0 <= k < |f| ==> f[k] < |t|) && score == Total(t, f)
    && last == (if f == [] then -1 else f[|f| - 1])
    && run == if f == [] then 0 else Row(f, |f| - 1)
  }

  /** One match more. */
  lemma ScannedSnoc(t: string, f: seq<nat>, i: nat, matched: nat, score: int, last: int, run: nat)
    requires i < |t| && Scanned(t, f, matched, score, last, run)
    ensures Scanned(t, f + [i], matched + 1, score + Added(t, i, last, run), i, if last == i - 1 then run + 1 else 0)
  {
    hide Part, Total, Row, Boundary;
    TotalSnoc(t, f, i);
    PartIs(t, f, i);
  }

  function Added(t: string, i: nat, last: int, run: nat): int
    requires i < |t|
  {
    (if last == i - 1 then -50 * (run + 1) else if last >= 0 then 20 * (i - last - 1) else 0)
    - (if Boundary(t, i) then 100 else 0) + i
  }

  /** `matchQuery`: the scan, with its running score. */
  method ScanQuery(q: string, t: string) returns (m: Match)
    ensures m == MatchQuery(q, t)
    ensures m.matches <==> Subsequence(q, t)
  {
    hide Positions, Subsequence, Total;
    GreedyIsComplete(q, t);
    if q == "" { EmptyFound(t); return Match(true, 0); }
    if |q| > |t| { return Match(false, 0); }
    var queryIndex, score := ScanText(q, t);
    if queryIndex < |q| { return Match(false, 0); }
    if q == t { score := score - 1000; }
    m := Match(true, score);
  }

  /** The loop over the text: how much of the query is matched, and the score so far. */
  method ScanText(q: string, t: string) returns (queryIndex: nat, score: int)
    ensures queryIndex == |Positions(q, t, |t|)| && score == Total(t, Positions(q, t, |t|))
  {
    hide Positions, Scanned, Added;
    var lastMatchIndex, consecutiveMatches, i := -1, 0, 0;
    queryIndex, score := 0, 0;
    ScannedNone(q, t);
    while i < |t| && queryIndex < |q|
      invariant i <= |t| && queryIndex == |Positions(q, t, i)|
      invariant Scanned(t, Positions(q, t, i), queryIndex, score, lastMatchIndex, consecutiveMatches)
    {
      PositionsStep(q, t, i);
      if t[i] == q[queryIndex] {
        ScannedSnoc(t, Positions(q, t, i), i, queryIndex, score, lastMatchIndex, consecutiveMatches);
        consecutiveMatches, score := AddMatch(t, i, lastMatchIndex, consecutiveMatches, score);
        lastMatchIndex := i;
        queryIndex := queryIndex + 1;
      }
      i := i + 1;
    }
    Settled(q, t, i);
    ScannedIs(t, Positions(q, t, i), queryIndex, score, lastMatchIndex, consecutiveMatches);
  }

  lemma ScannedNone(q: string, t: string)
    ensures Positions(q, t, 0) == [] && Scanned(t, Positions(q, t, 0), 0, 0, -1, 0)
  {
  }

  lemma ScannedIs(t: string, f: seq<nat>, matched: nat, score: int, last: int, run: nat)
    requires (forall k :: 0 <= k < |f| ==> f[k] < |t|) && Scanned(t, f, matched, score, last, run)
    ensures score == Total(t, f)
  {
    hide Total, Row;
  }

  /** What a match at `i` adds to the score, after a match at `last`. */
  method AddMatch(t: string, i: nat, last: int, run: nat, before: int) returns (consecutiveMatches: nat, score: int)
    requires i < |t|
    ensures consecutiveMatches == if last == i - 1 then run + 1 else 0
    ensures score == before + Added(t, i, last, run)
  {
    consecutiveMatches, score := 0, before;
    if last == i - 1 {
      consecutiveMatches := run + 1;
      score := score - consecutiveMatches * 50;
    } else if last >= 0 {
      score := score + (i - last - 1) * 20;
    }
    if Boundary(t, i) { score := score - 100; }
    score := score + i;
  }

  lemma EmptyFound(t: string)
    ensures Found("", t)
  {
  }

  lemma PositionsStep(q: string, t: string, i: nat)
    requires i < |t|
    ensures var f := Positions(q, t, i);
      Positions(q, t, i + 1) == if |f| < |q| && t[i] == q[|f|] then f + [i] else f
  {
  }

  /** What one more match adds. */
  lemma PartIs(t: string, f: seq<nat>, i: nat)
    requires i < |t|
    ensures var g := f + [i];
      var previous: int := if f == [] then -1 else f[|f| - 1];
      var row := if f == [] then 0 else Row(f, |f| - 1);
      && Row(g, |f|) == (if previous == i - 1 then row + 1 else 0)
      && Part(t, g, |f|) ==
        (if previous == i - 1 then -50 * (row + 1) else if previous >= 0 then 20 * (i - previous - 1) else 0)
        - (if Boundary(t, i) then 100 else 0) + i
  {
    if f != [] { RowStable(f, i, |f| - 1); }
  }

  /** Once the whole query is matched, the scan may stop. */
  lemma {:induction false} Settled(q: string, t: string, i: nat)
    requires i <= |t| && (|Positions(q, t, i)| == |q| || i == |t|)
    ensures Positions(q, t, |t|) == Positions(q, t, i)
    decreases |t| - i
  {
    if i < |t| { Settled(q, t, i + 1); }
  }

  /* ---------- Letters and digits the other way round ---------- */

  predicate Letters(s: string) {
    s != "" && forall i :: 0 <= i < |s| ==> 'a' <= s[i] <= 'z'
  }

  predicate Digits(s: string) {
    s != "" && forall i :: 0 <= i < |s| ==> '0' <= s[i] <= '9'
  }

  /** Where a run of letters, or of digits, at the start ends. */
  function RunEnd(s: string, letters: bool, i: nat): (n: nat)
    requires i <= |s|
    ensures i <= n <= |s|
    ensures forall k :: i <= k < n ==> if letters then 'a' <= s[k] <= 'z' else '0' <= s[k] <= '9'
    ensures n < |s| ==> !(if letters then 'a' <= s[n] <= 'z' else '0' <= s[n] <= '9')
    decreases |s| - i
  {
    if i < |s| && (if letters then 'a' <= s[i] <= 'z' else '0' <= s[i] <= '9') then RunEnd(s, letters, i + 1) else i
  }

  /** The query with its letters and digits exchanged, or "". */
  function Swapped(q: string): string {
    var n := RunEnd(q, true, 0);
    var m := RunEnd(q, false, 0);
    if Letters(q[..n]) && Digits(q[n..]) then q[n..] + q[..n]
    else if Digits(q[..m]) && Letters(q[m..]) then q[m..] + q[..m]
    else ""
  }

  predicate TwoRuns(a: string, b: string) {
    (Letters(a) && Digits(b)) || (Digits(a) && Letters(b))
  }

  /** Queries made of letters and then digits, or of digits and then letters, are swapped, and twice is back. */
  lemma SwappedIs(q: string, a: string, b: string)
    requires q == a + b && TwoRuns(a, b)
    ensures Swapped(q) == b + a && Swapped(Swapped(q)) == q
  {
    SwappedOnce(q, a, b);
    SwappedOnce(b + a, b, a);
  }

  lemma SwappedOnce(q: string, a: string, b: string)
    requires q == a + b && TwoRuns(a, b)
    ensures Swapped(q) == b + a
  {
    assert q[|a|] == b[0] && q[0] == a[0];
    var n := RunEnd(q, Letters(a), 0);
    assert forall k :: 0 <= k < |a| ==> q[k] == a[k];
    assert q[..|a|] == a && q[|a|..] == b;
  }

  /** No other query is. */
  lemma SwappedOnly(q: string) returns (a: string, b: string)
    requires Swapped(q) != ""
    ensures q == a + b && TwoRuns(a, b)
  {
    hide Letters, Digits, RunEnd;
    var (n, m) := (RunEnd(q, true, 0), RunEnd(q, false, 0));
    if Letters(q[..n]) && Digits(q[n..]) { a, b := q[..n], q[n..]; } else { a, b := q[..m], q[m..]; }
  }

  /** `fuzzyMatch`. */
  function FuzzyMatch(lower: string -> string, query: string, text: string): Match {
    var (q, t) := (lower(query), lower(text));
    var primary := MatchQuery(q, t);
    var swapped := MatchQuery(Swapped(q), t);
    if primary.matches || Swapped(q) == "" || !swapped.matches then primary
    else Match(true, swapped.score + 50)
  }

  /** A token matches when its characters occur in order, as they are or with letters and digits exchanged. */
  lemma MatchesWhenInOrder(lower: string -> string, query: string, text: string)
    ensures FuzzyMatch(lower, query, text).matches <==>
      || Subsequence(lower(query), lower(text))
      || (Swapped(lower(query)) != "" && Subsequence(Swapped(lower(query)), lower(text)))
  {
    GreedyIsComplete(lower(query), lower(text));
    GreedyIsComplete(Swapped(lower(query)), lower(text));
    if lower(query) == "" { EmptyFound(lower(text)); }
  }

  method MatchFuzzily(lower: string -> string, query: string, text: string) returns (m: Match)
    ensures m == FuzzyMatch(lower, query, text)
  {
    hide Found, Subsequence;
    var queryLower, textLower := lower(query), lower(text);
    m := ScanQuery(queryLower, textLower);
    if m.matches { return; }
    var swappedQuery := Swapped(queryLower);
    if swappedQuery == "" { return; }
    var swappedMatch := ScanQuery(swappedQuery, textLower);
    if swappedMatch.matches { m := Match(true, swappedMatch.score + 50); }
  }

  /* ---------- The filter ---------- */

  predicate Separates(c: char) {
    IsSpace(c) || c == '/'
  }

  datatype Split = Split(tokens: seq<string>, current: string)

  function End(s: Split): seq<string> {
    if s.current == "" then s.tokens else s.tokens + [s.current]
  }

  function SplitAt(s: string): Split {
    if s == "" then Split([], "")
    else
      var before := SplitAt(s[..|s| - 1]);
      var c := s[|s| - 1];
      if Separates(c) then Split(End(before), "") else before.(current := before.current + [c])
  }

  /** The query split at white space and slashes, without empty parts. */
  function Tokens(query: string): seq<string> {
    End(SplitAt(query))
  }

  /** A separator splits: the tokens are those before it and those after it. */
  lemma {:induction false} TokensSplit(a: string, c: char, b: string)
    requires Separates(c)
    ensures Tokens(a + [c] + b) == Tokens(a) + Tokens(b)
  {
    SplitAfter(a, c, b);
  }

  lemma {:induction false} SplitAfter(a: string, c: char, b: string)
    requires Separates(c)
    ensures SplitAt(a + [c] + b) == Split(Tokens(a) + SplitAt(b).tokens, SplitAt(b).current)
    decreases |b|
  {
    hide SplitAt, Separates;
    if b == "" {
      SplitSnoc(a, c);
      SplitNothing();
      assert a + [c] + b == a + [c] && Tokens(a) + [] == Tokens(a);
    } else {
      var (front, last) := (b[..|b| - 1], b[|b| - 1]);
      SplitAfter(a, c, front);
      SplitSnoc(a + [c] + front, last);
      SplitSnoc(front, last);
      assert a + [c] + b == (a + [c] + front) + [last] && b == front + [last];
      EndAfter(Tokens(a), SplitAt(front));
    }
  }

  lemma SplitSnoc(s: string, c: char)
    ensures SplitAt(s + [c]) ==
      var before := SplitAt(s);
      if Separates(c) then Split(End(before), "") else before.(current := before.current + [c])
  {
    assert (s + [c])[..|s|] == s;
  }

  lemma SplitNothing()
    ensures SplitAt("") == Split([], "")
  {
  }

  lemma EndAfter(tokens: seq<string>, s: Split)
    ensures End(Split(tokens + s.tokens, s.current)) == tokens + End(s)
  {
  }

  /** Where there is no separator, there is one token, the whole text; nothing gives none. */
  lemma {:induction false} TokensWord(w: string)
    requires forall i :: 0 <= i < |w| ==> !Separates(w[i])
    ensures SplitAt(w) == Split([], w)
    ensures Tokens(w) == if w == "" then [] else [w]
  {
    hide Separates;
    if w != "" {
      TokensWord(w[..|w| - 1]);
      assert w == w[..|w| - 1] + [w[|w| - 1]];
    }
  }

  function AllMatch(lower: string -> string, tokens: seq<string>, text: string): bool {
    forall i :: 0 <= i < |tokens| ==> FuzzyMatch(lower, tokens[i], text).matches
  }

  function TotalScore(lower: string -> string, tokens: seq<string>, text: string): int {
    if tokens == [] then 0
    else TotalScore(lower, tokens[..|tokens| - 1], text) + FuzzyMatch(lower, tokens[|tokens| - 1], text).score
  }

  /** The items all of whose tokens match, in order. */
  function Matching<T>(lower: string -> string, tokens: seq<string>, items: seq<T>, getText: T -> string): seq<T> {
    if items == [] then []
    else
      var last := items[|items| - 1];
      Matching(lower, tokens, items[..|items| - 1], getText) + if AllMatch(lower, tokens, getText(last)) then [last] else []
  }

  /** `fuzzyFilter`. */
  function Filtered<T>(lower: string -> string, items: seq<T>, query: string, getText: T -> string): seq<T> {
    var tokens := Tokens(query);
    if tokens == [] then items
    else StableSort.Sort(Matching(lower, tokens, items, getText), (item: T) => TotalScore(lower, tokens, getText(item)))
  }

  /** Exactly the matching items come out, by ascending total score, equal ones in the order they were given. */
  lemma FilterIsExact<T(!new)>(lower: string -> string, items: seq<T>, query: string, getText: T -> string)
    requires Tokens(query) != []
    ensures var tokens := Tokens(query); var hits := Matching(lower, tokens, items, getText);
      var r := Filtered(lower, items, query, getText);
      var key := (item: T) => TotalScore(lower, tokens, getText(item));
      && multiset(r) == multiset(hits)
      && (forall i, j :: 0 <= i < j < |r| ==> key(r[i]) <= key(r[j]))
      && (forall k :: StableSort.WithKey(r, key, k) == StableSort.WithKey(hits, key, k))
  {
    var tokens := Tokens(query);
    StableSort.SortFacts(Matching(lower, tokens, items, getText), (item: T) => TotalScore(lower, tokens, getText(item)));
  }

  /** An item is kept exactly if it was given and every token matches it. */
  lemma MatchingHolds<T>(lower: string -> string, tokens: seq<string>, items: seq<T>, getText: T -> string, x: T)
    ensures x in Matching(lower, tokens, items, getText) <==>
      x in items && forall token :: token in tokens ==> FuzzyMatch(lower, token, getText(x)).matches
  {
    MatchingAll(lower, tokens, items, getText, x);
    hide FuzzyMatch;
    if AllMatch(lower, tokens, getText(x)) {
      forall token | token in tokens ensures FuzzyMatch(lower, token, getText(x)).matches {
        var i :| 0 <= i < |tokens| && tokens[i] == token;
      }
    }
  }

  lemma {:induction false} MatchingAll<T>(
      lower: string -> string, tokens: seq<string>, items: seq<T>, getText: T -> string, x: T)
    ensures x in Matching(lower, tokens, items, getText) <==> x in items && AllMatch(lower, tokens, getText(x))
  {
    hide AllMatch;
    if items != [] {
      var (front, last) := (items[..|items| - 1], items[|items| - 1]);
      MatchingAll(lower, tokens, front, getText, x);
      InSnoc(items, front, last, x);
    }
  }

  lemma InSnoc<T>(s: seq<T>, front: seq<T>, last: T, x: T)
    requires s == front + [last]
    ensures x in s <==> x in front || x == last
  {
  }

  /** Scoring one item stops at the first token that does not match. */
  method ScoreItem(lower: string -> string, tokens: seq<string>, text: string) returns (allMatch: bool, totalScore: int)
    ensures allMatch == AllMatch(lower, tokens, text)
    ensures allMatch ==> totalScore == TotalScore(lower, tokens, text)
  {
    hide FuzzyMatch;
    totalScore, allMatch := 0, true;
    for i := 0 to |tokens|
      invariant allMatch && forall k :: 0 <= k < i ==> FuzzyMatch(lower, tokens[k], text).matches
      invariant totalScore == TotalScore(lower, tokens[..i], text)
    {
      assert tokens[..i + 1][..i] == tokens[..i];
      var m := MatchFuzzily(lower, tokens[i], text);
      if !m.matches { return false, totalScore; }
      totalScore := totalScore + m.score;
    }
    assert tokens[..|tokens|] == tokens;
  }

  datatype Scored<T> = Scored(item: T, totalScore: int)

  function Items<T>(results: seq<Scored<T>>): (items: seq<T>)
    ensures |items| == |results|
  {
    seq(|results|, i requires 0 <= i < |results| => results[i].item)
  }

  method FuzzyFilter<T>(lower: string -> string, items: seq<T>, query: string, getText: T -> string) returns (r: seq<T>)
    ensures r == Filtered(lower, items, query, getText)
  {
    hide AllMatch, FuzzyMatch, TotalScore;
    var tokens := Tokens(query);
    if tokens == [] { return items; }
    ghost var key := (item: T) => TotalScore(lower, tokens, getText(item));
    var results: seq<Scored<T>> := [];
    for i := 0 to |items|
      invariant Items(results) == Matching(lower, tokens, items[..i], getText)
      invariant forall k :: 0 <= k < |results| ==> results[k].totalScore == key(results[k].item)
    {
      assert items[..i + 1][..i] == items[..i];
      var allMatch, totalScore := ScoreItem(lower, tokens, getText(items[i]));
      if allMatch {
        assert Items(results + [Scored(items[i], totalScore)]) == Items(results) + [items[i]];
        results := results + [Scored(items[i], totalScore)];
      }
    }
    assert items[..|items|] == items;
    SortItems(results, key);
    r := Items(StableSort.Sort(results, (x: Scored<T>) => x.totalScore));
  }

  /** Sorting scored items by their score sorts the items. */
  lemma {:induction false} SortItems<T>(results: seq<Scored<T>>, key: T -> int)
    requires forall k :: 0 <= k < |results| ==> results[k].totalScore == key(results[k].item)
    ensures Items(StableSort.Sort(results, (x: Scored<T>) => x.totalScore)) == StableSort.Sort(Items(results), key)
    ensures forall x :: x in StableSort.Sort(results, (x: Scored<T>) => x.totalScore) ==> x.totalScore == key(x.item)
  {
    if results != [] {
      var (front, last) := (results[..|results| - 1], results[|results| - 1]);
      var byScore := (x: Scored<T>) => x.totalScore;
      SortItems(front, key);
      assert Items(results)[..|results| - 1] == Items(front);
      InsertItems(StableSort.Sort(front, byScore), last, key);
    }
  }

  lemma {:induction false} InsertItems<T>(sorted: seq<Scored<T>>, x: Scored<T>, key: T -> int)
    requires x.totalScore == key(x.item) && forall y :: y in sorted ==> y.totalScore == key(y.item)
    ensures Items(StableSort.Insert(sorted, x, (y: Scored<T>) => y.totalScore)) == StableSort.Insert(Items(sorted), x.item, key)
    ensures forall y :: y in StableSort.Insert(sorted, x, (y: Scored<T>) => y.totalScore) ==> y.totalScore == key(y.item)
  {
    if sorted != [] {
      var (front, last) := (sorted[..|sorted| - 1], sorted[|sorted| - 1]);
      assert last in sorted && forall y :: y in front ==> y in sorted;
      assert Items(sorted)[..|sorted| - 1] == Items(front);
      if last.totalScore > x.totalScore { InsertItems(front, x, key); }
    }
  }
}

/**
 * The tokeniser loses nothing, undoes concatenation, and does not care how its input was cut.
 */
module StdinProofs {
  import opened Wrappers
  import opened Strings
  import opened StdinSpec

  /* ---------- Tokens ---------- */

  /** A minimal complete sequence: one plain character, or an escape sequence no proper prefix of which is complete. */
  ghost predicate Minimal(t: string) {
    && t != ""
    && (t[0] != ESC ==> |t| == 1)
    && (t[0] == ESC ==>
      && IsCompleteSequence(t) == Complete
      && forall k :: 1 <= k < |t| ==> IsCompleteSequence(t[..k]) == Incomplete)
  }

  /** An escape sequence still under way. */
  ghost predicate Unfinished(r: string) {
    r != "" && r[0] == ESC && forall k :: 1 <= k <= |r| ==> IsCompleteSequence(r[..k]) == Incomplete
  }

  const PAIR := "\U{1B}\U{1B}"

  /** `t` is the pair of escapes that the introducer after it takes apart. */
  predicate Parted(t: string, after: string) {
    t == PAIR && after != "" && Introduces(after[0])
  }

  lemma EscapeStatus(s: string)
    requires s != "" && s[0] == ESC
    ensures IsCompleteSequence(s) != NotEscape
  {
  }

  /** What the first step of splitting `s` takes off. */
  lemma FirstToken(s: string)
    requires s != ""
    ensures match TokenLength(s)
      case None => Unfinished(s)
      case Some(n) =>
        || (Minimal(s[..n]) && !Parted(s[..n], s[n..]))
        || (n == 1 && |s| > 2 && Parted(s[..2], s[2..]))
  {
    if s[0] == ESC {
      var end := ScanEnd(s, 1);
      if end.Some? {
        var n := end.value;
        assert forall k :: 1 <= k < n ==> s[..n][..k] == s[..k];
        EscapeStatus(s[..n]);
        assert n == 2 && s[1] == ESC ==> s[..2] == PAIR;
      } else {
        assert s[..|s|] == s;
      }
    }
  }

  /** A minimal sequence is what splitting takes off, unless it is a parted pair. */
  lemma TakesMinimal(t: string, rest: string)
    requires Minimal(t)
    ensures TokenLength(t + rest) == Some(if Parted(t, rest) then 1 else |t|)
  {
    var s := t + rest;
    assert s[0] == t[0];
    if t[0] == ESC {
      assert forall k :: 0 <= k <= |t| ==> s[..k] == t[..k];
      assert t[..|t|] == t;
      ScanFinds(s, 1, |t|);
      assert |t| == 2 && t[1] == ESC ==> t == PAIR;
    }
  }

  lemma {:induction false} ScanFinds(s: string, n: nat, m: nat)
    requires n <= m <= |s|
    requires IsCompleteSequence(s[..m]) != Incomplete
    requires forall k :: n <= k < m ==> IsCompleteSequence(s[..k]) == Incomplete
    ensures ScanEnd(s, n) == Some(m)
    decreases m - n
  {
    if n < m { ScanFinds(s, n + 1, m); }
  }

  /** Tokens are stable: once the first sequence is complete, more input leaves it alone unless it parts a pair. */
  lemma TokenGrows(x: string, y: string)
    requires x != "" && TokenLength(x).Some?
    requires !(x == PAIR && Parted(x, y))
    ensures TokenLength(x + y) == TokenLength(x)
  {
    var n := TokenLength(x).value;
    FirstToken(x);
    if Minimal(x[..n]) && !Parted(x[..n], x[n..]) {
      assert x + y == x[..n] + (x[n..] + y);
      TakesMinimal(x[..n], x[n..] + y);
      if x[n..] == "" { assert x == x[..n]; assert x[n..] + y == y; } else { assert (x[n..] + y)[0] == x[n..][0]; }
    } else {
      assert x + y == x[..2] + (x[2..] + y);
      PairIsMinimal();
      TakesMinimal(PAIR, x[2..] + y);
      assert (x[2..] + y)[0] == x[2..][0];
    }
  }

  lemma PairIsMinimal()
    ensures Minimal(PAIR)
  {
    assert PAIR[..1] == [ESC];
  }

  /* ---------- Splitting ---------- */

  lemma FlattenNone()
    ensures Flatten([]) == ""
  {
  }

  lemma FlattenCons(t: string, ts: seq<string>)
    ensures Flatten([t] + ts) == t + Flatten(ts)
  {
    assert ([t] + ts)[1..] == ts;
  }

  lemma Rejoin(s: string, n: nat, middle: string, end: string)
    requires n <= |s| && middle + end == s[n..]
    ensures (s[..n] + middle) + end == s
  {
    assert (s[..n] + middle) + end == s[..n] + (middle + end);
  }

  /** Nothing is lost, and what remains is an unfinished escape sequence. */
  lemma {:induction false} ExtractJoins(buffer: string)
    ensures var x := Extract(buffer);
      && Flatten(x.sequences) + x.remainder == buffer
      && (x.remainder == "" || Unfinished(x.remainder))
      && Extract(x.remainder) == Extracted([], x.remainder)
    decreases |buffer|
  {
    hide TokenLength, Unfinished, Extract, Flatten;
    ExtractEmpty();
    if buffer == "" {
      FlattenNone();
    } else {
      FirstToken(buffer);
      ExtractStep(buffer);
      match TokenLength(buffer)
      case None => FlattenNone();
      case Some(n) =>
        ExtractJoins(buffer[n..]);
        var rest := Extract(buffer[n..]);
        FlattenCons(buffer[..n], rest.sequences);
        Rejoin(buffer, n, Flatten(rest.sequences), rest.remainder);
    }
  }

  /** Every sequence taken off is minimal, or the lone escape that an introduced sequence parted from its pair. */
  lemma {:induction false} ExtractYieldsTokens(buffer: string, i: nat)
    requires i < |Extract(buffer).sequences|
    ensures var ss := Extract(buffer).sequences;
      Minimal(ss[i]) || ss[i] == [ESC]
    decreases |buffer|
  {
    FirstToken(buffer);
    var n := TokenLength(buffer).value;
    if i > 0 { ExtractYieldsTokens(buffer[n..], i - 1); }
  }

  /** Whether `y`, arriving next, would part a pair that `x` ends with. */
  ghost predicate CutsPair(x: string, y: string) {
    var ss := Extract(x).sequences;
    Extract(x).remainder == "" && ss != [] && Parted(ss[|ss| - 1], y)
  }

  lemma ExtractStep(x: string)
    requires x != ""
    ensures match TokenLength(x)
      case None => Extract(x) == Extracted([], x)
      case Some(n) =>
        var rest := Extract(x[n..]);
        Extract(x) == Extracted([x[..n]] + rest.sequences, rest.remainder)
  {
  }

  lemma ExtractEmpty()
    ensures Extract("") == Extracted([], "")
  {
  }

  lemma CutsPairStep(x: string, y: string)
    requires x != "" && TokenLength(x).Some?
    ensures var n := TokenLength(x).value;
      CutsPair(x, y) <==> if x[n..] == "" then Parted(x, y) else CutsPair(x[n..], y)
  {
    hide TokenLength;
    var n := TokenLength(x).value;
    ExtractStep(x);
    var rest := Extract(x[n..]);
    if x[n..] == "" {
      assert x[..n] == x;
    } else if rest.sequences == [] && rest.remainder == "" {
      ExtractJoins(x[n..]);
    }
  }

  /** Splitting in two steps is splitting at once, unless the cut parts a pair. */
  lemma {:induction false} ExtractGrows(x: string, y: string)
    requires !CutsPair(x, y)
    ensures var a := Extract(x); var b := Extract(a.remainder + y);
      Extract(x + y) == Extracted(a.sequences + b.sequences, b.remainder)
    decreases |x|
  {
    hide *;
    if x == "" {
      ExtractEmpty();
      assert "" + y == y;
      assert [] + Extract(y).sequences == Extract(y).sequences;
    } else {
      ExtractStep(x);
      if TokenLength(x).None? {
        assert [] + Extract(x + y).sequences == Extract(x + y).sequences;
      } else {
        var n := TokenLength(x).value;
        CutsPairStep(x, y);
        ExtractGrowsStep(x, y);
        ExtractGrows(x[n..], y);
        var a := Extract(x[n..]);
        var b := Extract(a.remainder + y);
        assert [x[..n]] + (a.sequences + b.sequences) == ([x[..n]] + a.sequences) + b.sequences;
      }
    }
  }

  lemma ExtractGrowsStep(x: string, y: string)
    requires x != "" && TokenLength(x).Some? && !CutsPair(x, y)
    ensures var n := TokenLength(x).value; var rest := Extract(x[n..] + y);
      && !CutsPair(x[n..], y)
      && Extract(x + y) == Extracted([x[..n]] + rest.sequences, rest.remainder)
  {
    hide TokenLength;
    var n := TokenLength(x).value;
    CutsPairStep(x, y);
    if x == PAIR { PairLength(); }
    TokenGrows(x, y);
    assert (x + y)[..n] == x[..n] && (x + y)[n..] == x[n..] + y;
    ExtractStep(x + y);
  }

  lemma PairLength()
    ensures TokenLength(PAIR) == Some(2)
  {
    PairIsMinimal();
    TakesMinimal(PAIR, "");
    assert PAIR + "" == PAIR;
  }

  /** When the cut does part a pair, splitting at once gives a lone escape where two steps give the pair. */
  lemma {:induction false} ExtractParts(x: string, y: string)
    requires CutsPair(x, y)
    ensures var ss := Extract(x).sequences; var n := |ss| - 1; var whole := Extract(x + y).sequences;
      n >= 0 && ss[n] == PAIR && |whole| > n && whole[..n] == ss[..n] && whole[n] == [ESC]
    decreases |x|
  {
    hide TokenLength, Extract;
    ExtractEmpty();
    ExtractStep(x);
    var n := TokenLength(x).value;
    CutsPairStep(x, y);
    if x[n..] == "" {
      assert x == x[..n];
      PairIsMinimal();
      TakesMinimal(PAIR, y);
      ExtractStep(x + y);
      assert (x + y)[..1] == [ESC];
    } else {
      if x == PAIR { PairLength(); }
      TokenGrows(x, y);
      assert (x + y)[..n] == x[..n] && (x + y)[n..] == x[n..] + y;
      ExtractStep(x + y);
      ExtractParts(x[n..], y);
    }
  }

  ghost predicate NoPartedPair(ts: seq<string>) {
    forall i :: 0 <= i < |ts| - 1 ==> !Parted(ts[i], ts[i + 1])
  }

  lemma NoPartedPairStep(ts: seq<string>)
    requires ts != []
    ensures NoPartedPair(ts) <==> (|ts| > 1 ==> !Parted(ts[0], ts[1])) && NoPartedPair(ts[1..])
  {
    hide Parted;
    var rest := ts[1..];
    if NoPartedPair(ts) {
      forall i | 0 <= i < |rest| - 1 ensures !Parted(rest[i], rest[i + 1]) {
        assert !Parted(ts[i + 1], ts[i + 1 + 1]);
      }
      if |ts| > 1 { assert !Parted(ts[0], ts[0 + 1]); }
    }
    if (|ts| > 1 ==> !Parted(ts[0], ts[1])) && NoPartedPair(rest) {
      forall i | 0 <= i < |ts| - 1 ensures !Parted(ts[i], ts[i + 1]) {
        if i > 0 { assert !Parted(rest[i - 1], rest[i - 1 + 1]); }
      }
    }
  }

  lemma FlattenStep(ts: seq<string>)
    requires ts != [] && forall i :: 0 <= i < |ts| ==> ts[i] != ""
    ensures Flatten(ts) == ts[0] + Flatten(ts[1..]) && Flatten(ts) != ""
    ensures |ts| == 1 ==> Flatten(ts[1..]) == ""
    ensures |ts| > 1 ==> Flatten(ts[1..]) != "" && Flatten(ts[1..])[0] == ts[1][0]
  {
  }

  /** Joined minimal sequences split back into themselves, if and only if none of them is a parted pair. */
  lemma {:induction false} ExtractUndoesJoin(ts: seq<string>)
    requires forall i :: 0 <= i < |ts| ==> Minimal(ts[i])
    ensures Extract(Flatten(ts)) == Extracted(ts, "") <==> NoPartedPair(ts)
  {
    hide *;
    if ts == [] {
      EmptyCase(ts);
    } else {
      forall i | 0 <= i < |ts| ensures ts[i] != "" { MinimalNonempty(ts[i]); }
      FlattenStep(ts);
      NoPartedPairStep(ts);
      var whole := Flatten(ts);
      var rest := Flatten(ts[1..]);
      TakesMinimal(ts[0], rest);
      ExtractStep(whole);
      PartedHead(ts[0], rest, if |ts| > 1 then ts[1] else "");
      if Parted(ts[0], rest) {
        assert |whole[..1]| == 1;
        assert Extract(whole).sequences[0] == whole[..1];
      } else {
        assert whole[..|ts[0]|] == ts[0] && whole[|ts[0]|..] == rest;
        ExtractUndoesJoin(ts[1..]);
        var tail := Extract(rest);
        assert ([ts[0]] + tail.sequences)[1..] == tail.sequences;
        assert ts == [ts[0]] + ts[1..];
      }
    }
  }

  lemma EmptyCase(ts: seq<string>)
    requires ts == []
    ensures Extract(Flatten(ts)) == Extracted(ts, "") && NoPartedPair(ts)
  {
  }

  lemma MinimalNonempty(t: string)
    requires Minimal(t)
    ensures t != ""
  {
  }

  lemma PartedHead(t: string, after: string, next: string)
    requires (after == "" <==> next == "") && (after != "" ==> after[0] == next[0])
    ensures Parted(t, after) <==> Parted(t, next)
    ensures Parted(t, after) ==> t == PAIR && |t| == 2 && next != ""
  {
  }
}

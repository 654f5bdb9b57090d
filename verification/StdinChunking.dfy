/**
 * Feeding input in pieces gives what feeding it at once gives: exactly when no cut parts a pair of
 * escapes and no cut lets a paste marker under way be taken for input.
 */
module StdinChunking {
  import opened Wrappers
  import opened Strings
  import opened StdinSpec
  import opened StdinProofs

  /* ---------- The condition ---------- */

  /**
   * A paste marker at `k`, of which `t` holds only a beginning: that beginning must still be waiting,
   * together with whatever unfinished sequence it interrupts.
   */
  predicate MarkerWaits(t: string, k: nat)
    requires k < |t|
  {
    |Extract(t).remainder| == |Extract(t[..k]).remainder| + |t| - k
  }

  /** Whether text `t` outside a paste may be processed before `b` arrives. */
  ghost predicate TextSafe(t: string, b: string)
    decreases |t|
  {
    var start := IndexOf(t, PASTE_START);
    if start.Some? then
      assert |t[start.value + 6..]| < |t|;
      ContentSafe(t[start.value + 6..], b)
    else
      && !CutsPair(t, b)
      && var k := IndexOf(t + b, PASTE_START);
        k.Some? && k.value < |t| ==> MarkerWaits(t, k.value)
  }

  ghost predicate ContentSafe(c: string, b: string)
    decreases |c|
  {
    var end := IndexOf(c, PASTE_END);
    end.Some? ==>
      (assert |c[end.value + 6..]| < |c|;
       TextSafe(c[end.value + 6..], b))
  }

  ghost predicate SafeCut(s: State, a: string, b: string) {
    if s.pasteMode then ContentSafe(s.pasteBuffer + a, b) else TextSafe(s.buffer + a, b)
  }

  /** `r`, and then the processing of `b`. */
  function Then(r: Result, b: string): Result {
    var q := Process(r.state, b);
    Result(q.state, r.events + q.events)
  }

  /* ---------- Events of a list of sequences ---------- */

  predicate PendingOk(p: Option<nat>) {
    p.Some? ==> p.value >= 32
  }

  lemma {:induction false} EmitConcat(p: Option<nat>, a: seq<string>, b: seq<string>)
    ensures var x := EmitAll(p, a); var y := EmitAll(x.pending, b);
      EmitAll(p, a + b) == Emitted(y.pending, x.events + y.events)
    decreases |a|
  {
    if a == [] {
      assert a + b == b;
      assert [] + EmitAll(p, b).events == EmitAll(p, b).events;
    } else {
      var first := EmitOne(p, a[0]);
      EmitConcat(first.pending, a[1..], b);
      assert (a + b)[1..] == a[1..] + b;
      assert (a + b)[0] == a[0];
      var x := EmitAll(first.pending, a[1..]);
      var y := EmitAll(x.pending, b);
      assert first.events + (x.events + y.events) == (first.events + x.events) + y.events;
    }
  }

  lemma {:induction false} EmitPending(p: Option<nat>, ss: seq<string>)
    requires PendingOk(p)
    ensures PendingOk(EmitAll(p, ss).pending)
    decreases |ss|
  {
    if ss != [] { EmitPending(EmitOne(p, ss[0]).pending, ss[1..]); }
  }

  /** A sequence that starts with an escape is always reported. */
  lemma EmitEscape(p: Option<nat>, ss: seq<string>)
    requires PendingOk(p) && ss != [] && ss[0] != "" && ss[0][0] == ESC
    ensures EmitAll(p, ss).events != [] && EmitAll(p, ss).events[0] == Data(ss[0])
  {
  }

  lemma Differ(e: seq<Event>, x: seq<Event>, y: seq<Event>)
    requires x != [] && (y == [] || y[0] != x[0])
    ensures e + x != e + y
  {
    assert (e + x)[|e|] == x[0];
    if y != [] { assert (e + y)[|e|] == y[0]; }
    assert |e + x| == |e + y| ==> y != [];
  }

  /* ---------- Outside a paste, before any marker ---------- */

  lemma ContentStarts(c: string)
    ensures Content(c).events == [] || Content(c).events[0].Paste?
  {
  }

  lemma TextSplit(t: string, p: Option<nat>)
    ensures match IndexOf(t, PASTE_START)
      case Some(k) =>
        var e := EmitAll(p, Extract(t[..k]).sequences);
        Text(t, p) == Result(Content(t[k + 6..]).state, e.events + Content(t[k + 6..]).events)
      case None =>
        var x := Extract(t);
        var e := EmitAll(p, x.sequences);
        Text(t, p) == Result(State(x.remainder, false, "", e.pending, x.remainder != ""), e.events)
  {
  }

  lemma ContentSplit(c: string)
    ensures match IndexOf(c, PASTE_END)
      case Some(k) =>
        var rest := Text(c[k + 6..], None);
        Content(c) == Result(rest.state, [Paste(c[..k])] + rest.events)
      case None => Content(c) == Result(State("", true, c, None, false), [])
  {
  }

  /** `t` without its unfinished end. */
  function Done(t: string): (n: nat)
    ensures n <= |t| && t[n..] == Extract(t).remainder
  {
    ExtractJoins(t);
    var n := |t| - |Extract(t).remainder|;
    assert n == |Flatten(Extract(t).sequences)|;
    n
  }

  /** Processing `t` and then `b` outside a paste goes on from the unfinished end of `t`. */
  lemma GoesOn(t: string, p: Option<nat>, b: string)
    requires IndexOf(t, PASTE_START).None? && b != ""
    ensures var e := EmitAll(p, Extract(t).sequences);
      var q := Text(Extract(t).remainder + b, e.pending);
      Then(Text(t, p), b) == Result(q.state, e.events + q.events)
  {
    TextSplit(t, p);
  }

  lemma RemainderStays(t: string)
    ensures Extract(Extract(t).remainder) == Extracted([], Extract(t).remainder)
  {
    hide Extract, Unfinished;
    ExtractJoins(t);
  }

  /** The sequences before a marker at `k` of `t + b` are those of `t` and then those up to the marker. */
  lemma BeforeMarker(t: string, b: string, k: nat, d: nat)
    requires IndexOf(t, PASTE_START).None? && IndexOf(t + b, PASTE_START) == Some(k)
    requires !CutsPair(t, b) && (k < |t| ==> MarkerWaits(t, k)) && d + |Extract(t).remainder| == |t|
    ensures d <= k
    ensures Extract((t + b)[..k]).sequences
         == Extract(t).sequences + Extract((Extract(t).remainder + b)[..k - d]).sequences
  {
    hide *;
    if k >= |t| {
      MarkerPlace(t + b, k);
      MarkerBeyond(t, b, k, d);
    } else {
      MarkerInside(t, b, k, d);
    }
  }

  lemma MarkerPlace(s: string, k: nat)
    requires IndexOf(s, PASTE_START) == Some(k)
    ensures k + 6 <= |s|
  {
  }

  lemma MarkerInside(t: string, b: string, k: nat, d: nat)
    requires IndexOf(t + b, PASTE_START) == Some(k) && k < |t| && MarkerWaits(t, k)
    requires d + |Extract(t).remainder| == |t|
    ensures d <= k
    ensures Extract((t + b)[..k]).sequences
         == Extract(t).sequences + Extract((Extract(t).remainder + b)[..k - d]).sequences
  {
    hide Extract, IndexOf, CutsPair, Done, MarkerWaits;
    Straddle(t, b, k);
    PrefixWithin(t, b, k);
    RemainderStays(t[..k]);
    var before := Extract(t[..k]);
    RemainderIs(t, d);
    WaitingEnd(t, b, k, before.remainder, d);
    NoMore(before.sequences);
  }

  lemma PrefixWithin(t: string, b: string, k: nat)
    requires k <= |t|
    ensures (t + b)[..k] == t[..k]
  {
  }

  lemma NoMore(ss: seq<string>)
    ensures ss + [] == ss
  {
  }

  lemma MarkerBeyond(t: string, b: string, k: nat, d: nat)
    requires |t| <= k <= |t| + |b| && !CutsPair(t, b) && d + |Extract(t).remainder| == |t|
    ensures Extract((t + b)[..k]).sequences
         == Extract(t).sequences + Extract((Extract(t).remainder + b)[..k - d]).sequences
  {
    hide *;
    PrefixBeyond(t, b, k);
    PrefixBeyond(Extract(t).remainder, b, k - d);
    GrowsBy(t, b, b[..k - |t|]);
  }

  lemma DoneLength(t: string)
    ensures Done(t) + |Extract(t).remainder| == |t|
  {
    hide Extract;
  }

  lemma GrowsBy(t: string, b: string, y: string)
    requires y <= b && !CutsPair(t, b)
    ensures Extract(t + y).sequences == Extract(t).sequences + Extract(Extract(t).remainder + y).sequences
  {
    hide *;
    CutsPairPrefix(t, b, y);
    ExtractGrows(t, y);
  }

  lemma PrefixBeyond(t: string, b: string, k: nat)
    requires |t| <= k <= |t| + |b|
    ensures (t + b)[..k] == t + b[..k - |t|]
  {
  }

  lemma RemainderIs(t: string, d: nat)
    requires d + |Extract(t).remainder| == |t|
    ensures t[d..] == Extract(t).remainder
  {
    hide Extract;
    assert d == Done(t);
  }

  lemma WaitingEnd(t: string, b: string, k: nat, r: string, d: nat)
    requires d <= |t| && t[d..] == Extract(t).remainder
    requires k < |t| && |t| - d == |r| + |t| - k && |r| <= k && r == t[k - |r|..k]
    ensures d <= k && (Extract(t).remainder + b)[..k - d] == r
  {
    hide *;
    assert (t[d..] + b)[..|r|] == t[d..][..|r|];
    assert t[d..][..|r|] == t[d..d + |r|];
  }

  /** A marker that starts inside `t`: its beginning only ever adds sequences that start with an escape. */
  lemma Straddle(t: string, b: string, k: nat)
    requires IndexOf(t + b, PASTE_START) == Some(k) && k < |t|
    ensures var before := Extract(t[..k]); var more := Extract(before.remainder + t[k..]);
      && Extract(t) == Extracted(before.sequences + more.sequences, more.remainder)
      && (MarkerWaits(t, k) <==> more.sequences == [])
      && (MarkerWaits(t, k) ==>
        && Extract(t).sequences == before.sequences
        && |Extract(t).remainder| == |before.remainder| + |t| - k
        && |before.remainder| <= k && before.remainder == t[k - |before.remainder|..k])
      && (more.sequences != [] ==> more.sequences[0] != "" && more.sequences[0][0] == ESC)
  {
    hide Extract, CutsPair, IndexOf, StartsAt, Unfinished, Done;
    assert t == t[..k] + t[k..];
    MarkerHead(t, b, k);
    NoIntroducer(t[..k], t[k..]);
    ExtractGrows(t[..k], t[k..]);
    var before := Extract(t[..k]);
    var more := Extract(before.remainder + t[k..]);
    NoTokens(more, before.remainder + t[k..]);
    if more.sequences == [] { assert before.sequences + [] == before.sequences; }
    assert t[..k][Done(t[..k])..] == before.remainder;
    if more.sequences != [] {
      RemainderHead(t[..k]);
      HeadChar(before.remainder + t[k..]);
    }
  }

  lemma MarkerHead(t: string, b: string, k: nat)
    requires IndexOf(t + b, PASTE_START) == Some(k) && k < |t|
    ensures t[k..] != "" && t[k..][0] == ESC
  {
    assert (t + b)[k..k + 6] == PASTE_START && (t + b)[k..k + 6][0] == ESC;
  }

  lemma RemainderHead(t: string)
    ensures Extract(t).remainder != "" ==> Extract(t).remainder[0] == ESC
  {
    hide Extract;
    ExtractJoins(t);
  }

  lemma CutsPairPrefix(t: string, b: string, y: string)
    requires y <= b && !CutsPair(t, b)
    ensures !CutsPair(t, y)
  {
    hide Extract;
  }

  lemma NoIntroducer(x: string, y: string)
    requires y != "" && y[0] == ESC
    ensures !CutsPair(x, y)
  {
    hide Extract;
  }

  /** A split takes nothing off exactly when all of the text remains. */
  lemma NoTokens(x: Extracted, s: string)
    requires x == Extract(s)
    ensures x.sequences == [] <==> |x.remainder| == |s|
  {
    hide Extract;
    ExtractJoins(s);
    if x.sequences != [] {
      ExtractYieldsTokens(s, 0);
      assert x.sequences[0] != "";
      assert Flatten(x.sequences) == x.sequences[0] + Flatten(x.sequences[1..]);
    } else {
      assert Flatten(x.sequences) == "";
    }
  }

  lemma HeadChar(s: string)
    requires Extract(s).sequences != [] && s != ""
    ensures Extract(s).sequences[0] != "" && Extract(s).sequences[0][0] == s[0]
  {
    hide Extract;
    ExtractStep(s);
  }

  /** Sufficiency, outside a paste and before any marker. */
  lemma SafeTextChunk(t: string, p: Option<nat>, b: string)
    requires IndexOf(t, PASTE_START).None? && b != "" && TextSafe(t, b)
    ensures Then(Text(t, p), b) == Text(t + b, p)
  {
    hide Extract, IndexOf, CutsPair, Text, Content, EmitAll;
    var x := Extract(t);
    var e := EmitAll(p, x.sequences);
    GoesOn(t, p, b);
    TextSplit(t + b, p);
    TextSplit(x.remainder + b, e.pending);
    assert (t + b)[Done(t)..] == x.remainder + b;
    match IndexOf(t + b, PASTE_START)
    case None =>
      IndexOfDrop(t + b, Done(t), PASTE_START);
      ExtractGrows(t, b);
      EmitConcat(p, x.sequences, Extract(x.remainder + b).sequences);
    case Some(k) =>
      DoneLength(t);
      BeforeMarker(t, b, k, Done(t));
      IndexOfDrop(t + b, Done(t), PASTE_START);
      var tail := Extract((x.remainder + b)[..k - Done(t)]).sequences;
      EmitConcat(p, x.sequences, tail);
      var pasted := Content((t + b)[k + 6..]);
      assert (x.remainder + b)[k - Done(t) + 6..] == (t + b)[k + 6..];
      var e2 := EmitAll(e.pending, tail);
      assert e.events + (e2.events + pasted.events) == (e.events + e2.events) + pasted.events;
  }

  /* ---------- Necessity ---------- */

  /** Splitting a text that ends with a whole pair, but for its last escape. */
  lemma {:induction false} PairTail(t: string)
    requires Extract(t).remainder == "" && Extract(t).sequences != []
    requires Extract(t).sequences[|Extract(t).sequences| - 1] == PAIR
    ensures |t| >= 2 && t[|t| - 2..] == PAIR
    ensures Extract(t[..|t| - 1]) == Extracted(Extract(t).sequences[..|Extract(t).sequences| - 1], [ESC])
    decreases |t|
  {
    hide TokenLength, Extract, Unfinished, Flatten;
    ExtractEmpty();
    ExtractStep(t);
    var n := TokenLength(t).value;
    var cut := t[..|t| - 1];
    var rest := Extract(t[n..]);
    if t[n..] == "" {
      assert t[..n] == t;
      assert cut == [ESC];
      LoneEscape();
      assert Extract(t).sequences[..0] == [];
    } else {
      if rest.sequences == [] { ExtractJoins(t[n..]); FlattenNone(); }
      assert rest.sequences[|rest.sequences| - 1] == PAIR;
      PairTail(t[n..]);
      ShortenRest(t, n);
      TokenShrinks(t);
      ExtractStep(cut);
      FrontCons(t[..n], rest.sequences);
    }
  }

  lemma ShortenRest(t: string, n: nat)
    requires n < |t|
    ensures var cut := t[..|t| - 1]; cut[n..] == t[n..][..|t[n..]| - 1] && cut[..n] == t[..n]
    ensures |t| - n >= 2 ==> t[|t| - 2..] == t[n..][|t[n..]| - 2..]
  {
  }

  lemma FrontCons(x: string, ts: seq<string>)
    requires ts != []
    ensures ([x] + ts)[..|[x] + ts| - 1] == [x] + ts[..|ts| - 1]
  {
  }

  lemma LoneEscape()
    ensures Extract([ESC]) == Extracted([], [ESC])
  {
    assert [ESC][..1] == [ESC];
    assert ScanEnd([ESC], 1).None?;
  }

  lemma DropHead(s: string, n: nat)
    requires n < |s|
    ensures s[n..] != "" && s[n..][0] == s[n]
  {
  }

  /** Dropping the last character of a pair at the very end leaves the first token alone. */
  lemma TokenShrinks(t: string)
    requires |t| >= 3 && t[|t| - 2..] == PAIR && TokenLength(t).Some? && TokenLength(t).value <= |t| - 2
    ensures |t| > 1 && TokenLength(t[..|t| - 1]) == TokenLength(t)
  {
    hide IsCompleteSequence, ScanEnd;
    var cut := t[..|t| - 1];
    var n := TokenLength(t).value;
    FirstToken(t);
    assert t == cut + [ESC] && cut[|cut| - 1] == t[|t| - 2] == ESC;
    if Minimal(t[..n]) && !Parted(t[..n], t[n..]) {
      assert cut == t[..n] + cut[n..];
      TakesMinimal(t[..n], cut[n..]);
      DropHead(cut, n);
      DropHead(t, n);
    } else {
      assert t[2..][0] == t[2];
      assert |t| - 2 > 2;
      PairIsMinimal();
      assert cut == PAIR + cut[2..];
      TakesMinimal(PAIR, cut[2..]);
      assert cut[2..][0] == t[2..][0];
    }
  }

  lemma MarkerInPrefix(t: string, b: string, k: nat)
    requires k + 6 <= |t| && StartsAt(t + b, k, PASTE_START)
    ensures StartsAt(t, k, PASTE_START)
  {
    assert t[k..k + 6] == (t + b)[k..k + 6];
  }

  lemma MarkerEscapes(w: string, k: nat, j: nat)
    requires StartsAt(w, k, PASTE_START) && k <= j < k + 6
    ensures w[j] == PASTE_START[j - k] && (w[j] == ESC <==> j == k)
  {
    assert w[j] == w[k..k + 6][j - k];
  }

  /** A marker that ends in `b` cannot start where the pair at the end of `t` does, nor anywhere before. */
  lemma MarkerAfterPair(t: string, b: string, k: nat)
    requires |t| >= 2 && t[|t| - 2..] == PAIR && b != "" && Introduces(b[0])
    requires k + 6 > |t| && StartsAt(t + b, k, PASTE_START)
    ensures k == |t| - 1 || k > |t|
  {
    var w := t + b;
    assert w[|t| - 1] == t[|t| - 2..][1] == ESC && w[|t|] == b[0];
    if k <= |t| - 1 { MarkerEscapes(w, k, |t| - 1); }
    if k <= |t| { MarkerEscapes(w, k, |t|); }
  }

  /** A pair that the cut parts: processed early it is reported whole, processed late only its first escape is. */
  lemma PartedPairShows(t: string, p: Option<nat>, b: string)
    requires IndexOf(t, PASTE_START).None? && b != "" && PendingOk(p) && CutsPair(t, b)
    ensures Then(Text(t, p), b) != Text(t + b, p)
  {
    hide Extract, IndexOf, Text, Content, EmitAll, Unfinished;
    var x := Extract(t);
    var n := |x.sequences| - 1;
    var early := x.sequences[..n];
    var e := EmitAll(p, early);
    GoesOn(t, p, b);
    ExtractParts(t, b);
    assert x.sequences == early + [PAIR];
    EmitConcat(p, early, [PAIR]);
    EmitPending(p, early);
    EmitEscape(e.pending, [PAIR]);
    var chunked := Then(Text(t, p), b).events;
    ghost var tail := Text(x.remainder + b, EmitAll(p, x.sequences).pending).events;
    var pair := EmitAll(e.pending, [PAIR]).events;
    assert chunked == e.events + (pair + tail);
    WholeAfterPair(t, p, b, early);
    var late :| Text(t + b, p).events == e.events + late && (late == [] || late[0] != Data(PAIR));
    Differ(e.events, pair + tail, late);
  }

  lemma WholeAfterPair(t: string, p: Option<nat>, b: string, early: seq<string>)
    requires IndexOf(t, PASTE_START).None? && b != "" && PendingOk(p) && CutsPair(t, b)
    requires early == Extract(t).sequences[..|Extract(t).sequences| - 1]
    ensures exists late: seq<Event> ::
      Text(t + b, p).events == EmitAll(p, early).events + late && (late == [] || late[0] != Data(PAIR))
  {
    hide Extract, IndexOf, Text, Content, EmitAll, Unfinished;
    var e := EmitAll(p, early);
    EmitPending(p, early);
    ExtractParts(t, b);
    PairTail(t);
    TextSplit(t + b, p);
    match IndexOf(t + b, PASTE_START)
    case None =>
      var late := LateEscape(t + b, p, early);
      assert Text(t + b, p).events == e.events + late;
    case Some(k) =>
      if k + 6 <= |t| { MarkerInPrefix(t, b, k); assert false; }
      MarkerAfterPair(t, b, k);
      var pasted := Content((t + b)[k + 6..]).events;
      ContentStarts((t + b)[k + 6..]);
      if k == |t| - 1 {
        assert (t + b)[..k] == t[..|t| - 1];
        assert Text(t + b, p).events == e.events + pasted;
      } else {
        var y := b[..k - |t|];
        assert (t + b)[..k] == t + y;
        CutsPairStays(t, b, y);
        ExtractParts(t, y);
        var late := LateEscape(t + y, p, early);
        assert Text(t + b, p).events == e.events + (late + pasted);
        assert (late + pasted)[0] == late[0];
      }
  }

  lemma CutsPairStays(t: string, b: string, y: string)
    requires CutsPair(t, b) && y <= b && y != ""
    ensures CutsPair(t, y)
  {
    hide Extract;
  }

  lemma LateEscape(s: string, p: Option<nat>, early: seq<string>) returns (late: seq<Event>)
    requires PendingOk(p)
    requires var ss := Extract(s).sequences; |ss| > |early| && ss[..|early|] == early && ss[|early|] == [ESC]
    ensures EmitAll(p, Extract(s).sequences).events == EmitAll(p, early).events + late
    ensures late != [] && late[0] == Data([ESC])
  {
    hide Extract, EmitAll;
    var ss := Extract(s).sequences;
    assert ss == early + ss[|early|..];
    EmitConcat(p, early, ss[|early|..]);
    EmitPending(p, early);
    EmitEscape(EmitAll(p, early).pending, ss[|early|..]);
    late := EmitAll(EmitAll(p, early).pending, ss[|early|..]).events;
  }

  /** A marker under way whose beginning was taken for input: the early sequence has no counterpart. */
  lemma BrokenMarkerShows(t: string, p: Option<nat>, b: string, k: nat)
    requires IndexOf(t, PASTE_START).None? && b != "" && PendingOk(p)
    requires IndexOf(t + b, PASTE_START) == Some(k) && k < |t| && !MarkerWaits(t, k)
    ensures Then(Text(t, p), b) != Text(t + b, p)
  {
    hide Extract, IndexOf, Text, Content, EmitAll, MarkerWaits;
    Straddle(t, b, k);
    var early := Extract(t[..k]).sequences;
    var more := Extract(Extract(t[..k]).remainder + t[k..]).sequences;
    var e := EmitAll(p, early);
    GoesOn(t, p, b);
    EmitConcat(p, early, more);
    EmitPending(p, early);
    EmitEscape(e.pending, more);
    var tail := Text(Extract(t).remainder + b, EmitAll(p, Extract(t).sequences).pending).events;
    var shown := EmitAll(e.pending, more).events;
    assert Then(Text(t, p), b).events == e.events + (shown + tail);
    TextSplit(t + b, p);
    assert (t + b)[..k] == t[..k];
    var pasted := Content((t + b)[k + 6..]).events;
    ContentStarts((t + b)[k + 6..]);
    assert Text(t + b, p).events == e.events + pasted;
    assert (shown + tail)[0] == shown[0];
    Differ(e.events, shown + tail, pasted);
  }

  /* ---------- The theorem ---------- */

  lemma TextChunk(t: string, p: Option<nat>, b: string)
    requires b != "" && PendingOk(p)
    ensures Then(Text(t, p), b) == Text(t + b, p) <==> TextSafe(t, b)
    decreases |t|
  {
    hide Extract, Content, EmitAll;
    match IndexOf(t, PASTE_START)
    case None =>
      if TextSafe(t, b) {
        SafeTextChunk(t, p, b);
      } else if CutsPair(t, b) {
        PartedPairShows(t, p, b);
      } else {
        BrokenMarkerShows(t, p, b, IndexOf(t + b, PASTE_START).value);
      }
    case Some(k) =>
      IndexOfGrows(t, b, PASTE_START);
      var e := EmitAll(p, Extract(t[..k]).sequences);
      assert (t + b)[..k] == t[..k] && (t + b)[k + 6..] == t[k + 6..] + b;
      ContentChunk(t[k + 6..], b);
      ThenAfter(e.events, Content(t[k + 6..]), b);
      SameAfter(e.events, Then(Content(t[k + 6..]), b), Content(t[k + 6..] + b));
  }

  lemma ContentChunk(c: string, b: string)
    requires b != ""
    ensures Then(Content(c), b) == Content(c + b) <==> ContentSafe(c, b)
    decreases |c|
  {
    hide Extract, Text, EmitAll, Content, TextSafe, Then;
    ContentSplit(c);
    match IndexOf(c, PASTE_END)
    case None => StillPasting(c, b);
    case Some(k) =>
      IndexOfGrows(c, b, PASTE_END);
      ContentSplit(c + b);
      assert (c + b)[..k] == c[..k] && (c + b)[k + 6..] == c[k + 6..] + b;
      TextChunk(c[k + 6..], None, b);
      var r := Text(c[k + 6..], None);
      ThenAfter([Paste(c[..k])], r, b);
      SameAfter([Paste(c[..k])], Then(r, b), Text(c[k + 6..] + b, None));
  }

  lemma StillPasting(c: string, b: string)
    requires b != "" && Content(c) == Result(State("", true, c, None, false), [])
    ensures Then(Content(c), b) == Content(c + b)
  {
    hide Content;
    assert c + "" + b == c + b;
    assert [] + Content(c + b).events == Content(c + b).events;
  }

  lemma ThenAfter(e: seq<Event>, r: Result, b: string)
    ensures Then(Result(r.state, e + r.events), b) == Result(Then(r, b).state, e + Then(r, b).events)
  {
    hide Process;
    assert e + (r.events + Process(r.state, b).events) == (e + r.events) + Process(r.state, b).events;
  }

  lemma SameAfter(e: seq<Event>, x: Result, y: Result)
    ensures Result(x.state, e + x.events) == Result(y.state, e + y.events) <==> x == y
  {
    if e + x.events == e + y.events {
      assert x.events == (e + x.events)[|e|..] == (e + y.events)[|e|..] == y.events;
    }
  }

  /** Two non-empty pieces give the same events and leave the same state as their concatenation iff the cut is safe. */
  lemma ChunkingIsInvisible(s: State, a: string, b: string)
    requires s.Valid() && a != "" && b != ""
    ensures Then(Process(s, a), b) == Process(s, a + b) <==> SafeCut(s, a, b)
  {
    hide Text, Content, TextSafe, ContentSafe;
    assert s.buffer + (a + b) == (s.buffer + a) + b;
    if s.pasteMode {
      assert s.pasteBuffer + s.buffer + a == s.pasteBuffer + a;
      assert s.pasteBuffer + s.buffer + (a + b) == (s.pasteBuffer + a) + b;
      ContentChunk(s.pasteBuffer + a, b);
    } else {
      TextChunk(s.buffer + a, s.pending, b);
    }
  }

  /** A marker that starts after whole sequences is always waiting, wherever it is cut. */
  lemma AlignedMarkerWaits(t: string, b: string, k: nat)
    requires IndexOf(t, PASTE_START).None? && IndexOf(t + b, PASTE_START) == Some(k) && k < |t|
    requires Extract(t[..k]).remainder == ""
    ensures MarkerWaits(t, k)
  {
    hide Extract, IndexOf, TokenLength;
    Straddle(t, b, k);
    assert "" + t[k..] == t[k..];
    if k + 6 <= |t| { MarkerInPrefix(t, b, k); assert false; }
    MarkerBeginning(t, b, k);
    ExtractStep(t[k..]);
  }

  lemma MarkerBeginning(t: string, b: string, k: nat)
    requires StartsAt(t + b, k, PASTE_START) && k < |t| < k + 6
    ensures t[k..] != "" && TokenLength(t[k..]).None?
  {
    var m := t[k..];
    forall i | 0 <= i < |m| ensures m[i] == PASTE_START[i] { MarkerEscapes(t + b, k, k + i); }
    assert m[0] == ESC;
    forall n | 1 <= n <= |m| ensures IsCompleteSequence(m[..n]) == Incomplete {
      assert forall i :: 0 <= i < n ==> m[..n][i] == PASTE_START[i];
    }
    assert ScanEnd(m, 1).None?;
  }

  /** `chunks` fed one after the other. */
  function ProcessAll(s: State, chunks: seq<string>): Result
    decreases |chunks|
  {
    if chunks == [] then Result(s, [])
    else Then(ProcessAll(s, chunks[..|chunks| - 1]), chunks[|chunks| - 1])
  }

  lemma FlattenSnoc(chunks: seq<string>)
    requires chunks != []
    ensures Flatten(chunks) == Flatten(chunks[..|chunks| - 1]) + chunks[|chunks| - 1]
  {
    var n := |chunks| - 1;
    FlattenConcat(chunks[..n], [chunks[n]]);
    assert chunks == chunks[..n] + [chunks[n]];
    assert Flatten([chunks[n]]) == chunks[n] + "";
  }

  /** However a stream is cut into non-empty chunks, if every cut is safe the result is that of the whole. */
  lemma {:induction false} AnyChunking(s: State, chunks: seq<string>)
    requires s.Valid() && chunks != []
    requires forall i :: 0 <= i < |chunks| ==> chunks[i] != ""
    requires forall i :: 0 < i < |chunks| ==> SafeCut(s, Flatten(chunks[..i]), chunks[i])
    ensures ProcessAll(s, chunks) == Process(s, Flatten(chunks))
    ensures Flatten(chunks) != ""
    decreases |chunks|
  {
    hide Process, SafeCut;
    var n := |chunks| - 1;
    FlattenSnoc(chunks);
    if n == 0 {
      assert Flatten(chunks[..0]) == "";
      assert ProcessAll(s, chunks[..0]) == Result(s, []);
      ThenFresh(s, chunks[0]);
      assert Flatten(chunks) == chunks[0];
    } else {
      assert forall i :: 0 < i < n ==> chunks[..n][..i] == chunks[..i];
      AnyChunking(s, chunks[..n]);
      ChunkingIsInvisible(s, Flatten(chunks[..n]), chunks[n]);
    }
  }

  lemma ThenFresh(s: State, b: string)
    ensures Then(Result(s, []), b) == Process(s, b)
  {
    hide Process;
    assert [] + Process(s, b).events == Process(s, b).events;
  }

  /* ---------- The state between inputs ---------- */

  lemma TextValid(t: string, p: Option<nat>)
    requires PendingOk(p)
    ensures var r := Text(t, p).state;
      && r.Valid()
      && r.timer == (r.buffer != "")
      && (r.buffer == "" || Unfinished(r.buffer))
    decreases |t|
  {
    hide Extract, EmitAll, Unfinished, Content;
    TextSplit(t, p);
    match IndexOf(t, PASTE_START)
    case None =>
      ExtractJoins(t);
      EmitPending(p, Extract(t).sequences);
    case Some(k) => ContentValid(t[k + 6..]);
  }

  lemma ContentValid(c: string)
    ensures var r := Content(c).state;
      && r.Valid()
      && r.timer == (r.buffer != "")
      && (r.buffer == "" || Unfinished(r.buffer))
    decreases |c|
  {
    hide Text, Unfinished, Content;
    ContentSplit(c);
    match IndexOf(c, PASTE_END)
    case None =>
    case Some(k) => TextValid(c[k + 6..], None);
  }

  /**
   * Every state after input is valid, waits on an unfinished escape sequence or on nothing, and has its
   * timer running exactly when it waits.
   */
  lemma ProcessKeepsValid(s: State, str: string)
    requires s.Valid()
    ensures var r := Process(s, str).state;
      && r.Valid()
      && (str != "" || s.buffer != "" ==> r.timer == (r.buffer != "") && (r.buffer == "" || Unfinished(r.buffer)))
  {
    hide Text, Content, Unfinished;
    if s.pasteMode { ContentValid(s.pasteBuffer + s.buffer + str); } else { TextValid(s.buffer + str, s.pending); }
  }
}

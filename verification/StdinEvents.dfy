/**
 * What the listeners are given: which characters are swallowed as repetitions of a keyboard report, what
 * the timeout reports, and concrete streams on which a cut shows.
 */
module StdinEvents {
  import opened Wrappers
  import opened Strings
  import opened StdinSpec
  import opened StdinProofs
  import opened StdinChunking

  /* ---------- Swallowed characters ---------- */

  /** The code point announced just before sequence `i`. */
  function Announced(p: Option<nat>, ss: seq<string>, i: nat): Option<nat>
    requires i <= |ss|
  {
    if i == 0 then p else KittyPrintable(ss[i - 1])
  }

  /** Sequence `i` repeats, as a plain character, what the sequence right before it reported. */
  predicate Swallowed(p: Option<nat>, ss: seq<string>, i: nat)
    requires i < |ss|
  {
    |ss[i]| == 1 && Announced(p, ss, i) == Some(ss[i][0] as nat)
  }

  /** All sequences but those, in order. */
  function Kept(p: Option<nat>, ss: seq<string>): seq<Event> {
    if ss == [] then []
    else
      var n := |ss| - 1;
      Kept(p, ss[..n]) + if Swallowed(p, ss, n) then [] else [Data(ss[n])]
  }

  /** What one sequence leaves announced depends on that sequence alone, swallowed or not. */
  lemma EmitOneLeaves(p: Option<nat>, s: string)
    ensures EmitOne(p, s).pending == KittyPrintable(s)
  {
  }

  /** Exactly the repetitions are missing, and everything else is reported once, in order. */
  lemma {:induction false} EmitKeeps(p: Option<nat>, ss: seq<string>)
    ensures EmitAll(p, ss) == Emitted(Announced(p, ss, |ss|), Kept(p, ss))
  {
    if ss != [] {
      var n := |ss| - 1;
      EmitKeeps(p, ss[..n]);
      var q := Announced(p, ss[..n], n);
      EmitOneLeaves(q, ss[n]);
      EmitConcat(p, ss[..n], [ss[n]]);
      assert ss == ss[..n] + [ss[n]];
      assert [ss[n]][1..] == [];
      var e := EmitOne(q, ss[n]);
      assert e.events + EmitAll(e.pending, []).events == e.events;
    }
  }

  /** A report makes at most one character disappear: never itself, nor what follows the character. */
  lemma SwallowedOnce(p: Option<nat>, ss: seq<string>, i: nat)
    requires i < |ss| && Swallowed(p, ss, i)
    ensures i > 0 ==> KittyPrintable(ss[i - 1]) == Some(ss[i][0] as nat) && !Swallowed(p, ss, i - 1)
    ensures i + 1 < |ss| ==> !Swallowed(p, ss, i + 1)
  {
  }

  /* ---------- The timeout ---------- */

  /** The sequences of `t`, its unfinished end included. */
  function Tokens(t: string): seq<string> {
    var x := Extract(t);
    x.sequences + if x.remainder == "" then [] else [x.remainder]
  }

  /**
   * Input without a paste, followed by the timeout: the text reported is all of the input, cut into its
   * sequences, less the repetitions. Nothing is buffered afterwards, so what arrives later starts afresh.
   */
  lemma TimeoutReportsTheRest(t: string, p: Option<nat>)
    requires IndexOf(t, PASTE_START).None? && PendingOk(p)
    ensures var r := Text(t, p);
      var f := Flush(r.state);
      && r.events + f.events == Kept(p, Tokens(t)) && Flatten(Tokens(t)) == t
      && f.state == State("", false, "", Announced(p, Tokens(t), |Tokens(t)|), false)
  {
    hide Extract, EmitAll, Text, Unfinished, KittyPrintable, Kept;
    TextSplit(t, p);
    ExtractJoins(t);
    var x := Extract(t);
    EmitKeeps(p, x.sequences);
    EmitPending(p, x.sequences);
    RemainderHead(t);
    if x.remainder == "" {
      assert x.sequences + [] == x.sequences;
      assert Kept(p, x.sequences) + [] == Kept(p, x.sequences);
      assert Flatten(x.sequences) + "" == t;
    } else {
      KeptSnoc(p, x.sequences, x.remainder);
      FlattenSnoc(x.sequences + [x.remainder]);
      assert (x.sequences + [x.remainder])[..|x.sequences|] == x.sequences;
    }
  }

  /** A sequence that begins with an escape is kept. */
  lemma KeptSnoc(p: Option<nat>, ss: seq<string>, s: string)
    requires s != "" && s[0] == ESC && PendingOk(Announced(p, ss, |ss|))
    ensures Kept(p, ss + [s]) == Kept(p, ss) + [Data(s)]
    ensures Announced(p, ss + [s], |ss| + 1) == KittyPrintable(s)
    ensures EmitOne(None, s) == Emitted(KittyPrintable(s), [Data(s)])
  {
    assert (ss + [s])[..|ss|] == ss;
  }

  /* ---------- Pastes ---------- */

  /** Text outside a paste, and the paste that follows it. */
  datatype Section = Section(before: string, pasted: string)

  function Spelled(ss: seq<Section>, tail: string): string {
    if ss == [] then tail
    else ss[0].before + PASTE_START + ss[0].pasted + PASTE_END + Spelled(ss[1..], tail)
  }

  function Reported(p: Option<nat>, ss: seq<Section>): seq<Event>
    decreases |ss|
  {
    if ss == [] then []
    else Kept(p, Extract(ss[0].before).sequences) + [Paste(ss[0].pasted)] + Reported(None, ss[1..])
  }

  predicate NoMarkers(s: Section) {
    IndexOf(s.before, PASTE_START).None? && IndexOf(s.pasted, PASTE_END).None?
  }

  /** A marker begins with an escape and holds no other, so it cannot begin before the place it was put at. */
  lemma MarkerFound(a: string, marker: string, b: string)
    requires marker == PASTE_START || marker == PASTE_END
    requires IndexOf(a, marker).None?
    ensures IndexOf(a + marker + b, marker) == Some(|a|)
  {
    var s := a + marker + b;
    forall k | 0 <= k < |a| ensures !StartsAt(s, k, marker) {
      if k + 6 <= |a| {
        assert s[k..k + 6] == a[k..k + 6] && !StartsAt(a, k, marker);
      } else {
        var j := |a| - k;
        assert s[k..k + 6][j] == s[|a|] == ESC && marker[j] != ESC;
      }
    }
    assert s[|a|..|a| + 6] == marker;
    IndexOfIs(s, marker, |a|);
  }

  /** Every paste is reported whole, once and in its place, and the input around it as it would be on its own. */
  lemma {:induction false} PastesAreReported(p: Option<nat>, ss: seq<Section>, tail: string)
    requires forall i :: 0 <= i < |ss| ==> NoMarkers(ss[i])
    ensures var rest := Text(tail, if ss == [] then p else None);
      Text(Spelled(ss, tail), p) == Result(rest.state, Reported(p, ss) + rest.events)
    decreases |ss|
  {
    hide Extract, EmitAll, Text, Content, Kept, IndexOf;
    if ss != [] {
      var before, pasted, more := ss[0].before, ss[0].pasted, Spelled(ss[1..], tail);
      PastesAreReported(None, ss[1..], tail);
      OnePaste(p, before, pasted, more);
    }
  }

  lemma OnePaste(p: Option<nat>, before: string, pasted: string, more: string)
    requires NoMarkers(Section(before, pasted))
    ensures var rest := Text(more, None);
      Text(before + PASTE_START + pasted + PASTE_END + more, p)
      == Result(rest.state, Kept(p, Extract(before).sequences) + [Paste(pasted)] + rest.events)
  {
    hide Extract, EmitAll, Kept, IndexOf;
    var t := before + PASTE_START + pasted + PASTE_END + more;
    var c := pasted + PASTE_END + more;
    MarkerFound(before, PASTE_START, c);
    MarkerFound(pasted, PASTE_END, more);
    assert t == before + PASTE_START + c;
    assert t[..|before|] == before && t[|before| + 6..] == c;
    assert c[..|pasted|] == pasted && c[|pasted| + 6..] == more;
    EmitKeeps(p, Extract(before).sequences);
  }

  /** While the end of a paste is missing, what was pasted waits, and what came before is reported. */
  lemma OpenPaste(p: Option<nat>, before: string, pasted: string)
    requires NoMarkers(Section(before, pasted))
    ensures Text(before + PASTE_START + pasted, p)
      == Result(State("", true, pasted, None, false), Kept(p, Extract(before).sequences))
  {
    hide Extract, EmitAll, Kept, IndexOf;
    var t := before + PASTE_START + pasted;
    MarkerFound(before, PASTE_START, pasted);
    assert t[..|before|] == before && t[|before| + 6..] == pasted;
    EmitKeeps(p, Extract(before).sequences);
  }

  /* ---------- Cuts that show ---------- */

  const UP := "\U{1B}[A"

  lemma UpIsOneSequence()
    ensures TokenLength(UP) == Some(3)
  {
    assert UP[..1] == "\U{1B}" && UP[..2] == "\U{1B}[" && UP[..3] == UP;
  }

  lemma PlainSequences(a: char, b: char)
    requires a != ESC && b != ESC
    ensures Extract([a, b]) == Extracted([[a], [b]], "")
  {
    hide KittyPrintable;
    ExtractEmpty();
    ExtractStep([a, b]);
    ExtractStep([b]);
    assert [a, b][..1] == [a] && [a, b][1..] == [b] && [b][..1] == [b] && [b][1..] == "";
  }

  /** Escape and then the up arrow: two sequences when they come together, three when cut after the second escape. */
  lemma PartedPairExample()
    ensures Extract(PAIR + "[A") == Extracted(["\U{1B}", UP], "")
    ensures Extract(PAIR) == Extracted([PAIR], "") && Extract("[A") == Extracted(["[", "A"], "")
    ensures !SafeCut(IDLE, PAIR, "[A")
    ensures Then(Process(IDLE, PAIR), "[A") != Process(IDLE, PAIR + "[A")
  {
    hide Extract, TokenLength, Process;
    ExtractEmpty();
    PairIsMinimal();
    PairLength();
    ExtractStep(PAIR);
    assert PAIR[..2] == PAIR && PAIR[2..] == "";
    PlainSequences('[', 'A');
    TakesMinimal(PAIR, "[A");
    ExtractStep(PAIR + "[A");
    assert (PAIR + "[A")[..1] == [ESC] && (PAIR + "[A")[1..] == UP;
    UpIsOneSequence();
    ExtractStep(UP);
    assert UP[..3] == UP && UP[3..] == "";
    assert "" + PAIR == PAIR && IndexOf(PAIR, PASTE_START).None?;
    assert CutsPair(PAIR, "[A");
    ChunkingIsInvisible(IDLE, PAIR, "[A");
  }
}

/**
 * What a terminal sends, by grammar: which strings are one whole sequence, and that splitting a buffer
 * takes off exactly those.
 */
module StdinGrammar {
  import opened Wrappers
  import opened Strings
  import opened StdinSpec
  import opened StdinProofs

  /* ---------- The grammar ---------- */

  const CSI := "\U{1B}["
  const OSC := "\U{1B}]"
  const DCS := "\U{1B}P"
  const APC := "\U{1B}_"
  const SS3 := "\U{1B}O"

  predicate IsFinal(c: char) {
    '@' <= c <= '~'
  }

  predicate Number(s: string) {
    s != "" && AllDigits(s)
  }

  /** One character that is not an escape. */
  predicate Plain(t: string) {
    |t| == 1 && t[0] != '\U{1B}'
  }

  /** ESC and one character that introduces nothing longer. */
  predicate MetaKey(t: string) {
    |t| == 2 && t[0] == '\U{1B}' && t[1] !in "[]PO_"
  }

  /** ESC O and one character. */
  predicate SingleShift(t: string) {
    |t| == 3 && SS3 <= t
  }

  /** ESC [ M and three characters, whatever they are. */
  predicate OldMouse(t: string) {
    |t| == 6 && CSI + "M" <= t
  }

  predicate SgrReport(t: string, x: string, y: string, z: string, e: char) {
    Number(x) && Number(y) && Number(z) && (e == 'M' || e == 'm') && t == CSI + "<" + x + ";" + y + ";" + z + [e]
  }

  /** ESC [ < and three numbers, then M or m. */
  ghost predicate SgrMouse(t: string) {
    exists x, y, z, e :: SgrReport(t, x, y, z, e)
  }

  /** ESC [, characters that are not final, and one that is; mouse reports are not of this kind. */
  predicate Control(t: string) {
    && |t| >= 3 && CSI <= t && IsFinal(t[|t| - 1]) && t[2] != 'M' && t[2] != '<'
    && forall k :: 2 <= k < |t| - 1 ==> !IsFinal(t[k])
  }

  predicate TerminatorAt(t: string, k: nat) {
    k + 2 <= |t| && t[k] == '\U{1B}' && t[k + 1] == '\\'
  }

  /** ESC ] up to the first BEL or ST. */
  predicate SystemCommand(t: string) {
    && |t| >= 3 && OSC <= t && (t[|t| - 1] == '\U{07}' || (|t| >= 4 && TerminatorAt(t, |t| - 2)))
    && forall k :: 2 <= k < |t| - 1 ==> t[k] != '\U{07}' && (k + 2 < |t| ==> !TerminatorAt(t, k))
  }

  /** ESC P or ESC _ up to the first ST. */
  predicate DeviceString(t: string) {
    && |t| >= 4 && (DCS <= t || APC <= t) && TerminatorAt(t, |t| - 2)
    && forall k :: 2 <= k < |t| - 2 ==> !TerminatorAt(t, k)
  }

  /** One whole sequence. */
  ghost predicate Whole(t: string) {
    || Plain(t) || MetaKey(t) || SingleShift(t) || OldMouse(t) || SgrMouse(t) || Control(t) || SystemCommand(t)
    || DeviceString(t)
  }

  /* ---------- Whole sequences are the minimal ones ---------- */

  lemma ThreeNumbers(x: string, y: string, z: string)
    requires Number(x) && Number(y) && Number(z)
    ensures Split(x + ";" + y + ";" + z, ';') == [x, y, z]
  {
    assert x + ";" + y + ";" + z == x + [';'] + (y + [';'] + z);
    SplitConcat(x, y + [';'] + z, ';');
    SplitConcat(y, z, ';');
    SplitNone(x, ';');
    SplitNone(y, ';');
    SplitNone(z, ';');
  }

  lemma NoFinalInside(x: string, y: string, z: string)
    requires Number(x) && Number(y) && Number(z)
    ensures var inner := x + ";" + y + ";" + z; forall k :: 0 <= k < |inner| ==> !IsFinal(inner[k])
  {
    var inner := x + ";" + y + ";" + z;
    assert forall k :: 0 <= k < |inner| ==> IsDigit(inner[k]) || inner[k] == ';';
  }

  lemma ReportIsMouse(t: string, x: string, y: string, z: string, e: char)
    requires SgrReport(t, x, y, z, e)
    ensures |t| >= 9 && t[..3] == "\U{1B}[<" && IsSgrMouse(t[2..])
    ensures forall k :: 2 <= k < |t| - 1 ==> !IsFinal(t[k])
  {
    ThreeNumbers(x, y, z);
    NoFinalInside(x, y, z);
    var inner := x + ";" + y + ";" + z;
    assert |inner| >= 5;
    assert t == "\U{1B}[<" + inner + [e];
    hide Split, SgrReport;
    var payload := t[2..];
    assert payload == "<" + inner + [e] && payload[1..|payload| - 1] == inner;
    assert forall k :: 3 <= k < |t| - 1 ==> t[k] == inner[k - 3];
  }

  lemma MouseIsReport(t: string)
    requires CSI <= t && IsSgrMouse(t[2..])
    ensures SgrMouse(t)
  {
    var payload := t[2..];
    var inner := payload[1..|payload| - 1];
    var parts := Split(inner, ';');
    hide Split, Join;
    JoinSplit(inner, ';');
    ThreeJoined(parts, ';');
    assert Number(parts[0]) && Number(parts[1]) && Number(parts[2]);
    hide IsSgrMouse, SgrReport;
    assert inner == t[3..|t| - 1];
    ReportJoined(t, parts[0], parts[1], parts[2], payload[|payload| - 1]);
  }

  lemma ReportJoined(t: string, x: string, y: string, z: string, e: char)
    requires |t| >= 4 && CSI <= t && t[2] == '<' && t[|t| - 1] == e && t[3..|t| - 1] == x + [';'] + y + [';'] + z
    requires Number(x) && Number(y) && Number(z) && (e == 'M' || e == 'm')
    ensures SgrReport(t, x, y, z, e)
  {
    hide Number;
    assert t == CSI + "<" + t[3..|t| - 1] + [e];
    assert CSI + "<" + (x + [';'] + y + [';'] + z) + [e] == CSI + "<" + x + ";" + y + ";" + z + [e];
  }

  lemma ThreeJoined(parts: seq<string>, sep: char)
    requires |parts| == 3
    ensures Join(parts, sep) == parts[0] + [sep] + parts[1] + [sep] + parts[2]
  {
    var x, y, z := parts[0], parts[1], parts[2];
    assert parts[1..] == [y, z] && [y, z][1..] == [z];
    assert Join([y, z], sep) == y + [sep] + z;
    assert x + [sep] + (y + [sep] + z) == x + [sep] + y + [sep] + z;
  }

  /** No proper prefix of a whole sequence is complete, and all of it is. */
  lemma WholeIsMinimal(t: string)
    requires Whole(t)
    ensures Minimal(t)
  {
    hide IsSgrMouse;
    if SgrMouse(t) {
      var x, y, z, e :| SgrReport(t, x, y, z, e);
      ReportIsMouse(t, x, y, z, e);
      hide SgrReport;
      MouseIsMinimal(t);
    } else if Control(t) {
      forall k | 1 <= k < |t| ensures IsCompleteSequence(t[..k]) == Incomplete {
        if k > 2 { assert t[..k][k - 1] == t[k - 1]; }
      }
    } else if SystemCommand(t) {
      CommandIsMinimal(t);
    } else if DeviceString(t) {
      DeviceIsMinimal(t);
    }
  }

  lemma MouseIsMinimal(t: string)
    requires |t| >= 9 && t[..3] == "\U{1B}[<" && IsSgrMouse(t[2..])
    requires forall k :: 2 <= k < |t| - 1 ==> !IsFinal(t[k])
    ensures Minimal(t)
  {
    assert t[0] == ESC && t[1] == '[' && t[2] == '<';
    assert t[2..][|t| - 3] == t[|t| - 1];
    forall k | 1 <= k < |t| ensures IsCompleteSequence(t[..k]) == Incomplete {
      if k > 2 { assert t[..k][k - 1] == t[k - 1] && !IsFinal(t[k - 1]); }
    }
  }

  lemma CommandIsMinimal(t: string)
    requires SystemCommand(t)
    ensures Minimal(t)
  {
    assert t[0] == ESC && t[1] == ']';
    forall k | 1 <= k < |t| ensures IsCompleteSequence(t[..k]) == Incomplete {
      if k > 2 {
        assert t[..k][k - 1] == t[k - 1] && t[..k][k - 2] == t[k - 2];
        assert k > 3 ==> !TerminatorAt(t, k - 2);
      }
    }
  }

  lemma DeviceIsMinimal(t: string)
    requires DeviceString(t)
    ensures Minimal(t)
  {
    assert t[0] == ESC && (t[1] == 'P' || t[1] == '_');
    forall k | 1 <= k < |t| ensures IsCompleteSequence(t[..k]) == Incomplete {
      if k > 3 {
        assert t[..k][k - 1] == t[k - 1] && t[..k][k - 2] == t[k - 2];
        assert !TerminatorAt(t, k - 2);
      }
    }
  }

  lemma EndsWhenComplete(t: string, k: nat)
    requires Minimal(t) && t[0] == ESC && 0 < k <= |t| && IsCompleteSequence(t[..k]) == Complete
    ensures |t| == k
  {
    hide IsCompleteSequence;
  }

  /** There is no other minimal sequence. */
  lemma MinimalIsWhole(t: string)
    requires Minimal(t)
    ensures Whole(t)
  {
    hide IsSgrMouse, SgrMouse;
    var n := |t|;
    if t[0] == ESC {
      assert n > 1;
      var c := t[1];
      if c == '[' && n >= 3 && t[2] != 'M' {
        if t[2] == '<' {
          assert CSI <= t;
          MouseIsReport(t);
        } else {
          ControlOnly(t);
        }
      } else if c == '[' {
        assert CSI + "M" <= t;
        EndsWhenComplete(t, 6);
      } else if c == ']' {
        CommandOnly(t);
      } else if c == 'P' || c == '_' {
        DeviceOnly(t);
      } else if c == 'O' {
        EndsWhenComplete(t, 3);
      } else {
        EndsWhenComplete(t, 2);
      }
    }
  }

  lemma ControlOnly(t: string)
    requires Minimal(t) && t[0] == ESC && |t| >= 3 && t[1] == '[' && t[2] != 'M' && t[2] != '<'
    ensures Control(t)
  {
    forall k | 2 <= k < |t| - 1 ensures !IsFinal(t[k]) {
      assert IsCompleteSequence(t[..k + 1]) == Incomplete;
      assert t[..k + 1][k] == t[k];
    }
  }

  lemma CommandOnly(t: string)
    requires Minimal(t) && t[0] == ESC && |t| >= 2 && t[1] == ']'
    ensures SystemCommand(t)
  {
    forall k | 2 <= k < |t| - 1 ensures t[k] != BEL && (k + 2 < |t| ==> !TerminatorAt(t, k)) {
      assert IsCompleteSequence(t[..k + 1]) == Incomplete;
      assert t[..k + 1][k] == t[k];
      if k + 2 < |t| {
        var p := t[..k + 2];
        assert IsCompleteSequence(p) == Incomplete;
        assert p[k] == t[k] && p[k + 1] == t[k + 1];
      }
    }
  }

  lemma DeviceOnly(t: string)
    requires Minimal(t) && t[0] == ESC && |t| >= 2 && (t[1] == 'P' || t[1] == '_')
    ensures DeviceString(t)
  {
    forall k | 2 <= k < |t| - 2 ensures !TerminatorAt(t, k) {
      var p := t[..k + 2];
      assert IsCompleteSequence(p) == Incomplete;
      assert p[k] == t[k] && p[k + 1] == t[k + 1];
    }
  }

  /* ---------- Splitting by grammar ---------- */

  /** A whole sequence is reported as one, and while any of it is missing nothing is. */
  lemma WholeIsOneSequence(t: string)
    requires Whole(t)
    ensures Extract(t) == Extracted([t], "")
    ensures forall k :: 0 < k < |t| ==> Extract(t[..k]) == Extracted([], t[..k])
  {
    hide Whole, IsCompleteSequence, Extract;
    WholeIsMinimal(t);
    OneSequence(t);
    forall k | 0 < k < |t| ensures Extract(t[..k]) == Extracted([], t[..k]) {
      assert t[0] == ESC && forall i :: 0 <= i <= k ==> t[..k][..i] == t[..i];
      UnfinishedWaits(t[..k]);
    }
  }

  lemma UnfinishedWaits(r: string)
    requires Unfinished(r)
    ensures Extract(r) == Extracted([], r)
  {
    hide IsCompleteSequence;
    assert ScanEnd(r, 1).None?;
  }

  lemma OneSequence(t: string)
    requires Minimal(t)
    ensures Extract(t) == Extracted([t], "")
  {
    hide IsCompleteSequence, Minimal;
    TakesMinimal(t, "");
    MinimalNonempty(t);
    assert t + "" == t && t[..|t|] == t && t[|t|..] == "";
    ExtractStep(t);
    ExtractEmpty();
  }

  /** An escape that the escape after it leaves alone, because that one introduces something longer. */
  predicate LoneEscape(ss: seq<string>, remainder: string, i: nat)
    requires i < |ss|
  {
    && ss[i] == "\U{1B}"
    && var next := if i + 1 < |ss| then ss[i + 1] else remainder;
      |next| >= 2 && next[0] == '\U{1B}' && next[1] in "[]PO_"
  }

  /**
   * A buffer is its sequences and its remainder. Every sequence is whole, or an escape before one that begins
   * with an escape itself; the remainder begins with an escape, and no beginning of it is whole.
   */
  lemma ExtractByGrammar(buffer: string)
    ensures var x := Extract(buffer);
      && Flatten(x.sequences) + x.remainder == buffer
      && (forall i :: 0 <= i < |x.sequences| ==> Whole(x.sequences[i]) || LoneEscape(x.sequences, x.remainder, i))
      && (x.remainder != "" ==>
        x.remainder[0] == '\U{1B}' && forall k :: 1 <= k <= |x.remainder| ==> !Whole(x.remainder[..k]))
  {
    hide Whole, Extract, IsCompleteSequence, LoneEscape;
    ExtractJoins(buffer);
    var x := Extract(buffer);
    forall i | 0 <= i < |x.sequences| ensures Whole(x.sequences[i]) || LoneEscape(x.sequences, x.remainder, i) {
      ReportsAreWhole(buffer, i);
    }
    if x.remainder != "" {
      forall k | 1 <= k <= |x.remainder| ensures !Whole(x.remainder[..k]) {
        if Whole(x.remainder[..k]) { WholeIsMinimal(x.remainder[..k]); }
      }
    }
  }

  lemma {:induction false} ReportsAreWhole(buffer: string, i: nat)
    requires i < |Extract(buffer).sequences|
    ensures var x := Extract(buffer);
      Whole(x.sequences[i]) || LoneEscape(x.sequences, x.remainder, i)
    decreases |buffer|
  {
    hide Minimal, Whole, Extract, TokenLength;
    ExtractEmpty();
    ExtractStep(buffer);
    FirstToken(buffer);
    var n := TokenLength(buffer).value;
    var rest := buffer[n..];
    if i > 0 {
      ReportsAreWhole(rest, i - 1);
    } else if Minimal(buffer[..n]) {
      MinimalIsWhole(buffer[..n]);
    } else {
      assert rest[0] == buffer[1] == ESC && rest[1] == buffer[2] == buffer[2..][0];
      FirstLength(rest);
    }
  }

  /** What begins with an introducer is not split after its escape. */
  lemma FirstLength(s: string)
    requires |s| >= 2 && s[0] == ESC && Introduces(s[1])
    ensures var x := Extract(s);
      var first := if x.sequences == [] then x.remainder else x.sequences[0];
      |first| >= 2 && first[..2] == s[..2]
  {
    hide Extract;
    ExtractStep(s);
    FirstToken(s);
    assert s[..1] == [ESC];
    assert s[..2] != PAIR;
  }

  /** Two escapes are one key unless the next character introduces something longer. */
  lemma TwoEscapes(c: char, rest: string)
    ensures var tail := [c] + rest;
      Extract("\U{1B}\U{1B}" + tail) ==
      if c in "[]PO_" then
        Extracted(["\U{1B}"] + Extract("\U{1B}" + tail).sequences, Extract("\U{1B}" + tail).remainder)
      else Extracted(["\U{1B}\U{1B}"] + Extract(tail).sequences, Extract(tail).remainder)
  {
    hide Extract, TokenLength;
    var tail := [c] + rest;
    var s := PAIR + tail;
    PairIsMinimal();
    TakesMinimal(PAIR, tail);
    ExtractStep(s);
    assert s[..1] == "\U{1B}" && s[1..] == "\U{1B}" + tail && s[..2] == PAIR && s[2..] == tail;
  }

  /* ---------- Keyboard reports ---------- */

  /** ESC [ and a code point, and at most two fields of digits after colons, the second not empty, and then u. */
  predicate KeyReport(s: string, cp: string, shifted: string, base: string) {
    && Number(cp) && AllDigits(shifted) && Number(base)
    && (s == CSI + cp + "u" || s == CSI + cp + ":" + shifted + "u" || s == CSI + cp + ":" + shifted + ":" + base + "u")
  }

  /** The character announced is the code point of a report, if that is no control character. */
  lemma AnnouncedExactly(s: string, n: nat)
    ensures KittyPrintable(s) == Some(n) <==>
      n >= 32 && exists cp, shifted, base :: KeyReport(s, cp, shifted, base) && DigitsValue(cp) == n
  {
    hide DigitsValue;
    if KittyPrintable(s) == Some(n) {
      AnnouncedIsReport(s, n);
    }
    if n >= 32 && exists cp, shifted, base :: KeyReport(s, cp, shifted, base) && DigitsValue(cp) == n {
      var cp, shifted, base :| KeyReport(s, cp, shifted, base) && DigitsValue(cp) == n;
      ReportIsAnnounced(s, cp, shifted, base, n);
    }
  }

  lemma AnnouncedIsReport(s: string, n: nat)
    requires KittyPrintable(s) == Some(n)
    ensures n >= 32 && exists cp, shifted, base :: KeyReport(s, cp, shifted, base) && DigitsValue(cp) == n
  {
    var inner := s[2..|s| - 1];
    var parts := Split(inner, ':');
    JoinSplit(inner, ':');
    assert s == CSI + inner + "u";
    hide Split, DigitsValue;
    if |parts| == 1 {
      assert KeyReport(s, parts[0], "", "0");
    } else if |parts| == 2 {
      TwoFields(s, inner, parts);
      assert KeyReport(s, parts[0], parts[1], "0");
    } else {
      ThreeFields(s, inner, parts);
      assert KeyReport(s, parts[0], parts[1], parts[2]);
    }
  }

  lemma TwoFields(s: string, inner: string, parts: seq<string>)
    requires |parts| == 2 && Join(parts, ':') == inner && s == CSI + inner + "u"
    ensures s == CSI + parts[0] + ":" + parts[1] + "u"
  {
    assert parts[1..] == [parts[1]];
    assert inner == parts[0] + ":" + parts[1];
    assert CSI + (parts[0] + ":" + parts[1]) == CSI + parts[0] + ":" + parts[1];
  }

  lemma ThreeFields(s: string, inner: string, parts: seq<string>)
    requires |parts| == 3 && Join(parts, ':') == inner && s == CSI + inner + "u"
    ensures s == CSI + parts[0] + ":" + parts[1] + ":" + parts[2] + "u"
  {
    ThreeJoined(parts, ':');
    hide Join;
    assert CSI + (parts[0] + ":" + parts[1] + ":" + parts[2]) == CSI + parts[0] + ":" + parts[1] + ":" + parts[2];
  }

  lemma ReportIsAnnounced(s: string, cp: string, shifted: string, base: string, n: nat)
    requires KeyReport(s, cp, shifted, base) && DigitsValue(cp) == n && n >= 32
    ensures KittyPrintable(s) == Some(n)
  {
    hide Split, DigitsValue;
    SplitNone(cp, ':');
    SplitNone(shifted, ':');
    SplitNone(base, ':');
    var inner := s[2..|s| - 1];
    if s == CSI + cp + "u" {
      assert inner == cp;
    } else if s == CSI + cp + ":" + shifted + "u" {
      assert inner == cp + [':'] + shifted;
      SplitConcat(cp, shifted, ':');
    } else {
      assert inner == cp + [':'] + (shifted + [':'] + base);
      SplitConcat(cp, shifted + [':'] + base, ':');
      SplitConcat(shifted, base, ':');
    }
  }
}

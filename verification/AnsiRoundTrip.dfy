/** Printing a style and parsing the codes back gives the same style. */
module AnsiRoundTrip {
  import opened Wrappers
  import opened Strings
  import opened AnsiTracker

  /* ---------- Well-formed styles ---------- */

  predicate IsColor(parts: seq<string>, lead: nat) {
    && |parts| > 0
    && (forall i :: 0 <= i < |parts| ==> AllDigits(parts[i]))
    && ParseInt(parts[0]) == Some(lead)
    && ((|parts| == 3 && parts[1] == "5") || (|parts| == 5 && parts[1] == "2"))
  }

  ghost predicate ForegroundOk(c: string) {
    (exists n: nat :: ForegroundCode(n) && c == Show(n)) || IsColor(Split(c, ';'), 38)
  }

  ghost predicate BackgroundOk(c: string) {
    (exists n: nat :: BackgroundCode(n) && c == Show(n)) || IsColor(Split(c, ';'), 48)
  }

  predicate LinkOk(l: Link) {
    IsCode(FormatLink(l)) && ParseLink(FormatLink(l)) == Opens(l)
  }

  /** What every state reached from the cleared one satisfies. */
  ghost predicate WellFormed(s: Style) {
    && (s.fg.Some? ==> ForegroundOk(s.fg.value))
    && (s.bg.Some? ==> BackgroundOk(s.bg.value))
    && (s.link.Some? ==> LinkOk(s.link.value))
  }

  /* ---------- Splitting and joining ---------- */

  function FlatSplit(codes: seq<string>): seq<string> {
    if codes == [] then [] else Split(codes[0], ';') + FlatSplit(codes[1..])
  }

  lemma {:induction false} SplitJoin(codes: seq<string>)
    requires codes != []
    ensures Split(Join(codes, ';'), ';') == FlatSplit(codes)
  {
    if |codes| > 1 {
      SplitJoin(codes[1..]);
      SplitConcat(codes[0], Join(codes[1..], ';'), ';');
    } else {
      assert FlatSplit(codes[1..]) == [];
      assert Split(codes[0], ';') + [] == Split(codes[0], ';');
    }
  }

  lemma {:induction false} FlatSplitConcat(a: seq<string>, b: seq<string>)
    ensures FlatSplit(a + b) == FlatSplit(a) + FlatSplit(b)
  {
    if a == [] {
      assert a + b == b;
    } else {
      FlatSplitConcat(a[1..], b);
      assert (a + b)[1..] == a[1..] + b;
    }
  }

  /* ---------- Numbers ---------- */

  lemma DigitsSnoc(a: string, d: nat)
    requires AllDigits(a) && d < 10
    ensures AllDigits(a + Digit(d)) && DigitsValue(a + Digit(d)) == DigitsValue(a) * 10 + d
    ensures AllDigits(Digit(d)) && DigitsValue(Digit(d)) == d
    ensures ';' !in Digit(d)
  {
    assert (a + Digit(d))[..|a|] == a;
    assert Digit(d)[..0] == "";
  }

  lemma ShowParses(n: nat)
    requires n < 1000
    ensures Show(n) != "" && AllDigits(Show(n)) && ParseInt(Show(n)) == Some(n) && ';' !in Show(n)
  {
    hide DigitsValue, Digit, AllDigits;
    if n < 10 {
      OneDigit(n);
    } else if n < 100 {
      TwoDigits(n / 10, n % 10);
    } else {
      TwoDigits(n / 100, n / 10 % 10);
      OneDigit(n % 10);
      DigitsSnoc(Digit(n / 100) + Digit(n / 10 % 10), n % 10);
    }
  }

  lemma OneDigit(d: nat)
    requires d < 10
    ensures AllDigits(Digit(d)) && DigitsValue(Digit(d)) == d && ';' !in Digit(d) && Digit(d) != ""
  {
    DigitsSnoc("", d);
  }

  lemma TwoDigits(c: nat, d: nat)
    requires c < 10 && d < 10
    ensures var s := Digit(c) + Digit(d); AllDigits(s) && DigitsValue(s) == 10 * c + d && ';' !in s && s != ""
  {
    hide Digit, DigitsValue, AllDigits;
    OneDigit(c);
    OneDigit(d);
    DigitsSnoc(Digit(c), d);
  }

  /* ---------- Parameters ---------- */

  /** A parameter on its own at the head is handled first. */
  lemma SingleFirst(s: Style, p: string, rest: seq<string>)
    requires ParseInt(p) != Some(38) && ParseInt(p) != Some(48)
    ensures ProcessParams(s, [p] + rest) == ProcessParams(Single(s, ParseInt(p)), rest)
  {
    assert ([p] + rest)[1..] == rest;
  }

  /** A colour at the head is handled first. */
  lemma ColorFirst(s: Style, parts: seq<string>, lead: nat, rest: seq<string>)
    requires IsColor(parts, lead) && (lead == 38 || lead == 48)
    ensures ProcessParams(s, parts + rest) == ProcessParams(SetColor(s, Some(lead), Join(parts, ';')), rest)
  {
    var all := parts + rest;
    assert all[0] == parts[0] && all[1] == parts[1];
    assert ColorLength(all) == |parts|;
    assert all[..|parts|] == parts && all[|parts|..] == rest;
  }

  lemma FlagFirst(s: Style, on: bool, code: string, n: nat, rest: seq<string>)
    requires 0 < n < 10 && code == Digit(n)
    ensures ProcessParams(s, On(on, code, rest)) == ProcessParams(if on then Single(s, Some(n)) else s, rest)
    ensures FlatSplit(On(on, code, rest)) == On(on, code, FlatSplit(rest))
  {
    ShowParses(n);
    assert code == Show(n);
    if on {
      SingleFirst(s, code, rest);
      assert ([code] + rest)[1..] == rest;
      SplitNone(code, ';');
      assert FlatSplit([code] + rest) == [code] + FlatSplit(rest);
    }
  }

  function LowFlags(s: Style, rest: seq<string>): seq<string> {
    On(s.on.bold, "1", On(s.on.dim, "2", On(s.on.italic, "3", On(s.on.underline, "4", rest))))
  }

  function HighFlags(s: Style, rest: seq<string>): seq<string> {
    On(s.on.blink, "5", On(s.on.inverse, "7", On(s.on.hidden, "8", On(s.on.strikethrough, "9", rest))))
  }

  lemma LowFlagsBack(s: Style, rest: seq<string>)
    ensures ProcessParams(CLEAR, LowFlags(s, rest))
         == ProcessParams(Style(Attributes(s.on.bold, s.on.dim, s.on.italic, s.on.underline, false, false, false, false), None, None, None), rest)
    ensures FlatSplit(LowFlags(s, rest)) == LowFlags(s, FlatSplit(rest))
  {
    hide ProcessParams, FlatSplit, On;
    var r4 := On(s.on.underline, "4", rest);
    var r3 := On(s.on.italic, "3", r4);
    var r2 := On(s.on.dim, "2", r3);
    var t1 := Style(Attributes(s.on.bold, false, false, false, false, false, false, false), None, None, None);
    var t2 := Style(Attributes(s.on.bold, s.on.dim, false, false, false, false, false, false), None, None, None);
    var t3 := Style(Attributes(s.on.bold, s.on.dim, s.on.italic, false, false, false, false, false), None, None, None);
    FlagFirst(CLEAR, s.on.bold, "1", 1, r2);
    FlagFirst(t1, s.on.dim, "2", 2, r3);
    FlagFirst(t2, s.on.italic, "3", 3, r4);
    FlagFirst(t3, s.on.underline, "4", 4, rest);
  }

  lemma HighFlagsBack(s: Style, rest: seq<string>)
    ensures ProcessParams(
      Style(Attributes(s.on.bold, s.on.dim, s.on.italic, s.on.underline, false, false, false, false), None, None, None),
      HighFlags(s, rest))
         == ProcessParams(s.(fg := None, bg := None, link := None), rest)
    ensures FlatSplit(HighFlags(s, rest)) == HighFlags(s, FlatSplit(rest))
  {
    hide ProcessParams, FlatSplit, On;
    var r9 := On(s.on.strikethrough, "9", rest);
    var r8 := On(s.on.hidden, "8", r9);
    var r7 := On(s.on.inverse, "7", r8);
    var t4 := Style(
      Attributes(s.on.bold, s.on.dim, s.on.italic, s.on.underline, false, false, false, false), None, None, None);
    var t5 := Style(
      Attributes(s.on.bold, s.on.dim, s.on.italic, s.on.underline, s.on.blink, false, false, false), None, None, None);
    var t7 := Style(
      Attributes(s.on.bold, s.on.dim, s.on.italic, s.on.underline, s.on.blink, s.on.inverse, false, false), None, None, None);
    var t8 := Style(
      Attributes(s.on.bold, s.on.dim, s.on.italic, s.on.underline, s.on.blink, s.on.inverse, s.on.hidden, false), None, None, None);
    FlagFirst(t4, s.on.blink, "5", 5, r7);
    FlagFirst(t5, s.on.inverse, "7", 7, r8);
    FlagFirst(t7, s.on.hidden, "8", 8, r9);
    FlagFirst(t8, s.on.strikethrough, "9", 9, rest);
  }

  /** The flags come back one by one. */
  lemma FlagsBack(s: Style, rest: seq<string>)
    ensures ProcessParams(CLEAR, Flags(s, rest)) == ProcessParams(s.(fg := None, bg := None, link := None), rest)
    ensures FlatSplit(Flags(s, rest)) == Flags(s, FlatSplit(rest))
  {
    hide ProcessParams, FlatSplit, On;
    LowFlagsBack(s, HighFlags(s, rest));
    HighFlagsBack(s, rest);
  }

  lemma ForegroundBack(s: Style, c: string, rest: seq<string>)
    requires ForegroundOk(c)
    ensures ProcessParams(s, Split(c, ';') + rest) == ProcessParams(s.(fg := Some(c)), rest)
  {
    hide ProcessParams;
    if IsColor(Split(c, ';'), 38) {
      ColorFirst(s, Split(c, ';'), 38, rest);
      JoinSplit(c, ';');
    } else {
      var n: nat :| ForegroundCode(n) && c == Show(n);
      ShowParses(n);
      SplitNone(c, ';');
      SingleFirst(s, c, rest);
    }
  }

  lemma BackgroundBack(s: Style, c: string, rest: seq<string>)
    requires BackgroundOk(c)
    ensures ProcessParams(s, Split(c, ';') + rest) == ProcessParams(s.(bg := Some(c)), rest)
  {
    hide ProcessParams;
    if IsColor(Split(c, ';'), 48) {
      ColorFirst(s, Split(c, ';'), 48, rest);
      JoinSplit(c, ';');
    } else {
      var n: nat :| BackgroundCode(n) && c == Show(n);
      ShowParses(n);
      SplitNone(c, ';');
      SingleFirst(s, c, rest);
    }
  }

  lemma ColorsBack(s: Style, t: Style)
    requires WellFormed(t) && s.fg == None && s.bg == None
    ensures ProcessParams(s, FlatSplit(Colors(t))) == s.(fg := t.fg, bg := t.bg)
  {
    var f: seq<string> := if t.fg.Some? then [t.fg.value] else [];
    var b: seq<string> := if t.bg.Some? then [t.bg.value] else [];
    FlatSplitConcat(f, b);
    FlatSplitOne(f);
    FlatSplitOne(b);
    ColorsBackParts(s, t, FlatSplit(f), FlatSplit(b));
  }

  lemma FlatSplitOne(c: seq<string>)
    requires |c| <= 1
    ensures FlatSplit(c) == if c == [] then [] else Split(c[0], ';')
  {
    if c != [] { assert c[1..] == []; assert Split(c[0], ';') + [] == Split(c[0], ';'); }
  }

  lemma ColorsBackParts(s: Style, t: Style, f: seq<string>, b: seq<string>)
    requires WellFormed(t) && s.fg == None && s.bg == None
    requires f == if t.fg.Some? then Split(t.fg.value, ';') else []
    requires b == if t.bg.Some? then Split(t.bg.value, ';') else []
    ensures ProcessParams(s, f + b) == s.(fg := t.fg, bg := t.bg)
  {
    hide ForegroundOk, BackgroundOk, Split;
    if t.fg.Some? { ForegroundBack(s, t.fg.value, b); } else { assert f + b == b; }
    var u := s.(fg := t.fg);
    if t.bg.Some? { BackgroundBack(u, t.bg.value, []); assert b + [] == b; }
  }

  /* ---------- The printed text ---------- */

  ghost predicate AllParams(s: string) {
    forall i :: 0 <= i < |s| ==> ParamChar(s[i])
  }

  lemma {:induction false} SplitParams(s: string)
    requires forall i :: 0 <= i < |Split(s, ';')| ==> AllDigits(Split(s, ';')[i])
    ensures AllParams(s)
  {
    if s != "" {
      var rest := Split(s[1..], ';');
      var all := Split(s, ';');
      if s[0] == ';' {
        assert forall i :: 0 <= i < |rest| ==> rest[i] == all[i + 1];
      } else {
        assert all[0] == [s[0]] + rest[0];
        assert AllDigits(all[0]) && all[0][0] == s[0];
        assert forall k :: 0 <= k < |rest[0]| ==> rest[0][k] == all[0][k + 1];
        assert forall i :: 1 <= i < |rest| ==> rest[i] == all[i];
      }
      SplitParams(s[1..]);
    }
  }

  lemma ColorText(c: string)
    requires ForegroundOk(c) || BackgroundOk(c)
    ensures GoodCode(c)
  {
    if exists n: nat :: (ForegroundCode(n) || BackgroundCode(n)) && c == Show(n) {
      var n: nat :| (ForegroundCode(n) || BackgroundCode(n)) && c == Show(n);
      ShowParses(n);
    } else {
      SplitParams(c);
      if c == "" || c == "0" { SplitNone(c, ';'); }
    }
  }

  lemma {:induction false} JoinParams(codes: seq<string>)
    requires forall i :: 0 <= i < |codes| ==> GoodCode(codes[i])
    ensures AllParams(Join(codes, ';'))
    ensures codes != [] ==> Join(codes, ';') != "" && Join(codes, ';') != "0"
  {
    if |codes| > 1 { JoinParams(codes[1..]); }
  }

  ghost predicate GoodCode(c: string) {
    AllParams(c) && c != "" && c != "0"
  }

  lemma CodesAreParams(s: Style)
    requires WellFormed(s)
    ensures forall i :: 0 <= i < |SgrCodes(s)| ==> GoodCode(SgrCodes(s)[i])
  {
    hide ForegroundOk, BackgroundOk, LinkOk, Flags, GoodCode;
    if s.fg.Some? { ColorText(s.fg.value); }
    if s.bg.Some? { ColorText(s.bg.value); }
    forall c | c in SgrCodes(s) ensures GoodCode(c) {
      FlagsMembers(s, Colors(s), c);
    }
  }

  lemma FlagsMembers(s: Style, rest: seq<string>, c: string)
    requires c in Flags(s, rest)
    ensures c in rest || GoodCode(c)
  {
  }

  /** `ESC [ params m`, whatever follows it, is read as one code with exactly those parameters. */
  lemma SgrReadsBack(params: string, rest: string)
    requires AllParams(params)
    ensures var code := [ESC, '['] + params + "m";
      && ExtractAnsiCode(code + rest, 0) == Some(code)
      && FindSgr(code, 0) == Some(params)
      && ParseLink(code) == NoLink
  {
    var code := [ESC, '['] + params + "m";
    var n := |params|;
    assert forall k :: 2 <= k < 2 + n ==> code[k] == params[k - 2] && (code + rest)[k] == params[k - 2];
    assert code[2 + n] == 'm' && (code + rest)[2 + n] == 'm';
    assert CsiEnd(code + rest, 2) == Some(3 + n);
    assert (code + rest)[..3 + n] == code;
    assert ParamsEnd(code, 2) == 2 + n;
    assert code[2..2 + n] == params;
    assert code[1] == '[' && LINK_START[1] == ']';
  }

  lemma SgrBack(s: Style)
    requires WellFormed(s) && SgrCodes(s) != []
    ensures Process(CLEAR, SgrText(s)) == s.(link := None)
  {
    hide ForegroundOk, BackgroundOk, ProcessParams, FlatSplit, Flags, ParseLink, FindSgr;
    var codes := SgrCodes(s);
    CodesAreParams(s);
    JoinParams(codes);
    SgrReadsBack(Join(codes, ';'), "");
    assert [ESC, '['] + Join(codes, ';') + "m" + "" == SgrText(s);
    SplitJoin(codes);
    FlagsBack(s, Colors(s));
    FlagsBack(s, FlatSplit(Colors(s)));
    ColorsBack(s.(fg := None, bg := None, link := None), s);
  }

  /* ---------- Links ---------- */

  lemma {:induction false} OscTail(s: string, j: nat)
    requires OscEnd(s, j).Some?
    ensures var e := OscEnd(s, j).value;
      s[e - 1] == BEL || (e >= j + 2 && s[e - 2] == ESC && s[e - 1] == '\\')
    decreases |s| - j
  {
    if s[j] != BEL && !TerminatesAt(s, j) { OscTail(s, j + 1); }
  }

  /** A code that opens a link is the one printed for that link. */
  lemma LinkPrints(code: string)
    requires IsCode(code) && ParseLink(code).Opens?
    ensures FormatLink(ParseLink(code).link) == code && LinkOk(ParseLink(code).link)
  {
    LinkEnds(code);
    LinkParts(code);
  }

  /** Such a code ends with BEL or with ESC \\. */
  lemma LinkEnds(code: string)
    requires IsCode(code) && LINK_START <= code
    ensures |code| >= 5 && (code[|code| - 1] == BEL || (|code| >= 6 && code[|code| - 2..] == ST))
  {
    hide OscEnd;
    assert code[1] == LINK_START[1] && code[2] == LINK_START[2] && code[3] == LINK_START[3];
    OscTail(code, 2);
    OscNotHere(code);
  }

  lemma OscNotHere(code: string)
    requires LINK_START <= code && OscEnd(code, 2) == Some(|code|)
    ensures |code| >= 5 && (code[|code| - 1] == BEL || |code| >= 6)
  {
    assert code[2] == LINK_START[2] && code[3] == LINK_START[3];
    assert OscEnd(code, 2) == OscEnd(code, 3) == OscEnd(code, 4);
  }

  lemma LinkParts(code: string)
    requires |code| >= 5 && (code[|code| - 1] == BEL || (|code| >= 6 && code[|code| - 2..] == ST))
    requires ParseLink(code).Opens?
    ensures FormatLink(ParseLink(code).link) == code
  {
    var bel := code[|code| - 1] == BEL;
    var n := |code| - if bel then 1 else 2;
    var body := code[4..n];
    BodyParts(body);
    assert code[n..] == if bel then [BEL] else ST;
    assert code == code[..4] + (body + code[n..]);
    assert code[..4] == LINK_START;
    var l := ParseLink(code).link;
    Regroup(l, body);
  }

  lemma BodyParts(body: string)
    requires IndexOf(body, ";").Some?
    ensures var i := IndexOf(body, ";").value; i < |body| && body == body[..i] + ";" + body[i + 1..]
  {
    var i := IndexOf(body, ";").value;
    assert body[i..i + 1] == ";";
  }

  lemma Regroup(l: Link, body: string)
    requires body == l.params + ";" + l.url
    ensures FormatLink(l) == LINK_START + (body + l.terminator)
  {
  }

  /** A link code, whatever follows it, is read as one code. */
  lemma {:induction false} OscStable(s: string, rest: string, j: nat)
    requires OscEnd(s, j) == Some(|s|)
    ensures OscEnd(s + rest, j) == Some(|s|)
    decreases |s| - j
  {
    if s[j] != BEL && !TerminatesAt(s, j) { OscStable(s, rest, j + 1); }
  }

  lemma LinkReadsBack(code: string, rest: string)
    requires IsCode(code) && LINK_START <= code
    ensures ExtractAnsiCode(code + rest, 0) == Some(code)
  {
    assert code[1] == LINK_START[1] == ']';
    OscStable(code, rest, 2);
    assert (code + rest)[..|code|] == code;
  }

  /* ---------- Every reachable state ---------- */

  lemma SgrWellFormed(s: Style, code: Option<nat>)
    requires WellFormed(s)
    ensures WellFormed(Single(s, code))
  {
    hide LinkOk, IsColor, ForegroundOk, BackgroundOk, Show, Split, Switch;
    if code.Some? && ForegroundCode(code.value) {
      BasicForeground(code.value);
    } else if code.Some? && BackgroundCode(code.value) {
      BasicBackground(code.value);
    }
  }

  lemma BasicForeground(n: nat)
    requires ForegroundCode(n)
    ensures ForegroundOk(Show(n))
  {
  }

  lemma BasicBackground(n: nat)
    requires BackgroundCode(n)
    ensures BackgroundOk(Show(n))
  {
  }

  lemma {:induction false} ParamsWellFormed(s: Style, parts: seq<string>)
    requires WellFormed(s)
    requires forall i :: 0 <= i < |parts| ==> AllDigits(parts[i])
    ensures WellFormed(ProcessParams(s, parts))
    decreases |parts|
  {
    hide WellFormed;
    if parts != [] {
      var n := ColorLength(parts);
      if n > 1 {
        ColorWellFormed(s, parts[..n]);
        assert ParseInt(parts[..n][0]) == ParseInt(parts[0]);
        ParamsWellFormed(SetColor(s, ParseInt(parts[0]), Join(parts[..n], ';')), parts[n..]);
      } else {
        SgrWellFormed(s, ParseInt(parts[0]));
        ParamsWellFormed(Single(s, ParseInt(parts[0])), parts[n..]);
      }
    }
  }

  lemma ColorWellFormed(s: Style, parts: seq<string>)
    requires WellFormed(s) && (IsColor(parts, 38) || IsColor(parts, 48))
    ensures WellFormed(SetColor(s, ParseInt(parts[0]), Join(parts, ';')))
  {
    hide LinkOk, Join, Split;
    forall i | 0 <= i < |parts| ensures ';' !in parts[i] { assert AllDigits(parts[i]); }
    SplitJoinParts(parts);
  }

  lemma SplitJoinParts(parts: seq<string>)
    requires parts != [] && forall i :: 0 <= i < |parts| ==> ';' !in parts[i]
    ensures Split(Join(parts, ';'), ';') == parts
  {
    hide Join, Split;
    SplitJoin(parts);
    FlatSplitSame(parts);
  }

  lemma {:induction false} FlatSplitSame(parts: seq<string>)
    requires forall i :: 0 <= i < |parts| ==> ';' !in parts[i]
    ensures FlatSplit(parts) == parts
  {
    if parts != [] {
      SplitNone(parts[0], ';');
      FlatSplitSame(parts[1..]);
    }
  }

  lemma {:induction false} SplitDigits(s: string)
    requires AllParams(s)
    ensures forall i :: 0 <= i < |Split(s, ';')| ==> AllDigits(Split(s, ';')[i])
  {
    if s != "" { SplitDigits(s[1..]); }
  }

  lemma {:induction false} FindSgrParams(code: string, i: nat)
    ensures FindSgr(code, i).Some? ==> AllParams(FindSgr(code, i).value)
    decreases |code| - i
  {
    if i + 2 <= |code| { FindSgrParams(code, i + 1); }
  }

  /** Processing keeps a state well-formed, so every state reached from the cleared one is. */
  lemma ProcessWellFormed(s: Style, code: string)
    requires WellFormed(s) && IsCode(code)
    ensures WellFormed(Process(s, code))
  {
    hide ForegroundOk, BackgroundOk, LinkOk, FindSgr, ProcessParams, ParseLink;
    if ParseLink(code).Opens? {
      LinkPrints(code);
    } else if ParseLink(code).NoLink? && code[|code| - 1] == 'm' && FindSgr(code, 0).Some? {
      var params := FindSgr(code, 0).value;
      FindSgrParams(code, 0);
      if params != "" && params != "0" {
        SplitDigits(params);
        ParamsWellFormed(s, Split(params, ';'));
      }
    }
  }

  /* ---------- The round trip ---------- */

  lemma UpdateStep(s: Style, code: string, rest: string, text: string, i: nat)
    requires i <= |text| && text[i..] == code + rest && ExtractAnsiCode(code + rest, 0) == Some(code)
    ensures UpdateFromText(s, text, i) == UpdateFromText(Process(s, code), text, i + |code|)
  {
    hide Process;
    ExtractShift(text, i);
    assert |text| - i == |code| + |rest|;
  }

  /** Reading a code at `i` is reading it at the head of what is left. */
  lemma ExtractShift(text: string, i: nat)
    requires i <= |text|
    ensures ExtractAnsiCode(text, i) == ExtractAnsiCode(text[i..], 0)
  {
    if i + 1 < |text| && text[i] == ESC {
      CsiShift(text, i, 2);
      OscShift(text, i, 2);
    }
  }

  lemma {:induction false} CsiShift(text: string, i: nat, j: nat)
    requires i <= |text|
    ensures var a := CsiEnd(text, i + j); var b := CsiEnd(text[i..], j);
      (a.Some? <==> b.Some?) && (a.Some? ==> a.value == i + b.value && text[i..a.value] == text[i..][..b.value])
    decreases |text| - i - j
  {
    if i + j < |text| && !EndsCsi(text[i + j]) { CsiShift(text, i, j + 1); }
  }

  lemma {:induction false} OscShift(text: string, i: nat, j: nat)
    requires i <= |text|
    ensures var a := OscEnd(text, i + j); var b := OscEnd(text[i..], j);
      (a.Some? <==> b.Some?) && (a.Some? ==> a.value == i + b.value && text[i..a.value] == text[i..][..b.value])
    decreases |text| - i - j
  {
    if i + j < |text| && text[i + j] != BEL && !TerminatesAt(text, i + j) { OscShift(text, i, j + 1); }
  }

  /**
   * Text printed after the codes of `s` is read in state `s`: whatever follows, the reader is where a
   * reader in state `s` would be.
   */
  lemma ActiveCodesRestore(s: Style, rest: string)
    requires WellFormed(s)
    ensures UpdateFromText(CLEAR, ActiveCodes(s) + rest, 0)
         == UpdateFromText(s, ActiveCodes(s) + rest, |ActiveCodes(s)|)
  {
    hide WellFormed, UpdateFromText, Process, ExtractAnsiCode, IsCode, SgrText, LinkText;
    var text := ActiveCodes(s) + rest;
    var sgr := SgrText(s);
    var link := LinkText(s);
    assert text == sgr + (link + rest);
    assert text[|sgr|..] == link + rest;
    SgrAtHead(s, link + rest, text);
    LinkAtHead(s, rest, text);
  }

  lemma SgrAtHead(s: Style, rest: string, text: string)
    requires WellFormed(s) && text == SgrText(s) + rest
    ensures UpdateFromText(CLEAR, text, 0) == UpdateFromText(s.(link := None), text, |SgrText(s)|)
  {
    hide ForegroundOk, BackgroundOk, LinkOk, UpdateFromText, Process, ExtractAnsiCode;
    if SgrCodes(s) != [] {
      CodesAreParams(s);
      JoinParams(SgrCodes(s));
      SgrReadsBack(Join(SgrCodes(s), ';'), rest);
      assert text[0..] == SgrText(s) + rest;
      UpdateStep(CLEAR, SgrText(s), rest, text, 0);
      SgrBack(s);
    } else {
      NoCodes(s);
    }
  }

  lemma NoCodes(s: Style)
    ensures SgrCodes(s) == [] <==> s.(link := None) == CLEAR
  {
  }

  lemma LinkAtHead(s: Style, rest: string, text: string)
    requires WellFormed(s) && |SgrText(s)| <= |text| && text[|SgrText(s)|..] == LinkText(s) + rest
    ensures UpdateFromText(s.(link := None), text, |SgrText(s)|) == UpdateFromText(s, text, |SgrText(s)| + |LinkText(s)|)
  {
    hide ForegroundOk, BackgroundOk, UpdateFromText, ExtractAnsiCode, IsCode, SgrText, FindSgr;
    if s.link.Some? {
      var code := FormatLink(s.link.value);
      assert code == LINK_START + (s.link.value.params + ";" + s.link.value.url + s.link.value.terminator);
      LinkReadsBack(code, rest);
      UpdateStep(s.(link := None), code, rest, text, |SgrText(s)|);
    }
  }

  /** Feeding a cleared tracker the printed codes restores the state they were printed from. */
  lemma RoundTrip(s: Style)
    requires WellFormed(s)
    ensures UpdateFromText(CLEAR, ActiveCodes(s), 0) == s
  {
    hide WellFormed, ActiveCodes;
    ActiveCodesRestore(s, "");
    assert ActiveCodes(s) + "" == ActiveCodes(s);
  }

  /** Nothing is printed exactly when nothing is on. */
  lemma PrintsNothingIffClear(s: Style)
    ensures ActiveCodes(s) == "" <==> !HasActiveCodes(s)
  {
    NoCodes(s);
    assert s.link.Some? ==> |FormatLink(s.link.value)| >= 5;
  }
}

/** What escape codes are, by grammar, and what each of them does to the state. */
module AnsiCodes {
  import opened Wrappers
  import opened Strings
  import opened AnsiTracker
  import opened AnsiRoundTrip

  /* ---------- Recognising codes ---------- */

  /** ESC [ up to the first of the five letters that end a code. */
  predicate ControlCode(c: string) {
    && |c| >= 3 && c[0] == '\U{1B}' && c[1] == '[' && c[|c| - 1] in "mGKHJ"
    && forall k :: 2 <= k < |c| - 1 ==> c[k] !in "mGKHJ"
  }

  predicate Terminator(c: string, k: nat) {
    k + 1 < |c| && c[k] == '\U{1B}' && c[k + 1] == '\\'
  }

  /** ESC ] or ESC _ up to the first BEL or ESC \. */
  predicate StringCode(c: string) {
    && |c| >= 3 && c[0] == '\U{1B}' && (c[1] == ']' || c[1] == '_')
    && (c[|c| - 1] == '\U{07}' || (|c| >= 4 && Terminator(c, |c| - 2)))
    && (forall k :: 2 <= k < |c| - 1 ==> c[k] != '\U{07}')
    && (forall k :: 2 <= k < |c| - 2 ==> !Terminator(c, k))
  }

  /** A code is found at a place exactly if one of either kind stands there. */
  lemma FoundExactly(s: string, pos: nat, n: nat)
    requires pos + n <= |s|
    ensures ExtractAnsiCode(s, pos) == Some(s[pos..pos + n])
      <==> ControlCode(s[pos..pos + n]) || StringCode(s[pos..pos + n])
  {
    var c := s[pos..pos + n];
    assert forall k :: 0 <= k < n ==> c[k] == s[pos + k];
    if n >= 3 && c[0] == ESC {
      if c[1] == '[' { ControlFound(s, pos, n); }
      else if c[1] == ']' || c[1] == '_' { StringFound(s, pos, n); }
    }
  }

  lemma EndsCsiIs(c: char)
    ensures EndsCsi(c) <==> c in "mGKHJ"
  {
  }

  lemma ControlFound(s: string, pos: nat, n: nat)
    requires pos + n <= |s| && n >= 3 && s[pos] == ESC && s[pos + 1] == '['
    ensures ExtractAnsiCode(s, pos) == Some(s[pos..pos + n]) <==> ControlCode(s[pos..pos + n])
  {
    var c := s[pos..pos + n];
    assert forall k :: 0 <= k < n ==> c[k] == s[pos + k];
    var e := CsiEnd(s, pos + 2);
    forall k | 0 <= k < n ensures EndsCsi(c[k]) <==> c[k] in "mGKHJ" { EndsCsiIs(c[k]); }
    if e.Some? {
      assert |s[pos..e.value]| == e.value - pos;
      if ControlCode(c) {
        assert EndsCsi(s[pos + (n - 1)]) && !(e.value < pos + n) && !(pos + n < e.value);
      }
    } else {
      assert !EndsCsi(s[pos + (n - 1)]);
    }
  }

  /** Where a string code that is being read at `j` ends. */
  lemma {:induction false} OscEndIs(s: string, j: nat)
    ensures var e := OscEnd(s, j);
      && (e.Some? ==> s[e.value - 1] == BEL || (e.value >= j + 2 && Terminator(s, e.value - 2)))
      && (forall k :: j <= k < (if e.Some? then e.value - 1 else |s|) ==> s[k] != BEL)
      && (forall k :: j <= k < (if e.Some? then e.value - 2 else |s|) ==> !Terminator(s, k))
    decreases |s| - j
  {
    if j < |s| && s[j] != BEL && !TerminatesAt(s, j) { OscEndIs(s, j + 1); }
  }

  lemma StringFound(s: string, pos: nat, n: nat)
    requires pos + n <= |s| && n >= 3 && s[pos] == ESC && (s[pos + 1] == ']' || s[pos + 1] == '_')
    ensures ExtractAnsiCode(s, pos) == Some(s[pos..pos + n]) <==> StringCode(s[pos..pos + n])
  {
    var c := s[pos..pos + n];
    assert forall k :: 0 <= k < n ==> c[k] == s[pos + k];
    var e := OscEnd(s, pos + 2);
    OscEndIs(s, pos + 2);
    if e.Some? {
      var m := e.value - pos;
      assert |s[pos..e.value]| == m;
      if m < n {
        assert s[e.value - 1] == c[m - 1] && s[e.value - 2] == c[m - 2];
        assert c[m - 1] == BEL || Terminator(c, m - 2);
      } else if n < m {
        LaterEnd(s, pos, n, e.value);
      } else {
        forall k | 2 <= k < n - 2 ensures !Terminator(c, k) { assert !Terminator(s, pos + k); }
      }
    } else {
      LaterEnd(s, pos, n, |s| + 1);
    }
  }

  /** Where nothing ends before `e`, no string code ends. */
  lemma LaterEnd(s: string, pos: nat, n: nat, e: nat)
    requires pos + n <= |s| && n >= 3 && pos + n < e <= |s| + 1
    requires forall k :: pos + 2 <= k < e - 1 ==> s[k] != BEL
    requires forall k :: pos + 2 <= k < e - 2 ==> !Terminator(s, k)
    ensures !StringCode(s[pos..pos + n])
  {
    var c := s[pos..pos + n];
    assert c[n - 1] == s[pos + n - 1];
    if n >= 4 { assert c[n - 2] == s[pos + n - 2] && !Terminator(s, pos + n - 2); }
  }

  /* ---------- Attributes and colours ---------- */

  /** Which numbers switch attributes on. */
  lemma OnMeans(s: Attributes)
    ensures Switch(s, 1) == s.(bold := true) && Switch(s, 2) == s.(dim := true)
    ensures Switch(s, 3) == s.(italic := true) && Switch(s, 4) == s.(underline := true)
    ensures Switch(s, 5) == s.(blink := true) && Switch(s, 7) == s.(inverse := true)
    ensures Switch(s, 8) == s.(hidden := true) && Switch(s, 9) == s.(strikethrough := true)
  {
  }

  /** Which switch them off. */
  lemma OffMeans(s: Attributes)
    ensures Switch(s, 21) == s.(bold := false) && Switch(s, 22) == s.(bold := false, dim := false)
    ensures Switch(s, 23) == s.(italic := false) && Switch(s, 24) == s.(underline := false)
    ensures Switch(s, 25) == s.(blink := false) && Switch(s, 27) == s.(inverse := false)
    ensures Switch(s, 28) == s.(hidden := false) && Switch(s, 29) == s.(strikethrough := false)
  {
  }

  /** No other number does. */
  lemma OthersMeanNothing(s: Attributes, n: nat)
    requires n < 1 || n == 6 || 9 < n < 21 || n == 26 || n > 29
    ensures Switch(s, n) == s
  {
  }

  /** One parameter: 0 clears all but the hyperlink, 39 and 49 a colour; the basic colours are kept as numbers. */
  lemma ParameterMeans(s: Style, n: nat)
    ensures var r := Single(s, Some(n));
      && r.link == s.link
      && r.on == (if n == 0 then PLAIN else Switch(s.on, n))
      && r.fg == (if n == 0 || n == 39 then None else if 30 <= n <= 37 || 90 <= n <= 97 then Some(Show(n)) else s.fg)
      && r.bg == (if n == 0 || n == 49 then None else if 40 <= n <= 47 || 100 <= n <= 107 then Some(Show(n)) else s.bg)
    ensures Single(s, None) == s
    ensures n < 1000 ==> ParseInt(Show(n)) == Some(n)
  {
    if n < 1000 { ShowParses(n); }
  }

  /** The parameters of a code take effect from left to right; a colour of several takes them together. */
  lemma ParametersMean(s: Style, p: string, rest: seq<string>, color: seq<string>)
    ensures ProcessParams(s, []) == s
    ensures ParseInt(p) != Some(38) && ParseInt(p) != Some(48) ==>
      ProcessParams(s, [p] + rest) == ProcessParams(Single(s, ParseInt(p)), rest)
    ensures IsExtended(color) ==>
      var text := Some(Join(color, ';'));
      ProcessParams(s, color + rest) ==
        ProcessParams(if ParseInt(color[0]) == Some(38) then s.(fg := text) else s.(bg := text), rest)
  {
    hide Join, Single, ParseInt;
    assert ([p] + rest)[1..] == rest && ([p] + rest)[0] == p;
    if IsExtended(color) {
      var (parts, n) := (color + rest, |color|);
      assert parts[..n] == color && parts[n..] == rest && parts[0] == color[0] && parts[1] == color[1];
    }
  }

  /** 38 or 48, and then 5 and a number, or 2 and three numbers. */
  predicate IsExtended(color: seq<string>) {
    && (|color| == 3 || |color| == 5) && (ParseInt(color[0]) == Some(38) || ParseInt(color[0]) == Some(48))
    && color[1] == if |color| == 3 then "5" else "2"
  }

  /* ---------- Whole codes ---------- */

  predicate Params(p: string) {
    forall i :: 0 <= i < |p| ==> '0' <= p[i] <= '9' || p[i] == ';'
  }

  /** At `i` there is ESC [, the parameters `p`, and m. */
  predicate SgrAt(s: string, i: nat, p: string) {
    && i + |p| + 3 <= |s| && s[i] == '\U{1B}' && s[i + 1] == '[' && s[i + 2..i + 2 + |p|] == p && Params(p)
    && s[i + 2 + |p|] == 'm'
  }

  /** What stands at `i` if the search stops there. */
  lemma StopsAtSgr(s: string, i: nat)
    requires i + 2 <= |s|
    ensures var e := ParamsEnd(s, i + 2);
      e < |s| && s[i] == ESC && s[i + 1] == '[' && s[e] == 'm' ==> SgrAt(s, i, s[i + 2..e])
  {
    var e := ParamsEnd(s, i + 2);
    var p := s[i + 2..e];
    forall k | 0 <= k < |p| ensures '0' <= p[k] <= '9' || p[k] == ';' { assert ParamChar(s[i + 2 + k]); }
  }

  lemma {:induction false} FirstSgr(s: string, i: nat, p: string, k: nat)
    requires i <= k && SgrAt(s, k, p) && forall j, q :: i <= j < k ==> !SgrAt(s, j, q)
    ensures FindSgr(s, i) == Some(p)
    decreases k - i
  {
    var e := ParamsEnd(s, i + 2);
    if i == k {
      var m := i + 2 + |p|;
      assert forall j :: i + 2 <= j < m ==> s[j] == p[j - i - 2];
      assert e == m && s[i + 2..e] == p;
    } else {
      StopsAtSgr(s, i);
      assert !SgrAt(s, i, s[i + 2..e]);
      hide SgrAt;
      FirstSgr(s, i + 1, p, k);
    }
  }

  lemma {:induction false} NoSgr(s: string, i: nat)
    requires forall j, q :: i <= j ==> !SgrAt(s, j, q)
    ensures FindSgr(s, i) == None
    decreases |s| - i
  {
    if i + 2 <= |s| {
      StopsAtSgr(s, i);
      assert !SgrAt(s, i, s[i + 2..ParamsEnd(s, i + 2)]);
      NoSgr(s, i + 1);
    }
  }

  /** An SGR code without parameters clears all but the hyperlink; otherwise its parameters take effect. */
  lemma SgrMeans(s: Style, p: string)
    requires Params(p)
    ensures Process(s, "\U{1B}[" + p + "m") ==
      if p == "" then CLEAR.(link := s.link) else ProcessParams(s, Split(p, ';'))
  {
    var code := "\U{1B}[" + p + "m";
    assert code[1] != LINK_START[1];
    assert code[2..2 + |p|] == p && SgrAt(code, 0, p);
    FirstSgr(code, 0, p, 0);
    if p == "0" { ZeroClears(s); }
  }

  lemma ZeroClears(s: Style)
    ensures ProcessParams(s, Split("0", ';')) == Reset(s)
  {
    SplitNone("0", ';');
    assert ["0"][1..] == [] && "0"[..0] == "";
    assert ParseInt("0") == Some(0);
  }

  /** A code that does not end in `m` and is no hyperlink changes nothing. */
  lemma OtherCodesMeanNothing(s: Style, code: string)
    requires !(LINK_START <= code) && (code == "" || code[|code| - 1] != 'm')
    ensures Process(s, code) == s
  {
  }

  /** ESC ]8; parameters ; address and a terminator opens a hyperlink, and one without an address closes it. */
  lemma LinkMeans(s: Style, params: string, url: string, terminator: string)
    requires ';' !in params && (terminator == "\U{07}" || terminator == "\U{1B}\\")
    ensures var code := "\U{1B}]8;" + params + ";" + url + terminator;
      Process(s, code) == s.(link := if url == "" then None else Some(Link(params, url, terminator)))
  {
    var code := "\U{1B}]8;" + params + ";" + url + terminator;
    var body := params + ";" + url;
    assert code == LINK_START + (body + terminator) && LINK_START <= code;
    assert code[4..|code| - |terminator|] == body;
    assert code[|code| - 1] == terminator[|terminator| - 1];
    assert body[|params|..|params| + 1] == ";";
    forall k | 0 <= k < |params| ensures !StartsAt(body, k, ";") { assert body[k..k + 1] == [params[k]]; }
    IndexOfIs(body, ";", |params|);
    assert body[..|params|] == params && body[|params| + 1..] == url;
  }

  lemma TextStep(s: Style, text: string, i: nat)
    requires i < |text|
    ensures UpdateFromText(s, text, i) ==
      match ExtractAnsiCode(text, i)
      case Some(code) => UpdateFromText(Process(s, code), text, i + |code|)
      case None => UpdateFromText(s, text, i + 1)
  {
    hide Process, ExtractAnsiCode;
  }

  lemma TextEnds(s: Style, text: string)
    ensures UpdateFromText(s, text, |text|) == s
  {
  }

  /** A text's codes take effect in their order, and what is between them does not. */
  lemma TextMeans(s: Style, plain: string, code: string, rest: string)
    requires ESC !in plain && (ControlCode(code) || StringCode(code))
    ensures UpdateFromText(s, plain, 0) == s
    ensures UpdateFromText(s, plain + code + rest, 0) == UpdateFromText(Process(s, code), rest, 0)
  {
    hide Process, UpdateFromText, ExtractAnsiCode, ControlCode, StringCode;
    PlainFrom(s, plain, "", 0);
    TextEnds(s, plain);
    assert plain + "" == plain;
    Pieces(plain, code, rest);
    PlainFrom(s, plain, code + rest, 0);
    CodeTaken(s, plain, code, rest);
    RestAlone(Process(s, code), plain + code, rest, 0);
  }

  lemma Pieces(plain: string, code: string, rest: string)
    ensures plain + code + rest == plain + (code + rest)
    ensures (plain + (code + rest))[|plain|..|plain| + |code|] == code
  {
  }

  lemma CodeTaken(s: Style, plain: string, code: string, rest: string)
    requires ControlCode(code) || StringCode(code)
    ensures var text := plain + (code + rest);
      UpdateFromText(s, text, |plain|) == UpdateFromText(Process(s, code), text, |plain| + |code|)
  {
    hide Process, UpdateFromText, ExtractAnsiCode;
    Pieces(plain, code, rest);
    FoundExactly(plain + (code + rest), |plain|, |code|);
    TextStep(s, plain + (code + rest), |plain|);
  }

  lemma {:induction false} PlainFrom(s: Style, plain: string, rest: string, i: nat)
    requires ESC !in plain && i <= |plain|
    ensures UpdateFromText(s, plain + rest, i) == UpdateFromText(s, plain + rest, |plain|)
    decreases |plain| - i
  {
    hide UpdateFromText, Process;
    if i < |plain| {
      assert (plain + rest)[i] == plain[i] && plain[i] in plain;
      TextStep(s, plain + rest, i);
      PlainFrom(s, plain, rest, i + 1);
    }
  }

  lemma {:induction false} RestAlone(s: Style, before: string, rest: string, i: nat)
    requires i <= |rest|
    ensures UpdateFromText(s, before + rest, |before| + i) == UpdateFromText(s, rest, i)
    decreases |rest| - i
  {
    hide Process, UpdateFromText, ExtractAnsiCode;
    if i < |rest| {
      SameCode(before, rest, i);
      TextStep(s, before + rest, |before| + i);
      TextStep(s, rest, i);
      var found := ExtractAnsiCode(rest, i);
      if found.Some? { RestAlone(Process(s, found.value), before, rest, i + |found.value|); }
      else { RestAlone(s, before, rest, i + 1); }
    } else {
      TextEnds(s, before + rest);
      TextEnds(s, rest);
    }
  }

  lemma SameCode(before: string, rest: string, i: nat)
    requires i < |rest|
    ensures ExtractAnsiCode(before + rest, |before| + i) == ExtractAnsiCode(rest, i)
  {
    hide ExtractAnsiCode, ControlCode, StringCode;
    var (text, n) := (before + rest, |before|);
    var (a, b) := (ExtractAnsiCode(text, n + i), ExtractAnsiCode(rest, i));
    if a.Some? {
      assert text[n + i..n + i + |a.value|] == rest[i..i + |a.value|];
      FoundExactly(text, n + i, |a.value|);
      FoundExactly(rest, i, |a.value|);
    }
    if b.Some? {
      assert text[n + i..n + i + |b.value|] == rest[i..i + |b.value|];
      FoundExactly(text, n + i, |b.value|);
      FoundExactly(rest, i, |b.value|);
    }
  }
}

/** The tracker as an object, and the loops that scan and wrap styled text. */
module TextLayout {
  import opened Wrappers
  import opened Strings
  import opened AnsiTracker
  import opened Wrap
  import opened WrapProofs

  /** `extractAnsiCode`. */
  method ReadAnsiCode(s: string, pos: nat) returns (code: Option<string>)
    ensures code == ExtractAnsiCode(s, pos)
  {
    if pos + 1 >= |s| || s[pos] != ESC { return None; }
    var j := pos + 2;
    if s[pos + 1] == '[' {
      while j < |s| && !EndsCsi(s[j])
        invariant pos + 2 <= j <= |s|
        invariant CsiEnd(s, pos + 2) == CsiEnd(s, j)
      {
        j := j + 1;
      }
      if j < |s| { return Some(s[pos..j + 1]); }
    } else if s[pos + 1] == ']' || s[pos + 1] == '_' {
      while j < |s|
        invariant pos + 2 <= j <= |s|
        invariant OscEnd(s, pos + 2) == OscEnd(s, j)
      {
        if s[j] == BEL { return Some(s[pos..j + 1]); }
        if s[j] == ESC && j + 1 < |s| && s[j + 1] == '\\' { return Some(s[pos..j + 2]); }
        j := j + 1;
      }
    }
    return None;
  }

  class AnsiCodeTracker {
    var bold: bool
    var dim: bool
    var italic: bool
    var underline: bool
    var blink: bool
    var inverse: bool
    var hidden: bool
    var strikethrough: bool
    var fgColor: Option<string>
    var bgColor: Option<string>
    var activeHyperlink: Option<Link>

    ghost function Now(): Style
      reads this
    {
      Style(Attributes(bold, dim, italic, underline, blink, inverse, hidden, strikethrough),
            fgColor, bgColor, activeHyperlink)
    }

    constructor ()
      ensures Now() == CLEAR
    {
      bold, dim, italic, underline := false, false, false, false;
      blink, inverse, hidden, strikethrough := false, false, false, false;
      fgColor, bgColor, activeHyperlink := None, None, None;
    }

    method ResetSgr()
      modifies this
      ensures Now() == Reset(old(Now()))
    {
      bold, dim, italic, underline := false, false, false, false;
      blink, inverse, hidden, strikethrough := false, false, false, false;
      fgColor, bgColor := None, None;
    }

    /** Clear all state for reuse. */
    method Clear()
      modifies this
      ensures Now() == CLEAR
    {
      ResetSgr();
      activeHyperlink := None;
    }

    ghost function Attrs(): Attributes
      reads this
    {
      Attributes(bold, dim, italic, underline, blink, inverse, hidden, strikethrough)
    }

    method SwitchOn(n: nat)
      requires n < 10
      modifies this`bold, this`dim, this`italic, this`underline, this`blink, this`inverse, this`hidden, this`strikethrough
      ensures Attrs() == Switch(old(Attrs()), n)
    {
      match n
      case 1 => bold := true;
      case 2 => dim := true;
      case 3 => italic := true;
      case 4 => underline := true;
      case 5 => blink := true;
      case 7 => inverse := true;
      case 8 => hidden := true;
      case 9 => strikethrough := true;
      case _ =>
    }

    method SwitchOff(n: nat)
      requires n >= 10
      modifies this`bold, this`dim, this`italic, this`underline, this`blink, this`inverse, this`hidden, this`strikethrough
      ensures Attrs() == Switch(old(Attrs()), n)
    {
      hide Switch;
      if n <= 24 { SwitchOffFont(n); } else { SwitchOffRest(n); }
    }

    method SwitchOffFont(n: nat)
      requires 10 <= n <= 24
      modifies this`bold, this`dim, this`italic, this`underline
      ensures Attrs() == Switch(old(Attrs()), n)
    {
      match n
      case 21 => bold := false;
      case 22 => bold := false; dim := false;
      case 23 => italic := false;
      case 24 => underline := false;
      case _ =>
    }

    method SwitchOffRest(n: nat)
      requires n > 24
      modifies this`blink, this`inverse, this`hidden, this`strikethrough
      ensures Attrs() == Switch(old(Attrs()), n)
    {
      match n
      case 25 => blink := false;
      case 27 => inverse := false;
      case 28 => hidden := false;
      case 29 => strikethrough := false;
      case _ =>
    }

    method ApplySingle(code: Option<nat>)
      modifies this
      ensures Now() == Single(old(Now()), code)
    {
      hide Switch, Show;
      if code.None? { return; }
      var n := code.value;
      if n == 0 { ResetSgr(); }
      else if n == 39 { fgColor := None; }
      else if n == 49 { bgColor := None; }
      else if (30 <= n <= 37) || (90 <= n <= 97) { fgColor := Some(Show(n)); }
      else if (40 <= n <= 47) || (100 <= n <= 107) { bgColor := Some(Show(n)); }
      else if n < 10 { SwitchOn(n); }
      else { SwitchOff(n); }
    }

    method ApplyParams(parts: seq<string>)
      modifies this
      ensures Now() == ProcessParams(old(Now()), parts)
    {
      hide Single, Join;
      var i := 0;
      assert parts[0..] == parts;
      while i < |parts|
        invariant i <= |parts|
        invariant ProcessParams(old(Now()), parts) == ProcessParams(Now(), parts[i..])
      {
        var code := ParseInt(parts[i]);
        assert parts[i..][0] == parts[i];
        if code == Some(38) || code == Some(48) {
          var taken := 1;
          if i + 2 < |parts| && parts[i + 1] == "5" { taken := 3; }
          else if i + 4 < |parts| && parts[i + 1] == "2" { taken := 5; }
          assert taken == ColorLength(parts[i..]);
          if taken > 1 {
            var colorCode := Join(parts[i..i + taken], ';');
            assert parts[i..][..taken] == parts[i..i + taken] && parts[i..][taken..] == parts[i + taken..];
            if code == Some(38) { fgColor := Some(colorCode); } else { bgColor := Some(colorCode); }
            i := i + taken;
            continue;
          }
        }
        assert parts[i..][1..] == parts[i + 1..];
        ApplySingle(code);
        i := i + 1;
      }
      assert parts[i..] == [];
    }

    method Process(ansiCode: string)
      modifies this
      ensures Now() == AnsiTracker.Process(old(Now()), ansiCode)
    {
      hide ParseLink, FindSgr, ProcessParams, Split;
      var hyperlink := ParseLink(ansiCode);
      if !hyperlink.NoLink? {
        activeHyperlink := if hyperlink.Opens? then Some(hyperlink.link) else None;
        return;
      }
      if ansiCode == "" || ansiCode[|ansiCode| - 1] != 'm' { return; }
      var params := FindSgr(ansiCode, 0);
      if params.None? { return; }
      if params.value == "" || params.value == "0" {
        ResetSgr();
        return;
      }
      ApplyParams(Split(params.value, ';'));
    }

    /** The codes of the flags that are on, in front of `colors`. */
    method FlagCodes(colors: seq<string>) returns (codes: seq<string>)
      ensures codes == Flags(Now(), colors)
    {
      codes := On(strikethrough, "9", colors);
      codes := On(hidden, "8", codes);
      codes := On(inverse, "7", codes);
      codes := On(blink, "5", codes);
      codes := On(underline, "4", codes);
      codes := On(italic, "3", codes);
      codes := On(dim, "2", codes);
      codes := On(bold, "1", codes);
    }

    method GetActiveCodes() returns (result: string)
      ensures result == ActiveCodes(Now())
    {
      hide Join, Flags;
      var colors: seq<string> := [];
      if fgColor.Some? { colors := colors + [fgColor.value]; }
      if bgColor.Some? { colors := colors + [bgColor.value]; }
      assert colors == Colors(Now());
      var codes := FlagCodes(colors);
      result := if |codes| > 0 then [ESC, '['] + Join(codes, ';') + "m" else "";
      result := result + if activeHyperlink.Some? then FormatLink(activeHyperlink.value) else "";
    }

    /** `getActiveCodes()` as the codes a line is made of. */
    method GetActiveAtoms() returns (codes: Line)
      ensures codes == ActiveAtoms(Now())
    {
      codes := ActiveAtoms(
        Style(Attributes(bold, dim, italic, underline, blink, inverse, hidden, strikethrough),
              fgColor, bgColor, activeHyperlink));
    }

    method GetLineEndReset() returns (codes: Line)
      ensures codes == ResetAtoms(Now())
    {
      codes := [];
      if underline { codes := codes + [Code(UNDERLINE_OFF)]; }
      if activeHyperlink.Some? { codes := codes + [Code(FormatClose(activeHyperlink.value.terminator))]; }
    }

    /** `updateTrackerFromText`, on a string. */
    method UpdateFromString(text: string)
      modifies this
      ensures Now() == UpdateFromText(old(Now()), text, 0)
    {
      hide AnsiTracker.Process, ExtractAnsiCode;
      var i := 0;
      while i < |text|
        invariant UpdateFromText(old(Now()), text, 0) == UpdateFromText(Now(), text, i)
        decreases |text| - i
      {
        var code := ReadAnsiCode(text, i);
        if code.Some? {
          Process(code.value);
          i := i + |code.value|;
        } else {
          i := i + 1;
        }
      }
    }

    /** `updateTrackerFromText`, on a line of atoms. */
    method UpdateFromLine(line: Line)
      modifies this
      ensures Now() == StyleAfter(old(Now()), line)
    {
      hide AnsiTracker.Process;
      assert line[0..] == line;
      for i := 0 to |line|
        invariant StyleAfter(old(Now()), line) == StyleAfter(Now(), line[i..])
      {
        assert line[i..][0] == line[i] && line[i..][1..] == line[i + 1..];
        if line[i].Code? { Process(line[i].code); }
      }
      assert line[|line|..] == [];
    }
  }

  method VisibleWidth(line: Line) returns (width: nat)
    ensures width == Width(line)
  {
    width := 0;
    assert line[0..] == line;
    for i := 0 to |line|
      invariant width + Width(line[i..]) == Width(line)
    {
      assert line[i..][1..] == line[i + 1..];
      if line[i].Glyph? { width := width + line[i].width; }
    }
    assert line[|line|..] == [];
  }

  method SplitIntoTokensWithAnsi(line: Line) returns (tokens: seq<Line>)
    ensures tokens == SplitIntoTokens(line)
  {
    tokens := [];
    var current: Line := [];
    var pendingAnsi: Line := [];
    var inSpace := false;
    assert line[0..] == line;
    for i := 0 to |line|
      invariant SplitAll(NO_TOKENS, line) == SplitAll(Splitter(tokens, current, inSpace, pendingAnsi), line[i..])
    {
      assert line[i..][0] == line[i] && line[i..][1..] == line[i + 1..];
      if line[i].Code? {
        pendingAnsi := pendingAnsi + [line[i]];
      } else if line[i].kind.Cjk? {
        if current != [] { tokens := tokens + [current]; current := []; }
        tokens := tokens + [pendingAnsi + [line[i]]];
        pendingAnsi := [];
      } else {
        var isSpace := line[i].kind.Space?;
        if current != [] && inSpace != isSpace { tokens := tokens + [current]; current := []; }
        current := current + pendingAnsi + [line[i]];
        pendingAnsi := [];
        inSpace := isSpace;
      }
    }
    assert line[|line|..] == [];
    if pendingAnsi != [] {
      if current != [] {
        current := current + pendingAnsi;
      } else if |tokens| > 0 {
        var n := |tokens| - 1;
        assert tokens[n := tokens[n] + pendingAnsi] == tokens[..n] + [tokens[n] + pendingAnsi];
        tokens := tokens[n := tokens[n] + pendingAnsi];
        return;
      } else {
        assert [] + pendingAnsi == pendingAnsi;
        current := pendingAnsi;
      }
    }
    if current != [] { tokens := tokens + [current]; }
  }

  /** Breaks `word` grapheme by grapheme, moving the tracker along with its codes. */
  method BreakWord(word: Line, limit: nat, tracker: AnsiCodeTracker) returns (lines: seq<Line>)
    requires word != []
    modifies tracker
    ensures var b := BreakLongWord(word, limit, old(tracker.Now()));
      lines == b.lines + [b.current] && tracker.Now() == b.style
  {
    hide AnsiTracker.Process, ResetAtoms, ActiveAtoms;
    lines := [];
    var currentLine := tracker.GetActiveAtoms();
    var currentWidth: nat := 0;
    ghost var start := Breaking([], currentLine, 0, tracker.Now());
    assert word[0..] == word;
    for i := 0 to |word|
      invariant BreakAll(start, word, limit) == BreakAll(Breaking(lines, currentLine, currentWidth, tracker.Now()), word[i..], limit)
      invariant i > 0 ==> currentLine != []
    {
      assert word[i..][0] == word[i] && word[i..][1..] == word[i + 1..];
      if word[i].Code? {
        currentLine := currentLine + [word[i]];
        tracker.Process(word[i].code);
      } else {
        if currentWidth + word[i].width > limit {
          var reset := tracker.GetLineEndReset();
          lines := lines + [currentLine + reset];
          currentLine := tracker.GetActiveAtoms();
          currentWidth := 0;
        }
        currentLine := currentLine + [word[i]];
        currentWidth := currentWidth + word[i].width;
      }
    }
    assert word[|word|..] == [];
    lines := lines + [currentLine];
  }

  method Trim(line: Line) returns (result: Line)
    ensures result == TrimEnd(line)
  {
    result := line;
    while result != [] && result[|result| - 1].IsBlank()
      invariant TrimEnd(result) == TrimEnd(line)
    {
      result := result[..|result| - 1];
    }
  }

  method WrapLine(line: Line, limit: nat) returns (wrapped: seq<Line>)
    ensures wrapped == WrapSingleLine(line, limit)
  {
    hide SplitIntoTokens, WrapToken;
    var visibleLength := VisibleWidth(line);
    if visibleLength <= limit { return [line]; }
    wrapped := [];
    var tracker := new AnsiCodeTracker();
    var tokens := SplitIntoTokensWithAnsi(line);
    var currentLine: Line := [];
    var currentVisibleLength: nat := 0;
    assert tokens[0..] == tokens;
    for i := 0 to |tokens|
      invariant fresh(tracker)
      invariant WrapAll(NO_LINES, tokens, limit)
             == WrapAll(Wrapping(wrapped, currentLine, currentVisibleLength, tracker.Now()), tokens[i..], limit)
    {
      assert tokens[i..][0] == tokens[i] && tokens[i..][1..] == tokens[i + 1..];
      wrapped, currentLine, currentVisibleLength :=
        PlaceToken(wrapped, currentLine, currentVisibleLength, tracker, tokens[i], limit);
    }
    assert tokens[|tokens|..] == [];
    if currentLine != [] { wrapped := wrapped + [currentLine]; }
    if wrapped == [] { return [[]]; }
    wrapped := TrimLines(wrapped);
  }

  method TrimLines(lines: seq<Line>) returns (result: seq<Line>)
    ensures result == TrimAll(lines)
  {
    result := [];
    for i := 0 to |lines|
      invariant |result| == i && forall k :: 0 <= k < i ==> result[k] == TrimEnd(lines[k])
    {
      var trimmed := Trim(lines[i]);
      result := result + [trimmed];
    }
  }

  /** The body of the token loop. */
  method PlaceToken(wrapped: seq<Line>, currentLine: Line, currentLength: nat, tracker: AnsiCodeTracker, token: Line, limit: nat)
    returns (lines: seq<Line>, current: Line, length: nat)
    modifies tracker
    ensures Wrapping(lines, current, length, tracker.Now())
         == WrapToken(Wrapping(wrapped, currentLine, currentLength, old(tracker.Now())), token, limit)
  {
    hide ResetAtoms, ActiveAtoms, BreakAll, StyleAfter, TrimEnd, Width;
    lines, current, length := wrapped, currentLine, currentLength;
    var tokenLength := VisibleWidth(token);
    var isWhitespace := AllBlank(token);
    if tokenLength > limit && !isWhitespace {
      if current != [] {
        var reset := tracker.GetLineEndReset();
        lines := lines + [current + reset];
      }
      var broken := BreakWord(token, limit, tracker);
      var last := |broken| - 1;
      lines := lines + broken[..last];
      current := broken[last];
      length := VisibleWidth(current);
      return;
    }
    if length + tokenLength > limit && length > 0 {
      var trimmed := Trim(current);
      var reset := tracker.GetLineEndReset();
      lines := lines + [trimmed + reset];
      var codes := tracker.GetActiveAtoms();
      if isWhitespace {
        current, length := codes, 0;
      } else {
        current, length := codes + token, tokenLength;
      }
    } else {
      current, length := current + token, length + tokenLength;
    }
    tracker.UpdateFromLine(token);
  }

  /** `wrapTextWithAnsi`, on the input split at newlines. */
  method WrapTextWithAnsi(text: seq<Line>, limit: nat) returns (result: seq<Line>)
    ensures result == WrapText(text, limit)
    ensures (forall i :: 0 <= i < |text| ==> Readable(text[i])) ==> SeeLines(result) == SeeText(CLEAR, text)
  {
    hide WrapSingleLine, ActiveAtoms, StyleAfter, See, SeeLines, SeeText;
    if forall i :: 0 <= i < |text| ==> Readable(text[i]) { WrapPreservesStyle(text, limit); }
    result := [];
    var tracker := new AnsiCodeTracker();
    assert text[0..] == text;
    for i := 0 to |text|
      invariant fresh(tracker)
      invariant WrapFrom([], CLEAR, text, limit) == WrapFrom(result, tracker.Now(), text[i..], limit)
    {
      assert text[i..][0] == text[i] && text[i..][1..] == text[i + 1..];
      var prefix: Line := [];
      if result != [] { prefix := tracker.GetActiveAtoms(); }
      var wrapped := WrapLine(prefix + text[i], limit);
      result := result + wrapped;
      tracker.UpdateFromLine(text[i]);
    }
    assert text[|text|..] == [];
  }
}

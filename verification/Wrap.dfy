/**
 * Word wrapping of styled text. A line is a sequence of atoms: an escape code, which takes no column,
 * or a grapheme, whose width and class are given.
 */
module Wrap {
  import opened AnsiTracker

  /** `Space` is the plain space; `Blank` any other white space; `Cjk` a character that may be broken around. */
  datatype Kind = Space | Blank | Cjk | Other

  datatype Atom = Code(code: string) | Glyph(text: string, width: nat, kind: Kind) {
    function Columns(): nat {
      if Glyph? then width else 0
    }

    predicate IsBlank() {
      Glyph? && (kind.Space? || kind.Blank?)
    }
  }

  type Line = seq<Atom>

  function Width(line: Line): nat {
    if line == [] then 0 else line[0].Columns() + Width(line[1..])
  }

  /** `token.trim() === ""` for a token that is not empty. */
  predicate AllBlank(line: Line) {
    forall i :: 0 <= i < |line| ==> line[i].IsBlank()
  }

  function TrimEnd(line: Line): Line {
    if line != [] && line[|line| - 1].IsBlank() then TrimEnd(line[..|line| - 1]) else line
  }

  /* ---------- Codes in lines ---------- */

  /** `getActiveCodes()`, split into its codes. */
  function ActiveAtoms(s: Style): Line {
    (if SgrText(s) != "" then [Code(SgrText(s))] else []) + (if s.link.Some? then [Code(LinkText(s))] else [])
  }

  const UNDERLINE_OFF := "\U{1B}[24m"

  /** `getLineEndReset()`, split into its codes. */
  function ResetAtoms(s: Style): Line {
    (if s.on.underline then [Code(UNDERLINE_OFF)] else [])
    + (if s.link.Some? then [Code(FormatClose(s.link.value.terminator))] else [])
  }

  function StyleAfter(s: Style, line: Line): Style
    decreases |line|
  {
    if line == [] then s
    else StyleAfter(if line[0].Code? then Process(s, line[0].code) else s, line[1..])
  }

  /* ---------- Tokens ---------- */

  /** The tokens so far, the one being collected, and the codes waiting for the next grapheme. */
  datatype Splitter = Splitter(tokens: seq<Line>, current: Line, inSpace: bool, pending: Line)

  function Flush(s: Splitter): Splitter {
    if s.current == [] then s else s.(tokens := s.tokens + [s.current], current := [])
  }

  function SplitAtom(s: Splitter, a: Atom): Splitter {
    match a
    case Code(_) => s.(pending := s.pending + [a])
    case Glyph(_, _, kind) =>
      if kind.Cjk? then
        var f := Flush(s);
        f.(tokens := f.tokens + [s.pending + [a]], pending := [])
      else
        var f := if s.current != [] && s.inSpace != kind.Space? then Flush(s) else s;
        f.(current := f.current + s.pending + [a], inSpace := kind.Space?, pending := [])
  }

  function SplitAll(s: Splitter, line: Line): Splitter
    decreases |line|
  {
    if line == [] then s else SplitAll(SplitAtom(s, line[0]), line[1..])
  }

  /** Codes still waiting at the end go to the last token. */
  function Tokens(s: Splitter): seq<Line> {
    if s.pending == [] then Flush(s).tokens
    else if s.current != [] || s.tokens == [] then s.tokens + [s.current + s.pending]
    else s.tokens[..|s.tokens| - 1] + [s.tokens[|s.tokens| - 1] + s.pending]
  }

  const NO_TOKENS := Splitter([], [], false, [])

  function SplitIntoTokens(line: Line): seq<Line> {
    Tokens(SplitAll(NO_TOKENS, line))
  }

  /* ---------- Breaking a long word ---------- */

  datatype Breaking = Breaking(lines: seq<Line>, current: Line, width: nat, style: Style)

  function BreakAtom(b: Breaking, a: Atom, limit: nat): Breaking {
    if a.Code? then b.(current := b.current + [a], style := Process(b.style, a.code))
    else if b.width + a.width > limit then
      Breaking(b.lines + [b.current + ResetAtoms(b.style)], ActiveAtoms(b.style) + [a], a.width, b.style)
    else b.(current := b.current + [a], width := b.width + a.width)
  }

  function BreakAll(b: Breaking, word: Line, limit: nat): Breaking
    decreases |word|
  {
    if word == [] then b else BreakAll(BreakAtom(b, word[0], limit), word[1..], limit)
  }

  function BreakLongWord(word: Line, limit: nat, style: Style): Breaking {
    BreakAll(Breaking([], ActiveAtoms(style), 0, style), word, limit)
  }

  /* ---------- Wrapping one line ---------- */

  /** The lines finished, the one under way with its width, and the style at its end. */
  datatype Wrapping = Wrapping(lines: seq<Line>, current: Line, length: nat, style: Style)

  function WrapToken(w: Wrapping, token: Line, limit: nat): Wrapping {
    var blank := AllBlank(token);
    if Width(token) > limit && !blank then
      var b := BreakLongWord(token, limit, w.style);
      var lines := if w.current == [] then w.lines else w.lines + [w.current + ResetAtoms(w.style)];
      Wrapping(lines + b.lines, b.current, Width(b.current), b.style)
    else
      var after := StyleAfter(w.style, token);
      if w.length + Width(token) > limit && w.length > 0 then
        var lines := w.lines + [TrimEnd(w.current) + ResetAtoms(w.style)];
        if blank then Wrapping(lines, ActiveAtoms(w.style), 0, after)
        else Wrapping(lines, ActiveAtoms(w.style) + token, Width(token), after)
      else Wrapping(w.lines, w.current + token, w.length + Width(token), after)
  }

  function WrapAll(w: Wrapping, tokens: seq<Line>, limit: nat): Wrapping
    decreases |tokens|
  {
    if tokens == [] then w else WrapAll(WrapToken(w, tokens[0], limit), tokens[1..], limit)
  }

  function TrimAll(lines: seq<Line>): (r: seq<Line>)
    ensures |r| == |lines|
  {
    seq(|lines|, i requires 0 <= i < |lines| => TrimEnd(lines[i]))
  }

  function Lines(w: Wrapping): seq<Line> {
    var all := if w.current == [] then w.lines else w.lines + [w.current];
    if all == [] then [[]] else TrimAll(all)
  }

  const NO_LINES := Wrapping([], [], 0, CLEAR)

  function WrapSingleLine(line: Line, limit: nat): seq<Line> {
    if Width(line) <= limit then [line]
    else Lines(WrapAll(NO_LINES, SplitIntoTokens(line), limit))
  }

  /* ---------- Wrapping a text ---------- */

  /** `text` is the input split at newlines; `style` is the style at the end of what has been wrapped into `done`. */
  function WrapFrom(done: seq<Line>, style: Style, text: seq<Line>, limit: nat): seq<Line>
    decreases |text|
  {
    if text == [] then done
    else
      var prefix := if done == [] then [] else ActiveAtoms(style);
      WrapFrom(done + WrapSingleLine(prefix + text[0], limit), StyleAfter(style, text[0]), text[1..], limit)
  }

  function WrapText(text: seq<Line>, limit: nat): seq<Line> {
    WrapFrom([], CLEAR, text, limit)
  }
}

/**
 * SGR and hyperlink state: how escape codes are recognised, what they do to the state, and the codes
 * that switch a given state on again.
 */
module AnsiTracker {
  import opened Wrappers
  import opened Strings

  const ESC: char := '\U{1B}'
  const BEL: char := '\U{07}'
  const ST := "\U{1B}\\"

  /* ---------- Recognising a code ---------- */

  predicate EndsCsi(c: char) {
    c == 'm' || c == 'G' || c == 'K' || c == 'H' || c == 'J'
  }

  /** The end of the CSI code being read at `j`. */
  function CsiEnd(s: string, j: nat): (r: Option<nat>)
    ensures r.Some? ==> j < r.value <= |s| && EndsCsi(s[r.value - 1]) && forall k :: j <= k < r.value - 1 ==> !EndsCsi(s[k])
    ensures r.None? ==> forall k :: j <= k < |s| ==> !EndsCsi(s[k])
    decreases |s| - j
  {
    if j >= |s| then None else if EndsCsi(s[j]) then Some(j + 1) else CsiEnd(s, j + 1)
  }

  predicate TerminatesAt(s: string, j: nat) {
    j < |s| && (s[j] == BEL || (s[j] == ESC && j + 1 < |s| && s[j + 1] == '\\'))
  }

  /** The end of the OSC or APC code being read at `j`: after BEL, or after ESC \. */
  function OscEnd(s: string, j: nat): (r: Option<nat>)
    ensures r.Some? ==> j < r.value <= |s|
    decreases |s| - j
  {
    if j >= |s| then None
    else if s[j] == BEL then Some(j + 1)
    else if TerminatesAt(s, j) then Some(j + 2)
    else OscEnd(s, j + 1)
  }

  /** The escape code at `pos`, if a complete one of a known kind starts there. */
  function ExtractAnsiCode(s: string, pos: nat): (r: Option<string>)
    ensures r.Some? ==> |r.value| >= 3 && pos + |r.value| <= |s| && r.value == s[pos..pos + |r.value|]
  {
    if pos + 1 >= |s| || s[pos] != ESC then None
    else
      var end :=
        if s[pos + 1] == '[' then CsiEnd(s, pos + 2)
        else if s[pos + 1] == ']' || s[pos + 1] == '_' then OscEnd(s, pos + 2)
        else None;
      if end.Some? then Some(s[pos..end.value]) else None
  }

  /** One whole code and nothing else. */
  predicate IsCode(code: string) {
    ExtractAnsiCode(code, 0) == Some(code)
  }

  /* ---------- The state ---------- */

  datatype Link = Link(params: string, url: string, terminator: string)

  datatype Attributes = Attributes(
    bold: bool, dim: bool, italic: bool, underline: bool,
    blink: bool, inverse: bool, hidden: bool, strikethrough: bool)

  const PLAIN := Attributes(false, false, false, false, false, false, false, false)

  /** The colours are kept as the codes that set them, such as "31" or "38;5;240". */
  datatype Style = Style(on: Attributes, fg: Option<string>, bg: Option<string>, link: Option<Link>)

  const CLEAR := Style(PLAIN, None, None, None)

  /** SGR 0 leaves the hyperlink alone. */
  function Reset(s: Style): Style {
    CLEAR.(link := s.link)
  }

  /* ---------- Hyperlinks ---------- */

  datatype LinkCode = NoLink | Closes | Opens(link: Link)

  const LINK_START := "\U{1B}]8;"

  function ParseLink(code: string): LinkCode {
    if !(LINK_START <= code) then NoLink
    else
      var bel := code[|code| - 1] == BEL;
      var body := if bel then code[4..|code| - 1] else if |code| >= 6 then code[4..|code| - 2] else "";
      var i := IndexOf(body, ";");
      if i.None? then NoLink
      else
        var url := body[i.value + 1..];
        if url == "" then Closes else Opens(Link(body[..i.value], url, if bel then [BEL] else ST))
  }

  function FormatLink(l: Link): string {
    LINK_START + l.params + ";" + l.url + l.terminator
  }

  function FormatClose(terminator: string): string {
    LINK_START + ";" + terminator
  }

  /* ---------- SGR parameters ---------- */

  predicate ParamChar(c: char) {
    IsDigit(c) || c == ';'
  }

  function ParamsEnd(s: string, i: nat): (e: nat)
    requires i <= |s|
    ensures i <= e <= |s| && (forall k :: i <= k < e ==> ParamChar(s[k])) && (e < |s| ==> !ParamChar(s[e]))
    decreases |s| - i
  {
    if i < |s| && ParamChar(s[i]) then ParamsEnd(s, i + 1) else i
  }

  /** The first place, from `i` on, where ESC [ is followed by parameters and `m`: those parameters. */
  function FindSgr(s: string, i: nat): Option<string>
    decreases |s| - i
  {
    if i + 2 > |s| then None
    else
      var e := ParamsEnd(s, i + 2);
      if s[i] == ESC && s[i + 1] == '[' && e < |s| && s[e] == 'm' then Some(s[i + 2..e])
      else FindSgr(s, i + 1)
  }

  function Digit(d: nat): string
    requires d < 10
  {
    [('0' as int + d) as char]
  }

  /** `String(code)` of a number below 1000. */
  function Show(n: nat): string
    requires n < 1000
  {
    if n < 10 then Digit(n)
    else if n < 100 then Digit(n / 10) + Digit(n % 10)
    else Digit(n / 100) + Digit(n / 10 % 10) + Digit(n % 10)
  }

  predicate ForegroundCode(n: nat) {
    30 <= n <= 37 || 90 <= n <= 97
  }

  predicate BackgroundCode(n: nat) {
    40 <= n <= 47 || 100 <= n <= 107
  }

  /** Parameters that switch an attribute on or off. */
  function Switch(s: Attributes, n: nat): Attributes {
    if n == 1 then s.(bold := true)
    else if n == 2 then s.(dim := true)
    else if n == 3 then s.(italic := true)
    else if n == 4 then s.(underline := true)
    else if n == 5 then s.(blink := true)
    else if n == 7 then s.(inverse := true)
    else if n == 8 then s.(hidden := true)
    else if n == 9 then s.(strikethrough := true)
    else if n == 21 then s.(bold := false)
    else if n == 22 then s.(bold := false, dim := false)
    else if n == 23 then s.(italic := false)
    else if n == 24 then s.(underline := false)
    else if n == 25 then s.(blink := false)
    else if n == 27 then s.(inverse := false)
    else if n == 28 then s.(hidden := false)
    else if n == 29 then s.(strikethrough := false)
    else s
  }

  /** A parameter that stands on its own. */
  function Single(s: Style, code: Option<nat>): Style {
    match code
    case None => s
    case Some(n) =>
      if n == 0 then Reset(s)
      else if n == 39 then s.(fg := None)
      else if n == 49 then s.(bg := None)
      else if ForegroundCode(n) then s.(fg := Some(Show(n)))
      else if BackgroundCode(n) then s.(bg := Some(Show(n)))
      else s.(on := Switch(s.on, n))
  }

  /** How many parameters the colour at the head of `parts` takes: 3 for 256 colours, 5 for RGB, 1 otherwise. */
  function ColorLength(parts: seq<string>): (n: nat)
    requires parts != []
    ensures 1 <= n <= |parts|
  {
    var code := ParseInt(parts[0]);
    if code != Some(38) && code != Some(48) then 1
    else if |parts| > 2 && parts[1] == "5" then 3
    else if |parts| > 4 && parts[1] == "2" then 5
    else 1
  }

  function SetColor(s: Style, code: Option<nat>, color: string): Style {
    if code == Some(38) then s.(fg := Some(color)) else s.(bg := Some(color))
  }

  function ProcessParams(s: Style, parts: seq<string>): Style
    decreases |parts|
  {
    if parts == [] then s
    else
      var n := ColorLength(parts);
      var code := ParseInt(parts[0]);
      ProcessParams(if n > 1 then SetColor(s, code, Join(parts[..n], ';')) else Single(s, code), parts[n..])
  }

  /** What one escape code does to the state. */
  function Process(s: Style, code: string): Style {
    var link := ParseLink(code);
    if link.Closes? then s.(link := None)
    else if link.Opens? then s.(link := Some(link.link))
    else if code == "" || code[|code| - 1] != 'm' then s
    else
      match FindSgr(code, 0)
      case None => s
      case Some(params) =>
        if params == "" || params == "0" then Reset(s) else ProcessParams(s, Split(params, ';'))
  }

  /** Feed every code found in `text`, from position `i` on. */
  function UpdateFromText(s: Style, text: string, i: nat): Style
    decreases |text| - i
  {
    if i >= |text| then s
    else
      match ExtractAnsiCode(text, i)
      case Some(code) => UpdateFromText(Process(s, code), text, i + |code|)
      case None => UpdateFromText(s, text, i + 1)
  }

  /* ---------- Printing the state ---------- */

  function On(flag: bool, code: string, rest: seq<string>): seq<string> {
    if flag then [code] + rest else rest
  }

  /** The codes of the flags that are on, followed by `rest`. */
  function Flags(s: Style, rest: seq<string>): seq<string> {
    On(s.on.bold, "1", On(s.on.dim, "2", On(s.on.italic, "3", On(s.on.underline, "4",
      On(s.on.blink, "5", On(s.on.inverse, "7", On(s.on.hidden, "8", On(s.on.strikethrough, "9", rest))))))))
  }

  function Colors(s: Style): seq<string> {
    (if s.fg.Some? then [s.fg.value] else []) + (if s.bg.Some? then [s.bg.value] else [])
  }

  function SgrCodes(s: Style): seq<string> {
    Flags(s, Colors(s))
  }

  function SgrText(s: Style): string {
    var codes := SgrCodes(s);
    if codes == [] then "" else [ESC, '['] + Join(codes, ';') + "m"
  }

  function LinkText(s: Style): string {
    if s.link.Some? then FormatLink(s.link.value) else ""
  }

  /** The codes that turn a cleared state into `s`. */
  function ActiveCodes(s: Style): string {
    SgrText(s) + LinkText(s)
  }

  predicate HasActiveCodes(s: Style) {
    || s.on.bold || s.on.dim || s.on.italic || s.on.underline
    || s.on.blink || s.on.inverse || s.on.hidden || s.on.strikethrough
    || s.fg != None || s.bg != None || s.link != None
  }
}

/**
 * The input tokeniser: when an escape sequence is complete, how a buffer splits into sequences, and
 * what one piece of input does to the buffer's state.
 */
module StdinSpec {
  import opened Wrappers
  import opened Strings

  const ESC: char := '\U{1B}'
  const BEL: char := '\U{07}'
  const PASTE_START := "\U{1B}[200~"
  const PASTE_END := "\U{1B}[201~"

  /* ---------- Complete sequences ---------- */

  datatype Status = Complete | Incomplete | NotEscape

  predicate EndsWithST(data: string) {
    |data| >= 2 && data[|data| - 2] == ESC && data[|data| - 1] == '\\'
  }

  /** `<B;X;Y` followed by M or m, all three numbers of at least one digit. */
  predicate IsSgrMouse(payload: string) {
    && |payload| >= 2
    && payload[0] == '<'
    && (payload[|payload| - 1] == 'M' || payload[|payload| - 1] == 'm')
    && var parts := Split(payload[1..|payload| - 1], ';');
      |parts| == 3 && forall i :: 0 <= i < 3 ==> parts[i] != "" && AllDigits(parts[i])
  }

  /** `data` starts with ESC [. */
  function CsiStatus(data: string): Status {
    if |data| < 3 then Incomplete
    else
      var last := data[|data| - 1];
      if 0x40 <= last as int <= 0x7e then
        if data[2] == '<' then (if IsSgrMouse(data[2..]) then Complete else Incomplete)
        else Complete
      else Incomplete
  }

  function IsCompleteSequence(data: string): Status {
    if data == "" || data[0] != ESC then NotEscape
    else if |data| == 1 then Incomplete
    else if data[1] == '[' then
      if |data| >= 3 && data[2] == 'M' then (if |data| >= 6 then Complete else Incomplete)
      else CsiStatus(data)
    else if data[1] == ']' then
      if EndsWithST(data) || data[|data| - 1] == BEL then Complete else Incomplete
    else if data[1] == 'P' || data[1] == '_' then
      if EndsWithST(data) then Complete else Incomplete
    else if data[1] == 'O' then
      if |data| >= 3 then Complete else Incomplete
    else Complete
  }

  /** The characters that begin a multi-character sequence after ESC. */
  predicate Introduces(c: char) {
    c == '[' || c == ']' || c == 'O' || c == 'P' || c == '_'
  }

  /* ---------- Splitting a buffer ---------- */

  /** The length, at least `n`, of the shortest prefix of `s` that is complete. */
  function ScanEnd(s: string, n: nat): (r: Option<nat>)
    ensures r.Some? ==>
      && n <= r.value <= |s|
      && IsCompleteSequence(s[..r.value]) != Incomplete
      && forall k :: n <= k < r.value ==> IsCompleteSequence(s[..k]) == Incomplete
    ensures r.None? ==> forall k :: n <= k <= |s| ==> IsCompleteSequence(s[..k]) == Incomplete
    decreases |s| - n
  {
    if n > |s| then None
    else if IsCompleteSequence(s[..n]) != Incomplete then Some(n)
    else ScanEnd(s, n + 1)
  }

  /** The length of the first sequence of `s`, if `s` holds all of it. */
  function TokenLength(s: string): (r: Option<nat>)
    requires s != ""
    ensures r.Some? ==> 0 < r.value <= |s|
  {
    if s[0] != ESC then Some(1)
    else
      var end := ScanEnd(s, 1);
      if end == Some(2) && s[1] == ESC && |s| > 2 && Introduces(s[2]) then Some(1) else end
  }

  datatype Extracted = Extracted(sequences: seq<string>, remainder: string)

  function Extract(buffer: string): Extracted
    decreases |buffer|
  {
    if buffer == "" then Extracted([], "")
    else
      match TokenLength(buffer)
      case None => Extracted([], buffer)
      case Some(n) =>
        var rest := Extract(buffer[n..]);
        Extracted([buffer[..n]] + rest.sequences, rest.remainder)
  }

  /* ---------- Events ---------- */

  datatype Event = Data(sequence: string) | Paste(content: string)

  /** `ESC [ cp (: digits*)? (: digits+)? u`, for a code point of at least 32. */
  function KittyPrintable(s: string): Option<nat> {
    if |s| < 4 || s[0] != ESC || s[1] != '[' || s[|s| - 1] != 'u' then None
    else
      var parts := Split(s[2..|s| - 1], ':');
      if parts[0] == "" || |parts| > 3 || (exists i :: 0 <= i < |parts| && !AllDigits(parts[i])) then None
      else if |parts| == 3 && parts[2] == "" then None
      else
        var cp := DigitsValue(parts[0]);
        if cp >= 32 then Some(cp) else None
  }

  datatype Emitted = Emitted(pending: Option<nat>, events: seq<Event>)

  /** A single character equal to the code point just reported by the keyboard protocol is swallowed. */
  function EmitOne(pending: Option<nat>, s: string): Emitted {
    if |s| == 1 && pending == Some(s[0] as nat) then Emitted(None, [])
    else Emitted(KittyPrintable(s), [Data(s)])
  }

  function EmitAll(pending: Option<nat>, ss: seq<string>): Emitted
    decreases |ss|
  {
    if ss == [] then Emitted(pending, [])
    else
      var first := EmitOne(pending, ss[0]);
      var rest := EmitAll(first.pending, ss[1..]);
      Emitted(rest.pending, first.events + rest.events)
  }

  /* ---------- Feeding input ---------- */

  datatype State = State(buffer: string, pasteMode: bool, pasteBuffer: string, pending: Option<nat>, timer: bool) {
    /** Outside a paste nothing is pasted; inside one nothing else is buffered or pending. */
    predicate Valid() {
      && (pasteMode ==> buffer == "" && pending == None)
      && (!pasteMode ==> pasteBuffer == "")
      && (pending.Some? ==> pending.value >= 32)
    }
  }

  const IDLE := State("", false, "", None, false)

  datatype Result = Result(state: State, events: seq<Event>)

  /** All text so far outside a paste is `t`. */
  function Text(t: string, pending: Option<nat>): (r: Result)
    decreases |t|
  {
    var start := IndexOf(t, PASTE_START);
    match start
    case Some(k) =>
      assert |t[k + 6..]| < |t|;
      var before := EmitAll(pending, Extract(t[..k]).sequences);
      var pasted := Content(t[k + 6..]);
      Result(pasted.state, before.events + pasted.events)
    case None =>
      var x := Extract(t);
      var e := EmitAll(pending, x.sequences);
      Result(State(x.remainder, false, "", e.pending, x.remainder != ""), e.events)
  }

  /** All text so far inside a paste is `c`. */
  function Content(c: string): (r: Result)
    decreases |c|
  {
    var end := IndexOf(c, PASTE_END);
    match end
    case None => Result(State("", true, c, None, false), [])
    case Some(e) =>
      assert |c[e + 6..]| < |c|;
      var rest := Text(c[e + 6..], None);
      Result(rest.state, [Paste(c[..e])] + rest.events)
  }

  function Process(s: State, str: string): Result {
    if str == "" && s.buffer == "" then
      var e := EmitOne(s.pending, "");
      Result(s.(pending := e.pending, timer := false), e.events)
    else if s.pasteMode then Content(s.pasteBuffer + s.buffer + str)
    else Text(s.buffer + str, s.pending)
  }

  /** `flush`, as the timeout runs it: the unfinished sequence is given up and reported as it is. */
  function Flush(s: State): Result {
    if s.buffer == "" then Result(s.(timer := false), [])
    else
      var e := EmitOne(None, s.buffer);
      Result(s.(buffer := "", pending := e.pending, timer := false), e.events)
  }
}

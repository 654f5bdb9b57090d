/**
 * A terminal as the renderer sees it: scrollback and screen as one list of rows, the index of the
 * first screen row, the cursor, and the control operations the renderer writes.
 */
module Terminal {
  import opened Wrappers

  /** A rendered line: its text, and the number of columns that text occupies. */
  datatype Line = Line(text: string, width: nat)

  const EMPTY := Line("", 0)

  /** What one terminal row holds. A row that was overprinted or overfilled is `Garbled`. */
  datatype Row = Shows(line: Line) | Garbled

  const BLANK := Shows(EMPTY)

  datatype Op =
    | CarriageReturn
    | NewLine            // CR LF
    | Up(n: nat)         // CSI n A
    | Down(n: nat)       // CSI n B
    | ToColumn(n: nat)   // CSI n G, counted from 1
    | ClearLine          // CSI 2 K
    | EraseScreen        // CSI 2 J
    | Home               // CSI H
    | EraseScrollback    // CSI 3 J
    | Print(line: Line)

  /**
   * `rows[..top]` is the scrollback and `rows[top..]` the screen. The cursor's `row` is counted from the
   * first row of all, its `col` from 0; behind a line that fills its row it is `width`.
   */
  datatype Screen = Screen(rows: seq<Row>, top: nat, width: nat, height: nat, row: nat, col: nat) {

    ghost predicate Valid() {
      && height > 0
      && |rows| == top + height
      && top <= row < top + height
    }

    /** The rows show `lines` from the very first row on, and nothing below them. */
    ghost predicate Displays(lines: seq<Line>) {
      && |lines| <= |rows|
      && forall i :: 0 <= i < |rows| ==> rows[i] == if i < |lines| then Shows(lines[i]) else BLANK
    }
  }

  function BlankRows(n: nat): (rows: seq<Row>)
    ensures |rows| == n
    ensures forall i :: 0 <= i < n ==> rows[i] == BLANK
  {
    seq(n, _ => BLANK)
  }

  function BlankScreen(width: nat, height: nat): Screen {
    Screen(BlankRows(height), 0, width, height, 0, 0)
  }

  /** Vertical moves stop at the screen's edges; only `NewLine` on the last row scrolls. */
  function Apply(s: Screen, op: Op): (r: Screen)
    requires s.Valid()
    ensures r.Valid()
    ensures r.width == s.width && r.height == s.height
  {
    match op
    case CarriageReturn => s.(col := 0)
    case NewLine =>
      if s.row == s.top + s.height - 1 then
        s.(rows := s.rows + [BLANK], top := s.top + 1, row := s.row + 1, col := 0)
      else
        s.(row := s.row + 1, col := 0)
    case Up(n) => s.(row := Max(s.top, s.row - n))
    case Down(n) => s.(row := Min(s.top + s.height - 1, s.row + n))
    case ToColumn(n) => s.(col := Max(0, Min(n, s.width) - 1))
    case ClearLine => s.(rows := s.rows[s.row := BLANK])
    case EraseScreen => s.(rows := s.rows[..s.top] + BlankRows(s.height))
    case Home => s.(row := s.top, col := 0)
    case EraseScrollback => s.(rows := s.rows[s.top..], top := 0, row := s.row - s.top)
    case Print(line) =>
      var clean := s.col == 0 && s.rows[s.row] == BLANK && line.width <= s.width;
      s.(rows := s.rows[s.row := if clean then Shows(line) else Garbled], col := Min(s.col + line.width, s.width))
  }

  /** The screen after the first `n` operations of `ops`. */
  function RunPrefix(s: Screen, ops: seq<Op>, n: nat): (r: Screen)
    requires s.Valid() && n <= |ops|
    ensures r.Valid()
    ensures r.width == s.width && r.height == s.height
  {
    if n == 0 then s else Apply(RunPrefix(s, ops, n - 1), ops[n - 1])
  }

  function Run(s: Screen, ops: seq<Op>): (r: Screen)
    requires s.Valid()
    ensures r.Valid()
    ensures r.width == s.width && r.height == s.height
  {
    RunPrefix(s, ops, |ops|)
  }

  lemma {:induction false} RunPrefixOnly(s: Screen, a: seq<Op>, b: seq<Op>, n: nat)
    requires s.Valid() && n <= |a|
    ensures RunPrefix(s, a + b, n) == RunPrefix(s, a, n)
  {
    if n > 0 { RunPrefixOnly(s, a, b, n - 1); }
  }

  lemma {:induction false} RunPrefixConcat(s: Screen, a: seq<Op>, b: seq<Op>, n: nat)
    requires s.Valid() && n <= |b|
    ensures RunPrefix(s, a + b, |a| + n) == RunPrefix(Run(s, a), b, n)
  {
    hide Apply;
    if n == 0 { RunPrefixOnly(s, a, b, |a|); } else { RunPrefixConcat(s, a, b, n - 1); }
  }

  /** Writing two buffers one after the other is writing them joined. */
  lemma RunConcat(s: Screen, a: seq<Op>, b: seq<Op>)
    requires s.Valid()
    ensures Run(s, a + b) == Run(Run(s, a), b)
  {
    RunPrefixConcat(s, a, b, |b|);
  }

  lemma RunThree(s: Screen, a: seq<Op>, b: seq<Op>, c: seq<Op>)
    requires s.Valid()
    ensures Run(s, a + b + c) == Run(Run(Run(s, a), b), c)
  {
    RunConcat(s, a + b, c);
    RunConcat(s, a, b);
  }

  lemma RunOne(s: Screen, op: Op)
    requires s.Valid()
    ensures Run(s, [op]) == Apply(s, op)
  {
    assert RunPrefix(s, [op], 0) == s;
  }

  lemma RunSnoc(s: Screen, ops: seq<Op>, op: Op)
    requires s.Valid()
    ensures Run(s, ops + [op]) == Apply(Run(s, ops), op)
  {
    RunConcat(s, ops, [op]);
    RunOne(Run(s, ops), op);
  }

  lemma RunTwo(s: Screen, ops: seq<Op>, a: Op, b: Op)
    requires s.Valid()
    ensures Run(s, ops + [a, b]) == Apply(Apply(Run(s, ops), a), b)
  {
    RunSnoc(s, ops, a);
    RunSnoc(s, ops + [a], b);
    assert ops + [a] + [b] == ops + [a, b];
  }
}

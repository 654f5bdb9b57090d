/**
 * Images drawn with the Kitty graphics protocol take up the blank rows below the line that holds them.
 * The range of lines to redraw is widened so that it never cuts such a block.
 */
module KittyRange {
  import opened Wrappers

  /** `identified`: the line draws an image that has an id. `rows`: the height it asks for. `empty`: nothing visible. */
  datatype Row = Row(text: string, identified: bool, image: bool, empty: bool, rows: nat)

  /** A line that draws an identified image is an image line. */
  predicate WellMarked(lines: seq<Row>) {
    forall i :: 0 <= i < |lines| ==> lines[i].identified ==> lines[i].image
  }

  predicate Reservable(r: Row) {
    !r.image && r.empty
  }

  function ReservedFrom(lines: seq<Row>, i: nat, reserved: nat, most: int): (n: nat)
    requires i < |lines| && 1 <= reserved && i + most <= |lines|
    ensures reserved <= n && (n == reserved || n <= most)
    ensures forall j :: i + reserved <= j < i + n ==> Reservable(lines[j])
    ensures n < most ==> !Reservable(lines[i + n])
    decreases most - reserved
  {
    if reserved < most && Reservable(lines[i + reserved]) then ReservedFrom(lines, i, reserved + 1, most) else reserved
  }

  /** The rows an image takes: as many blank rows as it asks for and finds, and none below row `maxIndex`. */
  function ReservedRows(lines: seq<Row>, i: nat, maxIndex: int): (n: nat)
    requires i < |lines|
    ensures 1 <= n && i + n <= |lines| && (n == 1 || n <= Min(lines[i].rows, maxIndex - i + 1))
    ensures forall j :: i + 1 <= j < i + n ==> Reservable(lines[j])
    ensures n < lines[i].rows && i + n <= maxIndex && i + n < |lines| ==> !Reservable(lines[i + n])
  {
    if lines[i].rows <= 1 then 1 else ReservedFrom(lines, i, 1, Min(lines[i].rows, Min(maxIndex - i + 1, |lines| - i)))
  }

  function BlockEnd(lines: seq<Row>, i: nat): (e: nat)
    requires i < |lines|
    ensures i <= e < |lines|
  {
    i + ReservedRows(lines, i, |lines| - 1) - 1
  }

  predicate Included(lines: seq<Row>, i: nat, first: nat, last: int)
    requires i < |lines|
  {
    lines[i].identified && (i >= first || (i <= last && BlockEnd(lines, i) >= first))
  }

  datatype Range = Range(first: nat, last: int)

  /** The range after the blocks among the first `n` lines have been looked at. */
  function Expand(lines: seq<Row>, n: nat, first: nat, last: int, r: Range): Range
    requires n <= |lines|
  {
    if n == 0 then r
    else
      var before := Expand(lines, n - 1, first, last, r);
      if Included(lines, n - 1, first, last)
      then Range(Min(before.first, n - 1), Max(before.last, BlockEnd(lines, n - 1)))
      else before
  }

  function Expanded(previous: seq<Row>, next: seq<Row>, first: nat, last: int): Range {
    Expand(next, |next|, first, last, Expand(previous, |previous|, first, last, Range(first, last)))
  }

  /* ---------- The operations ---------- */

  /** `getKittyImageReservedRows`. */
  method GetReservedRows(lines: seq<Row>, index: nat, maxIndex: int) returns (reservedRows: nat)
    requires index < |lines|
    ensures reservedRows == ReservedRows(lines, index, maxIndex)
  {
    var rows := lines[index].rows;
    if rows <= 1 { return 1; }
    var maxRows := Min(rows, Min(maxIndex - index + 1, |lines| - index));
    reservedRows := 1;
    while reservedRows < maxRows
      invariant 1 <= reservedRows && reservedRows <= Max(1, maxRows)
      invariant ReservedFrom(lines, index, 1, maxRows) == ReservedFrom(lines, index, reservedRows, maxRows)
    {
      var line := lines[index + reservedRows];
      if line.image || !line.empty { break; }
      reservedRows := reservedRows + 1;
    }
  }

  /** `expandChangedRangeForKittyImages`: both lists widen the same range, each by the original bounds. */
  method ExpandChangedRange(previous: seq<Row>, next: seq<Row>, first: nat, last: int) returns (range: Range)
    ensures range == Expanded(previous, next, first, last)
  {
    range := Range(first, last);
    range := ExpandForLines(previous, first, last, range);
    range := ExpandForLines(next, first, last, range);
  }

  method ExpandForLines(lines: seq<Row>, first: nat, last: int, start: Range) returns (range: Range)
    ensures range == Expand(lines, |lines|, first, last, start)
  {
    range := start;
    for i := 0 to |lines|
      invariant range == Expand(lines, i, first, last, start)
    {
      if !lines[i].identified { continue; }
      var rows := GetReservedRows(lines, i, |lines| - 1);
      var blockEnd := i + rows - 1;
      if i >= first || (i <= last && blockEnd >= first) {
        range := Range(Min(range.first, i), Max(range.last, blockEnd));
      }
    }
  }

  /* ---------- The range is closed ---------- */

  ghost predicate Inside(r: Range, lines: seq<Row>, i: nat)
    requires i < |lines|
  {
    r.first <= i && BlockEnd(lines, i) <= r.last
  }

  /** The range grows, takes in every included block, and its ends are the old ones or ends of included blocks. */
  lemma {:induction false} ExpandCovers(lines: seq<Row>, n: nat, first: nat, last: int, r: Range)
    requires n <= |lines|
    ensures var t := Expand(lines, n, first, last, r);
      && t.first <= r.first && r.last <= t.last
      && (forall i: nat :: i < n && Included(lines, i, first, last) ==> Inside(t, lines, i))
      && (t.first == r.first || exists i: nat :: i < n && Included(lines, i, first, last) && t.first == i)
      && (t.last == r.last || exists i: nat :: i < n && Included(lines, i, first, last) && t.last == BlockEnd(lines, i))
  {
    hide BlockEnd;
    if n > 0 { ExpandCovers(lines, n - 1, first, last, r); }
  }

  /** An image's block is its line and the blank rows below it, as many as it asks for and finds, to the last line. */
  lemma BlockIs(lines: seq<Row>, i: nat)
    requires i < |lines|
    ensures var e := BlockEnd(lines, i);
      && i <= e < |lines| && (e == i || e < i + lines[i].rows)
      && (forall j :: i < j <= e ==> !lines[j].image && lines[j].empty)
      && (e + 1 < i + lines[i].rows && e + 1 < |lines| ==> lines[e + 1].image || !lines[e + 1].empty)
  {
  }

  /** A block is included exactly when it reaches the changed lines. */
  lemma IncludedWhenReaching(lines: seq<Row>, i: nat, first: nat, last: int)
    requires i < |lines| && lines[i].identified && first <= last
    ensures Included(lines, i, first, last) <==> BlockEnd(lines, i) >= first
  {
  }

  /** No block reaches the line where another begins. */
  lemma BlocksApart(lines: seq<Row>, i: nat, j: nat)
    requires WellMarked(lines) && i < j < |lines| && lines[i].identified && lines[j].identified
    ensures BlockEnd(lines, i) < j
  {
    assert j <= BlockEnd(lines, i) ==> Reservable(lines[j]);
  }

  /** A block of `a` below the changed lines does not reach over the start of a block of `b` that reaches them. */
  lemma NotOverStart(a: seq<Row>, b: seq<Row>, first: nat, i: nat, j: nat)
    requires WellMarked(a) && WellMarked(b) && first <= |a| && first <= |b| && a[..first] == b[..first]
    requires i < |a| && a[i].identified && BlockEnd(a, i) < first
    requires j < |b| && b[j].identified && j < first
    ensures !(i < j <= BlockEnd(a, i))
  {
    if i < j <= BlockEnd(a, i) {
      assert a[j] == a[..first][j] == b[j];
      BlocksApart(a, i, j);
    }
  }

  /**
   * When the old and the new lines agree below the first changed one, no identified image of either list
   * is cut by an end of the widened range, and every one that reaches the changed lines lies inside it.
   */
  lemma RangeIsClosed(previous: seq<Row>, next: seq<Row>, first: nat, last: int, i: nat, inOld: bool)
    requires WellMarked(previous) && WellMarked(next) && first <= last
    requires first <= |previous| && first <= |next| && previous[..first] == next[..first]
    requires var lines := if inOld then previous else next; i < |lines| && lines[i].identified
    ensures var lines := if inOld then previous else next; var r := Expanded(previous, next, first, last);
      && !(i < r.first <= BlockEnd(lines, i)) && !(i <= r.last < BlockEnd(lines, i))
      && (BlockEnd(lines, i) >= first ==> Inside(r, lines, i))
  {
    hide BlockEnd, Expand, ReservedRows;
    var lines := if inOld then previous else next;
    var r1 := Expand(previous, |previous|, first, last, Range(first, last));
    var r := Expanded(previous, next, first, last);
    ExpandCovers(previous, |previous|, first, last, Range(first, last));
    ExpandCovers(next, |next|, first, last, r1);
    IncludedWhenReaching(lines, i, first, last);
    if BlockEnd(lines, i) < first && r.first != first {
      StartIsBlock(previous, next, first, last);
      if exists j: nat :: j < |previous| && previous[j].identified && r.first == j {
        NotOverStart(lines, previous, first, i, r.first);
      } else {
        NotOverStart(lines, next, first, i, r.first);
      }
    }
  }

  lemma StartIsBlock(previous: seq<Row>, next: seq<Row>, first: nat, last: int)
    ensures var r := Expanded(previous, next, first, last);
      && r.first <= first
      && (r.first == first
        || (exists j: nat :: j < |previous| && previous[j].identified && r.first == j)
        || (exists j: nat :: j < |next| && next[j].identified && r.first == j))
  {
    hide BlockEnd, Expand;
    var r1 := Expand(previous, |previous|, first, last, Range(first, last));
    ExpandCovers(previous, |previous|, first, last, Range(first, last));
    ExpandCovers(next, |next|, first, last, r1);
  }

  ghost predicate Reaches(q: Range, lines: seq<Row>, first: nat) {
    forall i: nat :: i < |lines| && lines[i].identified && BlockEnd(lines, i) >= first ==> Inside(q, lines, i)
  }

  /** It is the least such range: nothing is redrawn that need not be. */
  lemma RangeIsLeast(previous: seq<Row>, next: seq<Row>, first: nat, last: int, q: Range)
    requires first <= last && q.first <= first && last <= q.last
    requires Reaches(q, previous, first) && Reaches(q, next, first)
    ensures var r := Expanded(previous, next, first, last); q.first <= r.first && r.last <= q.last
  {
    ExpandLeast(previous, |previous|, first, last, Range(first, last), q);
    ExpandLeast(next, |next|, first, last, Expand(previous, |previous|, first, last, Range(first, last)), q);
  }

  lemma {:induction false} ExpandLeast(lines: seq<Row>, n: nat, first: nat, last: int, r: Range, q: Range)
    requires n <= |lines| && first <= last && q.first <= r.first && r.last <= q.last && Reaches(q, lines, first)
    ensures var t := Expand(lines, n, first, last, r); q.first <= t.first && t.last <= q.last
  {
    hide BlockEnd;
    if n > 0 {
      ExpandLeast(lines, n - 1, first, last, r, q);
      if lines[n - 1].identified { IncludedWhenReaching(lines, n - 1, first, last); }
    }
  }
}

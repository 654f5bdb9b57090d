/** Where an overlay goes: its width, its position, and how much of its height is shown. */
module OverlayBox {
  import opened Wrappers

  /** A number, a percentage, or a string that is neither. */
  datatype Size = Absolute(value: int) | Percent(percent: real) | Unreadable

  datatype Anchor =
    | Center | TopLeft | TopRight | BottomLeft | BottomRight
    | TopCenter | BottomCenter | LeftCenter | RightCenter

  /** What is not given counts as 0; a single number given for the margin stands for all four. */
  datatype Margin = Margin(top: Option<int>, right: Option<int>, bottom: Option<int>, left: Option<int>)

  datatype Options = Options(
    width: Option<Size>, minWidth: Option<int>, maxHeight: Option<Size>,
    anchor: Option<Anchor>, offsetX: Option<int>, offsetY: Option<int>,
    row: Option<Size>, col: Option<Size>, margin: Margin)

  datatype Box = Box(width: int, row: int, col: int, maxHeight: Option<int>)

  function GetOr<T>(o: Option<T>, otherwise: T): T {
    if o.Some? then o.value else otherwise
  }

  function MarginTop(o: Options): nat { Max(0, GetOr(o.margin.top, 0)) }
  function MarginRight(o: Options): nat { Max(0, GetOr(o.margin.right, 0)) }
  function MarginBottom(o: Options): nat { Max(0, GetOr(o.margin.bottom, 0)) }
  function MarginLeft(o: Options): nat { Max(0, GetOr(o.margin.left, 0)) }

  function PercentOf(reference: int, percent: real): int {
    (reference as real * percent / 100.0).Floor
  }

  /** `parseSizeValue`. */
  function ParseSize(size: Option<Size>, reference: int): Option<int> {
    if size.None? || size.value.Unreadable? then None
    else if size.value.Absolute? then Some(size.value.value)
    else Some(PercentOf(reference, size.value.percent))
  }

  function AnchorRow(a: Anchor, height: int, avail: int, top: int): int {
    match a
    case TopLeft | TopCenter | TopRight => top
    case BottomLeft | BottomCenter | BottomRight => top + avail - height
    case LeftCenter | Center | RightCenter => top + (avail - height) / 2
  }

  function AnchorCol(a: Anchor, width: int, avail: int, left: int): int {
    match a
    case TopLeft | LeftCenter | BottomLeft => left
    case TopRight | RightCenter | BottomRight => left + avail - width
    case TopCenter | Center | BottomCenter => left + (avail - width) / 2
  }

  /** A position given as a size: a percentage of the room that is left, or a number taken as it is. */
  function Position(size: Size, start: int, room: int, otherwise: int): int {
    match size
    case Absolute(n) => n
    case Percent(p) => start + (Max(0, room) as real * (p / 100.0)).Floor
    case Unreadable => otherwise
  }

  function AvailWidth(o: Options, termWidth: int): int { Max(1, termWidth - MarginLeft(o) - MarginRight(o)) }
  function AvailHeight(o: Options, termHeight: int): int { Max(1, termHeight - MarginTop(o) - MarginBottom(o)) }

  function BoxWidth(o: Options, termWidth: int): int {
    var avail := AvailWidth(o, termWidth);
    var asked := GetOr(ParseSize(o.width, termWidth), Min(80, avail));
    var least := if o.minWidth.Some? then Max(asked, o.minWidth.value) else asked;
    Max(1, Min(least, avail))
  }

  function BoxMaxHeight(o: Options, termHeight: int): Option<int> {
    var asked := ParseSize(o.maxHeight, termHeight);
    if asked.Some? then Some(Max(1, Min(asked.value, AvailHeight(o, termHeight)))) else None
  }

  function EffectiveHeight(o: Options, overlayHeight: int, termHeight: int): int {
    var maxHeight := BoxMaxHeight(o, termHeight);
    if maxHeight.Some? then Min(overlayHeight, maxHeight.value) else overlayHeight
  }

  /** Where the overlay asks to be, before it is kept inside the margins. */
  function AskedRow(o: Options, height: int, termHeight: int): int {
    var avail := AvailHeight(o, termHeight);
    var row := if o.row.Some?
      then Position(o.row.value, MarginTop(o), avail - height, AnchorRow(Center, height, avail, MarginTop(o)))
      else AnchorRow(GetOr(o.anchor, Center), height, avail, MarginTop(o));
    row + GetOr(o.offsetY, 0)
  }

  function AskedCol(o: Options, width: int, termWidth: int): int {
    var avail := AvailWidth(o, termWidth);
    var col := if o.col.Some?
      then Position(o.col.value, MarginLeft(o), avail - width, AnchorCol(Center, width, avail, MarginLeft(o)))
      else AnchorCol(GetOr(o.anchor, Center), width, avail, MarginLeft(o));
    col + GetOr(o.offsetX, 0)
  }

  /** `resolveOverlayLayout`. */
  function Resolve(o: Options, overlayHeight: int, termWidth: int, termHeight: int): Box {
    var width := BoxWidth(o, termWidth);
    var height := EffectiveHeight(o, overlayHeight, termHeight);
    Box(width,
        Max(MarginTop(o), Min(AskedRow(o, height, termHeight), termHeight - MarginBottom(o) - height)),
        Max(MarginLeft(o), Min(AskedCol(o, width, termWidth), termWidth - MarginRight(o) - width)),
        BoxMaxHeight(o, termHeight))
  }

  /**
   * The box keeps to the margins whenever they leave a column, and to the terminal exactly when the left
   * margin does; from top to bottom it keeps to them exactly when what is shown of it is not too high.
   */
  lemma BoxFits(o: Options, overlayHeight: nat, termWidth: nat, termHeight: nat)
    ensures var box := Resolve(o, overlayHeight, termWidth, termHeight);
      var height := EffectiveHeight(o, overlayHeight, termHeight);
      && 1 <= box.width && MarginLeft(o) <= box.col && MarginTop(o) <= box.row
      && (MarginLeft(o) + MarginRight(o) < termWidth ==> box.col + box.width <= termWidth - MarginRight(o))
      && (box.col + box.width <= termWidth <==> MarginLeft(o) < termWidth)
      && (box.row + height <= termHeight - MarginBottom(o)
          <==> MarginTop(o) + height <= termHeight - MarginBottom(o))
      && (box.maxHeight.Some? ==> height <= box.maxHeight.value <= AvailHeight(o, termHeight))
  {
  }

  /** Inside the margins the box is where it was asked to be. */
  lemma BoxWhereAsked(o: Options, overlayHeight: nat, termWidth: nat, termHeight: nat)
    ensures var box := Resolve(o, overlayHeight, termWidth, termHeight);
      var row := AskedRow(o, EffectiveHeight(o, overlayHeight, termHeight), termHeight);
      var col := AskedCol(o, box.width, termWidth);
      && (MarginLeft(o) <= col <= termWidth - MarginRight(o) - box.width ==> box.col == col)
      && (MarginTop(o) <= row <= termHeight - MarginBottom(o) - EffectiveHeight(o, overlayHeight, termHeight) ==>
          box.row == row)
  {
  }

  /**
   * A percentage places the box in the room the margins leave, 0 at the near one and 100 at the far one;
   * an offset is added to that, and only what then lies outside is moved back.
   */
  lemma PercentSpansTheRoom(o: Options, overlayHeight: nat, termWidth: nat, termHeight: nat)
    requires MarginLeft(o) + MarginRight(o) < termWidth
    requires o.col.Some? && o.col.value.Percent? && 0.0 <= o.col.value.percent
    ensures var box := Resolve(o, overlayHeight, termWidth, termHeight);
      var (placed, far) := (AskedCol(o, box.width, termWidth) - GetOr(o.offsetX, 0), termWidth - MarginRight(o) - box.width);
      && MarginLeft(o) <= placed && (o.col.value.percent <= 100.0 ==> placed <= far)
      && (o.col.value.percent == 0.0 ==> placed == MarginLeft(o))
      && (o.col.value.percent == 100.0 ==> placed == far)
      && (o.offsetX.None? ==> box.col == Min(placed, far))
  {
    hide AskedRow, ParseSize, EffectiveHeight, BoxMaxHeight, AnchorCol, Position;
    var (avail, width) := (AvailWidth(o, termWidth), BoxWidth(o, termWidth));
    PercentWithin(o.col.value, MarginLeft(o), avail - width, AnchorCol(Center, width, avail, MarginLeft(o)));
  }

  /** The same from top to bottom, when what is shown of the overlay is not too high. */
  lemma PercentSpansTheRows(o: Options, overlayHeight: nat, termWidth: nat, termHeight: nat)
    requires MarginTop(o) + EffectiveHeight(o, overlayHeight, termHeight) <= termHeight - MarginBottom(o)
    requires MarginTop(o) + MarginBottom(o) < termHeight
    requires o.row.Some? && o.row.value.Percent? && 0.0 <= o.row.value.percent
    ensures var box := Resolve(o, overlayHeight, termWidth, termHeight);
      var height := EffectiveHeight(o, overlayHeight, termHeight);
      var (placed, far) := (AskedRow(o, height, termHeight) - GetOr(o.offsetY, 0), termHeight - MarginBottom(o) - height);
      && MarginTop(o) <= placed && (o.row.value.percent <= 100.0 ==> placed <= far)
      && (o.row.value.percent == 0.0 ==> placed == MarginTop(o))
      && (o.row.value.percent == 100.0 ==> placed == far)
      && (o.offsetY.None? ==> box.row == Min(placed, far))
  {
    hide AskedCol, ParseSize, BoxWidth, BoxMaxHeight, AnchorRow, Position;
    var (avail, height) := (AvailHeight(o, termHeight), EffectiveHeight(o, overlayHeight, termHeight));
    PercentWithin(o.row.value, MarginTop(o), avail - height, AnchorRow(Center, height, avail, MarginTop(o)));
  }

  /** Where a percentage puts the start of a box that has `room` to move in. */
  lemma PercentWithin(size: Size, start: int, room: nat, otherwise: int)
    requires size.Percent? && 0.0 <= size.percent
    ensures var placed := Position(size, start, room, otherwise);
      && start <= placed && (size.percent <= 100.0 ==> placed <= start + room)
      && (size.percent == 0.0 ==> placed == start)
      && (size.percent == 100.0 ==> placed == start + room)
  {
    ShareWithin(room, size.percent / 100.0);
  }

  lemma ShareWithin(room: nat, share: real)
    requires 0.0 <= share
    ensures 0 <= (room as real * share).Floor
    ensures share <= 1.0 ==> (room as real * share).Floor <= room
    ensures share == 1.0 ==> (room as real * share).Floor == room
    ensures share == 0.0 ==> (room as real * share).Floor == 0
  {
    assert 0.0 <= room as real * share;
    assert share <= 1.0 ==> room as real * share <= room as real * 1.0;
  }

  /* ---------- What is asked for ---------- */

  /** Each side has its own margin; what is missing or negative leaves none. */
  lemma MarginsMean(o: Options, top: int, right: int, bottom: int, left: int)
    requires o.margin == Margin(Some(top), Some(right), Some(bottom), Some(left))
    ensures MarginTop(o) == if top < 0 then 0 else top
    ensures MarginRight(o) == if right < 0 then 0 else right
    ensures MarginBottom(o) == if bottom < 0 then 0 else bottom
    ensures MarginLeft(o) == if left < 0 then 0 else left
  {
  }

  lemma NoMargins(o: Options)
    requires o.margin == Margin(None, None, None, None)
    ensures MarginTop(o) == MarginRight(o) == MarginBottom(o) == MarginLeft(o) == 0
  {
  }

  datatype Side = Near | Middle | Far

  /** Where an anchor stands from top to bottom. */
  function Vertical(a: Anchor): Side {
    if a in {TopLeft, TopCenter, TopRight} then Near
    else if a in {BottomLeft, BottomCenter, BottomRight} then Far
    else Middle
  }

  /** And from left to right. */
  function Horizontal(a: Anchor): Side {
    if a in {TopLeft, LeftCenter, BottomLeft} then Near
    else if a in {TopRight, RightCenter, BottomRight} then Far
    else Middle
  }

  /** Of the room before and after a box: none before it, none after it, or the same up to one. */
  predicate StandsAt(side: Side, before: int, after: int) {
    match side
    case Near => before == 0
    case Far => after == 0
    case Middle => before <= after <= before + 1
  }

  /** An anchored box that is not too high stands at the margin its anchor names, or in the middle. */
  lemma AnchoredRows(o: Options, overlayHeight: nat, termWidth: nat, termHeight: nat)
    requires MarginTop(o) + EffectiveHeight(o, overlayHeight, termHeight) <= termHeight - MarginBottom(o)
    requires MarginTop(o) + MarginBottom(o) < termHeight
    requires o.offsetY.None? && (o.row.None? || o.row.value.Unreadable?)
    ensures var row := Resolve(o, overlayHeight, termWidth, termHeight).row;
      var height := EffectiveHeight(o, overlayHeight, termHeight);
      var anchor := if o.row.Some? || o.anchor.None? then Center else o.anchor.value;
      StandsAt(Vertical(anchor), row - MarginTop(o), termHeight - MarginBottom(o) - height - row)
  {
  }

  lemma AnchoredColumns(o: Options, overlayHeight: nat, termWidth: nat, termHeight: nat)
    requires MarginLeft(o) + MarginRight(o) < termWidth
    requires o.offsetX.None? && (o.col.None? || o.col.value.Unreadable?)
    ensures var box := Resolve(o, overlayHeight, termWidth, termHeight);
      var anchor := if o.col.Some? || o.anchor.None? then Center else o.anchor.value;
      StandsAt(Horizontal(anchor), box.col - MarginLeft(o), termWidth - MarginRight(o) - box.width - box.col)
  {
    hide BoxMaxHeight, EffectiveHeight, AskedRow;
  }

  /** A number is the row or the column itself, as far as the margins allow. */
  lemma NumberPlaces(o: Options, overlayHeight: nat, termWidth: nat, termHeight: nat, n: int)
    ensures var box := Resolve(o, overlayHeight, termWidth, termHeight);
      var height := EffectiveHeight(o, overlayHeight, termHeight);
      && (o.row == Some(Absolute(n)) && o.offsetY.None? ==>
          MarginTop(o) <= n <= termHeight - MarginBottom(o) - height ==> box.row == n)
      && (o.col == Some(Absolute(n)) && o.offsetX.None? ==>
          MarginLeft(o) <= n <= termWidth - MarginRight(o) - box.width ==> box.col == n)
  {
  }

  /** An offset moves the box down by as much as it says, unless that leads out of the margins. */
  lemma OffsetMovesDown(o: Options, overlayHeight: nat, termWidth: nat, termHeight: nat, dy: int)
    requires MarginTop(o) + MarginBottom(o) < termHeight && o.row.None? && o.offsetY.None?
    ensures var (box, moved) := (Resolve(o, overlayHeight, termWidth, termHeight),
        Resolve(o.(offsetY := Some(dy)), overlayHeight, termWidth, termHeight));
      var height := EffectiveHeight(o, overlayHeight, termHeight);
      MarginTop(o) <= box.row + dy <= termHeight - MarginBottom(o) - height ==> moved.row == box.row + dy
  {
    assert BoxMaxHeight(o.(offsetY := Some(dy)), termHeight) == BoxMaxHeight(o, termHeight);
    hide BoxWidth, BoxMaxHeight, AskedCol;
  }

  /** And to the right. */
  lemma OffsetMovesRight(o: Options, overlayHeight: nat, termWidth: nat, termHeight: nat, dx: int)
    requires MarginLeft(o) + MarginRight(o) < termWidth && o.col.None? && o.offsetX.None?
    ensures var (box, moved) := (Resolve(o, overlayHeight, termWidth, termHeight),
        Resolve(o.(offsetX := Some(dx)), overlayHeight, termWidth, termHeight));
      && moved.width == box.width
      && (MarginLeft(o) <= box.col + dx <= termWidth - MarginRight(o) - box.width ==> moved.col == box.col + dx)
  {
    assert BoxWidth(o.(offsetX := Some(dx)), termWidth) == BoxWidth(o, termWidth);
    WithinRoom(o, termWidth);
    hide BoxWidth, BoxMaxHeight, EffectiveHeight, AskedRow;
  }

  lemma WithinRoom(o: Options, termWidth: nat)
    requires MarginLeft(o) + MarginRight(o) < termWidth
    ensures 1 <= BoxWidth(o, termWidth) <= termWidth - MarginLeft(o) - MarginRight(o)
  {
  }

  /** `size` stands for `n` of `whole`: the number itself, or the whole part of the percentage. */
  predicate StandsFor(size: Size, whole: nat, n: int) {
    match size
    case Absolute(m) => n == m
    case Percent(p) => 100.0 * n as real <= whole as real * p < 100.0 * (n + 1) as real
    case Unreadable => false
  }

  /**
   * The width asked for is given if there is room for it, and no less than the least width asked for; without
   * a width it is 80 columns or all there are.
   */
  lemma WidthAsked(o: Options, termWidth: nat, n: nat)
    requires MarginLeft(o) + MarginRight(o) < termWidth
    ensures var (width, room) := (BoxWidth(o, termWidth), termWidth - MarginLeft(o) - MarginRight(o));
      && (o.width.Some? && StandsFor(o.width.value, termWidth, n) && 1 <= n ==>
          width == if o.minWidth.Some? && n < o.minWidth.value then Min(o.minWidth.value, room) else Min(n, room))
      && (o.width.None? || o.width.value.Unreadable? ==>
          width == if o.minWidth.Some? && 80 < o.minWidth.value then Min(o.minWidth.value, room) else Min(80, room))
  {
    hide ParseSize, StandsFor;
    if o.width.Some? { SizeParsed(o.width.value, termWidth, n); } else { NothingParsed(termWidth); }
  }

  lemma SizeParsed(size: Size, whole: nat, n: int)
    ensures StandsFor(size, whole, n) ==> ParseSize(Some(size), whole) == Some(n)
    ensures size.Unreadable? ==> ParseSize(Some(size), whole) == None
  {
    hide PercentOf;
    if size.Percent? && StandsFor(size, whole, n) { PercentIs(whole, size.percent, n); }
  }

  lemma PercentIs(whole: nat, percent: real, n: int)
    requires 100.0 * n as real <= whole as real * percent < 100.0 * (n + 1) as real
    ensures PercentOf(whole, percent) == n
  {
    WholePart(whole as real * percent, n);
  }

  lemma NothingParsed(whole: int)
    ensures ParseSize(None, whole) == None
  {
  }

  lemma WholePart(x: real, n: int)
    requires 100.0 * n as real <= x < 100.0 * (n + 1) as real
    ensures (x / 100.0).Floor == n
  {
  }

  /** So is the greatest height; without one, the overlay is shown as high as it is. */
  lemma HeightAsked(o: Options, overlayHeight: nat, termHeight: nat, n: nat)
    requires MarginTop(o) + MarginBottom(o) < termHeight
    ensures var height := EffectiveHeight(o, overlayHeight, termHeight);
      && (o.maxHeight.Some? && StandsFor(o.maxHeight.value, termHeight, n) && 1 <= n ==>
          height == Min(overlayHeight, Min(n, termHeight - MarginTop(o) - MarginBottom(o))))
      && (o.maxHeight.None? || o.maxHeight.value.Unreadable? ==> height == overlayHeight)
  {
    hide ParseSize, StandsFor;
    if o.maxHeight.Some? { SizeParsed(o.maxHeight.value, termHeight, n); } else { NothingParsed(termHeight); }
  }
}

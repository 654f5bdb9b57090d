/** Which overlays are drawn, how much of each, and how many rows that takes. */
module OverlayStacking {
  import opened Wrappers
  import opened Wrap
  import opened OverlayBox
  import opened Overlays

  /** What is visible of two stacks is what is visible of the one, and then of the other. */
  lemma {:induction false} VisibleConcat(a: seq<Overlay>, b: seq<Overlay>)
    ensures Visible(a + b) == Visible(a) + Visible(b)
  {
    if b == [] {
      assert a + b == a;
    } else {
      assert (a + b)[..|a + b| - 1] == a + b[..|b| - 1];
      VisibleConcat(a, b[..|b| - 1]);
    }
  }

  /** Hiding an overlay takes it out of what is drawn and changes nothing else about that; showing it puts it back. */
  lemma VisibleWithout(below: seq<Overlay>, o: Overlay, above: seq<Overlay>)
    ensures Visible(below + [o] + above) == Visible(below) + (if o.visible then [o] else []) + Visible(above)
  {
    VisibleConcat(below + [o], above);
    VisibleConcat(below, [o]);
  }

  /**
   * An overlay is rendered once at the width of its box. Of its lines the first are shown, as many as the
   * height it may have, and where they go is decided by how many are shown.
   */
  lemma PlacedMeans(o: Overlay, termWidth: nat, termHeight: nat)
    ensures var p := Place(o, termWidth, termHeight);
      var box := Resolve(o.options, |p.lines|, termWidth, termHeight);
      var all := o.render(box.width);
      && p.w == box.width && p.row == box.row && p.col == box.col
      && p.lines <= all && |p.lines| == EffectiveHeight(o.options, |all|, termHeight)
  {
    hide ParseSize, AskedRow, AskedCol, BoxWidth;
  }

  /** There are as many rows as the content, the terminal and every overlay need, and no more. */
  lemma {:induction false} RowsNeeded(rendered: seq<Rendered>, lines: seq<Line>, termHeight: nat)
    ensures var n := WorkingHeight(rendered, lines, termHeight);
      && |lines| <= n && termHeight <= n
      && (forall j :: 0 <= j < |rendered| ==> rendered[j].row + |rendered[j].lines| <= n)
      && (n == |lines| || n == termHeight
          || exists j :: 0 <= j < |rendered| && n == rendered[j].row + |rendered[j].lines|)
  {
    NeededIs(rendered, |lines|);
  }

  lemma {:induction false} NeededIs(rendered: seq<Rendered>, least: int)
    ensures var n := LinesNeeded(rendered, least);
      && (forall j :: 0 <= j < |rendered| ==> rendered[j].row + |rendered[j].lines| <= n)
      && (n == least || exists j :: 0 <= j < |rendered| && n == rendered[j].row + |rendered[j].lines|)
  {
    if rendered != [] {
      var front := rendered[..|rendered| - 1];
      NeededIs(front, least);
      forall j | 0 <= j < |rendered|
        ensures rendered[j].row + |rendered[j].lines| <= LinesNeeded(rendered, least)
      {
        if j < |front| { assert front[j] == rendered[j]; }
      }
      if n: nat :| n < |front| && LinesNeeded(front, least) == front[n].row + |front[n].lines| {
        assert rendered[n] == front[n];
      }
    }
  }
}

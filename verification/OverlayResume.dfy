/**
 * Hidden and released overlays: when the focus ends up on an overlay that nobody sees, and when it goes
 * back to an overlay that lost it.
 */
module OverlayResume {
  import opened Wrappers
  import opened OverlayFocus
  import opened OverlayFocusProofs

  /* ---------- Focus on a hidden overlay ---------- */

  /** A component that is stacked as an overlay, but visible nowhere in the stack. */
  predicate HiddenOverlay(stack: seq<Entry>, c: Option<Component>) {
    c.Some? && IsOverlay(stack, c.value) && FindVisible(stack, c.value).None?
  }

  predicate OnHidden(s: State) {
    HiddenOverlay(s.stack, s.focused)
  }

  predicate StackedAs(s: State, c: Option<Component>) {
    c.Some? && IsOverlay(s.stack, c.value)
  }

  /** A visible overlay is waiting behind a blocker, and was released to a target that is a hidden overlay. */
  predicate HiddenTarget(s: State) {
    var r := VisibleRestore(s);
    r.Blocked? && r.resume.FocusTarget? && HiddenOverlay(s.stack, r.resume.target)
  }

  /** The blocker a waiting overlay waits for has the focus. */
  predicate BlockerFocused(s: State) {
    VisibleRestore(s).Blocked? && s.focused == Some(VisibleRestore(s).blockedBy)
  }

  /** What is asked for is a hidden overlay, or gives way to the hidden target of a release. */
  predicate LandsHidden(s: State, c: Option<Component>) {
    if StackedAs(s, c) then HiddenOverlay(s.stack, c) else HiddenTarget(s) && BlockerFocused(s)
  }

  /** Whatever is asked for, the focus lands on a hidden overlay exactly then. */
  lemma SetFocusLands(s: State, c: Option<Component>, policy: Policy)
    ensures OnHidden(SetFocusInternal(s, c, policy)) <==> LandsHidden(s, c)
    ensures StackedAs(s, c) ==> SetFocusInternal(s, c, policy).focused == c
  {
    hide IsAncestor, FindId;
    if VisibleRestore(s).Blocked? {
      VisibleIsShown(s.stack, FindId(s.stack, s.restore.overlay).value);
    }
  }

  /** The component of a visible entry is not hidden. */
  lemma VisibleIsShown(stack: seq<Entry>, i: nat)
    requires i < |stack|
    ensures !stack[i].hidden ==> FindVisible(stack, stack[i].component).Some?
    ensures IsOverlay(stack, stack[i].component)
  {
    assert stack[i] in stack;
  }

  /**
   * Hiding an overlay that has the focus hands it on to a hidden one exactly when nothing visible captures
   * and its own link leads there.
   */
  lemma HidingLands(s: State, id: nat)
    requires FindId(s.stack, id).Some? && !s.stack[FindId(s.stack, id).value].hidden
    ensures var i := FindId(s.stack, id).value;
      var e := s.stack[i];
      var t := ClearRestoreFor(s.(stack := s.stack[i := e.(hidden := true)]), id);
      OnHidden(SetHidden(s, id, true)) <==>
        if s.focused == Some(e.component) then Topmost(t.stack).None? && LandsHidden(t, e.preFocus) else OnHidden(t)
  {
    hide SetFocusInternal, FindId, HiddenOverlay, LandsHidden;
    var i := FindId(s.stack, id).value;
    var e := s.stack[i];
    var t := ClearRestoreFor(s.(stack := s.stack[i := e.(hidden := true)]), id);
    SetFocusLands(t, e.preFocus, Clear);
    if Topmost(t.stack).Some? { TopmostLands(t, Clear); }
  }

  lemma TopmostLands(s: State, policy: Policy)
    requires Topmost(s.stack).Some?
    ensures var c := Some(Topmost(s.stack).value.component);
      var r := SetFocusInternal(s, c, policy);
      r.focused == c && StackedAs(s, c) && !OnHidden(r) && r.stack == s.stack
  {
    hide SetFocusInternal, Topmost;
    var top := Topmost(s.stack).value;
    SetFocusLands(s, Some(top.component), policy);
    SameStack(s, Some(top.component), policy);
  }

  lemma SameStack(s: State, c: Option<Component>, policy: Policy)
    ensures SetFocusInternal(s, c, policy).stack == s.stack
  {
  }

  /** Leaving the focused overlay for `p` would put `p` in the way of a visible entry that shows the same component. */
  predicate Reblocks(s: State, p: Option<Component>) {
    var same := if s.focused.Some? then FindVisible(s.stack, s.focused.value) else None;
    && p.Some? && same.Some? && !VisibleRestore(s).Inactive? && VisibleRestore(s).overlay == same.value.id
    && !IsAncestor(s.stack, same.value.preFocus, p.value, {})
  }

  /**
   * The states in which an input leaves the focus on a hidden overlay. With no release to a hidden target
   * pending it takes three things: the focused overlay is hidden, no visible overlay captures, and the
   * link of the focused one leads to an overlay that is hidden as well.
   */
  predicate StaysHidden(s: State) {
    if !StackedAs(s, s.focused) then HiddenTarget(s) && !BlockerFocused(s)
    else
      var e := FindComponent(s.stack, s.focused.value).value;
      e.hidden && Topmost(s.stack).None? &&
      if StackedAs(s, e.preFocus) then HiddenOverlay(s.stack, e.preFocus)
      else HiddenTarget(s) && (BlockerFocused(s) || (e.preFocus != Some(s.restore.blockedBy) && !Reblocks(s, e.preFocus)))
  }

  lemma LeaveLands(s: State)
    requires StackedAs(s, s.focused)
    ensures var e := FindComponent(s.stack, s.focused.value).value;
      OnHidden(LeaveHidden(s)) <==> e.hidden && Topmost(s.stack).None? && LandsHidden(s, e.preFocus)
    ensures LeaveHidden(s).stack == s.stack
  {
    hide SetFocusInternal, Topmost, LandsHidden;
    var e := FindComponent(s.stack, s.focused.value).value;
    SetFocusLands(s, e.preFocus, Preserve);
    SameStack(s, e.preFocus, Preserve);
    if Topmost(s.stack).Some? { TopmostLands(s, Clear); }
  }

  lemma ResumeLands(s: State)
    ensures OnHidden(ResumeOverlay(s)) <==> OnHidden(s) || (!StackedAs(s, s.focused) && HiddenTarget(s) && !BlockerFocused(s))
  {
    hide SetFocusInternal, FindId;
    var r := VisibleRestore(s);
    if !StackedAs(s, s.focused) && !r.Inactive? {
      var c := s.stack[FindId(s.stack, r.overlay).value].component;
      VisibleIsShown(s.stack, FindId(s.stack, r.overlay).value);
      SetFocusLands(s, Some(c), Clear);
      SameStack(s, Some(c), Clear);
      if r.Blocked? && r.resume.FocusTarget? {
        SetFocusLands(s.(restore := Inactive), r.resume.target, Clear);
        SameStack(s.(restore := Inactive), r.resume.target, Clear);
      }
    }
  }

  /** An input leaves the focus on a hidden overlay exactly in those states. */
  lemma SettleExact(s: State)
    ensures OnHidden(SettleFocus(s)) <==> StaysHidden(s)
  {
    hide LeaveHidden, ResumeOverlay, HiddenOverlay, Topmost, Reblocks, HiddenTarget, BlockerFocused;
    ResumeLands(LeaveHidden(s));
    if StackedAs(s, s.focused) {
      LeaveLands(s);
      LeftFor(s);
    } else {
      NothingToLeave(s);
    }
  }

  lemma NothingToLeave(s: State)
    requires !StackedAs(s, s.focused)
    ensures LeaveHidden(s) == s && !OnHidden(s)
  {
  }

  /** Where leaving a hidden overlay leads, and what still waits then. */
  lemma LeftFor(s: State)
    requires StackedAs(s, s.focused)
    ensures var e := FindComponent(s.stack, s.focused.value).value;
      var t := LeaveHidden(s);
      if e.hidden && Topmost(s.stack).None? && !StackedAs(s, e.preFocus) && !BlockerFocused(s) then
        !StackedAs(t, t.focused)
        && (HiddenTarget(t) && !BlockerFocused(t) <==>
          HiddenTarget(s) && e.preFocus != Some(s.restore.blockedBy) && !Reblocks(s, e.preFocus))
      else StackedAs(t, t.focused) || !HiddenTarget(t) || BlockerFocused(t)
  {
    hide IsAncestor, FindId, Topmost;
  }

  /** With nothing released to a hidden target, only a chain of hidden overlays keeps the focus out of sight. */
  lemma StaysHiddenMeans(s: State)
    requires !HiddenTarget(s)
    ensures OnHidden(SettleFocus(s)) <==>
      && StackedAs(s, s.focused)
      && FindComponent(s.stack, s.focused.value).value.hidden
      && Topmost(s.stack).None?
      && HiddenOverlay(s.stack, FindComponent(s.stack, s.focused.value).value.preFocus)
  {
    hide SettleFocus, Topmost, HiddenTarget;
    SettleExact(s);
  }

  /** An entry as the run below makes it: overlay `c` shown over component `c - 1`. */
  function Nth(c: nat, hidden: bool): Entry
    requires c > 0
  {
    Entry(c - 1, c, Some(c - 1), true, hidden, c)
  }

  function Stacked(stack: seq<Entry>, focused: Component, restore: Restore): State {
    State(stack, Some(focused), restore, |stack|, |stack|, {}, {}, {})
  }

  lemma ShowsNth(stack: seq<Entry>, restore: Restore)
    requires forall e :: e in stack ==> e.component <= |stack|
    ensures var n := |stack| + 1;
      Apply(Stacked(stack, |stack|, restore), Showing(n, true)) == Stacked(stack + [Nth(n, false)], n, Eligible(|stack|))
  {
    var n := |stack| + 1;
    assert (stack + [Nth(n, false)])[|stack|] == Nth(n, false);
    assert Nth(n, false) in stack + [Nth(n, false)];
  }

  lemma ApplyAllSnoc(s: State, ops: seq<AnyOp>, op: AnyOp)
    ensures ApplyAll(s, ops + [op]) == Apply(ApplyAll(s, ops), op)
  {
    assert (ops + [op])[..|ops|] == ops;
  }

  function Three(first: bool, second: bool, third: bool): seq<Entry> {
    [Nth(1, first), Nth(2, second), Nth(3, third)]
  }

  lemma HideBelow(second: bool)
    ensures Apply(Stacked(Three(second, false, false), 3, Eligible(2)), Toggling(if second then 1 else 0, true)) ==
      Stacked(Three(true, second, false), 3, Eligible(2))
  {
    var i := if second then 1 else 0;
    assert Three(true, second, false) == Three(second, false, false)[i := Nth(i + 1, true)];
  }

  lemma HideTop()
    ensures Apply(Stacked(Three(true, true, false), 3, Eligible(2)), Toggling(2, true)) ==
      Stacked(Three(true, true, true), 2, Inactive)
  {
    assert Three(true, true, false)[2 := Nth(3, true)] == Three(true, true, true);
    AllHidden();
  }

  lemma AllHidden()
    ensures Topmost(Three(true, true, true)).None?
    ensures forall c | 1 <= c <= 3 ::
      FindVisible(Three(true, true, true), c).None? && IsOverlay(Three(true, true, true), c)
    ensures !IsOverlay(Three(true, true, true), 0)
  {
    assert forall c | 1 <= c <= 3 :: Nth(c, true) in Three(true, true, true);
  }

  /** With all three hidden, an input moves the focus down by one. */
  lemma SettleDown(c: nat)
    requires 1 <= c <= 2
    ensures SettleFocus(Stacked(Three(true, true, true), c, Inactive)) == Stacked(Three(true, true, true), c - 1, Inactive)
  {
    AllHidden();
    assert FindComponent(Three(true, true, true), c) == Some(Nth(c, true));
  }

  /**
   * Three capturing overlays shown over component 0 and hidden from the bottom to the top: the next input
   * goes to overlay 1, hidden like the others, and only the one after that to component 0.
   */
  lemma InputToHidden()
    ensures var s := ApplyAll(Stacked([], 0, Inactive),
        [Showing(1, true), Showing(2, true), Showing(3, true), Toggling(0, true), Toggling(1, true), Toggling(2, true)]);
      var t := SettleFocus(s);
      && (forall e :: e in t.stack ==> e.hidden)
      && s.focused == Some(2) && t.focused == Some(1) && SettleFocus(t).focused == Some(0)
  {
    hide Apply, ApplyAll, SettleFocus;
    var start := Stacked([], 0, Inactive);
    var shows := [Showing(1, true), Showing(2, true), Showing(3, true)];
    assert ApplyAll(start, shows) == Stacked(Three(false, false, false), 3, Eligible(2)) by { ShowThree(); }
    ApplyAllSnoc(start, shows, Toggling(0, true));
    ApplyAllSnoc(start, shows + [Toggling(0, true)], Toggling(1, true));
    ApplyAllSnoc(start, shows + [Toggling(0, true)] + [Toggling(1, true)], Toggling(2, true));
    HideBelow(false);
    HideBelow(true);
    HideTop();
    SettleDown(2);
    SettleDown(1);
    assert shows + [Toggling(0, true)] + [Toggling(1, true)] + [Toggling(2, true)] ==
      [Showing(1, true), Showing(2, true), Showing(3, true), Toggling(0, true), Toggling(1, true), Toggling(2, true)];
  }

  lemma ShowThree()
    ensures ApplyAll(Stacked([], 0, Inactive), [Showing(1, true), Showing(2, true), Showing(3, true)]) ==
      Stacked(Three(false, false, false), 3, Eligible(2))
  {
    hide Apply;
    var start := Stacked([], 0, Inactive);
    var (a, b, c) := (Showing(1, true), Showing(2, true), Showing(3, true));
    ApplyAllSnoc(start, [], a);
    ApplyAllSnoc(start, [a], b);
    ApplyAllSnoc(start, [a, b], c);
    assert [] + [a] == [a] && [a] + [b] == [a, b] && [a, b] + [c] == [a, b, c];
    ShowsNth([], Inactive);
    ShowsNth([Nth(1, false)], Eligible(0));
    ShowsNth([Nth(1, false), Nth(2, false)], Eligible(1));
    assert [] + [Nth(1, false)] == [Nth(1, false)];
    assert ApplyAll(start, [a]) == Stacked([Nth(1, false)], 1, Eligible(0));
    assert [Nth(1, false)] + [Nth(2, false)] == [Nth(1, false), Nth(2, false)];
    assert ApplyAll(start, [a, b]) == Stacked([Nth(1, false), Nth(2, false)], 2, Eligible(1));
    assert [Nth(1, false), Nth(2, false)] + [Nth(3, false)] == Three(false, false, false);
  }

  /* ---------- Hiding, showing again and releasing ---------- */

  predicate Names(r: Restore, id: nat) {
    !r.Inactive? && r.overlay == id
  }

  /** After hiding an overlay nothing gives focus back to it; a visible capturing one takes the focus it had. */
  lemma HidingMeans(s: State, id: nat)
    requires Consistent(s) && FindId(s.stack, id).Some? && !s.stack[FindId(s.stack, id).value].hidden
    ensures var i := FindId(s.stack, id).value;
      var e := s.stack[i];
      var r := SetHidden(s, id, true);
      && r.stack == s.stack[i := e.(hidden := true)] && !Names(r.restore, id)
      && (s.focused != Some(e.component) ==> r.focused == s.focused)
      && (s.focused == Some(e.component) && Topmost(r.stack).Some? ==>
        r.focused == Some(Topmost(r.stack).value.component) && !OnHidden(r))
  {
    hide SetFocusInternal, FindId, Topmost, OnHidden;
    var i := FindId(s.stack, id).value;
    var e := s.stack[i];
    var t := ClearRestoreFor(s.(stack := s.stack[i := e.(hidden := true)]), id);
    var top := Topmost(t.stack);
    var c := if top.Some? then Some(top.value.component) else e.preFocus;
    SameStack(t, c, Clear);
    NotRemembered(t, c, i, Clear);
    if top.Some? { TopmostLands(t, Clear); }
  }

  /** Setting the focus makes an overlay the one to restore only by focusing it while it is visible. */
  lemma NotRemembered(s: State, c: Option<Component>, i: nat, policy: Policy)
    requires i < |s.stack| && !Names(s.restore, s.stack[i].id)
    requires forall j, k :: 0 <= j < k < |s.stack| ==> s.stack[j].id != s.stack[k].id
    ensures var r := SetFocusInternal(s, c, policy);
      var e := s.stack[i];
      Names(r.restore, e.id) ==> r.restore == Eligible(e.id) && r.focused == Some(e.component) && !e.hidden
  {
    hide FindId, IsAncestor;
  }

  /** Showing an overlay again puts it on top of all others, with the focus; hiding it first makes no difference. */
  lemma ShownAgain(s: State, id: nat)
    requires Consistent(s) && FindId(s.stack, id).Some? && s.stack[FindId(s.stack, id).value].capturing
    requires !s.stack[FindId(s.stack, id).value].hidden
    requires forall e :: e in s.stack ==> e.focusOrder <= s.orderCounter
    ensures var i := FindId(s.stack, id).value;
      var e := s.stack[i].(focusOrder := s.orderCounter + 1);
      var r := SetHidden(SetHidden(s, id, true), id, false);
      && r.stack == s.stack[i := e] && r.focused == Some(e.component) && Topmost(r.stack) == Some(e)
  {
    hide SetFocusInternal, FindId, Topmost;
    var i := FindId(s.stack, id).value;
    var e := s.stack[i].(focusOrder := s.orderCounter + 1);
    HidingMeans(s, id);
    var h := SetHidden(s, id, true);
    SameIds(s.stack, h.stack, id);
    HidingCounts(s, id);
    var u := h.(stack := h.stack[i := e], orderCounter := s.orderCounter + 1);
    assert u.stack == s.stack[i := e];
    VisibleIsShown(u.stack, i);
    SetFocusLands(u, Some(e.component), Clear);
    SameStack(u, Some(e.component), Clear);
    GreatestIsTopmost(u.stack, i);
  }

  lemma HidingCounts(s: State, id: nat)
    ensures SetHidden(s, id, true).orderCounter == s.orderCounter
  {
    hide FindId, Topmost, IsAncestor;
  }

  lemma GreatestIsTopmost(stack: seq<Entry>, i: nat)
    requires i < |stack| && stack[i].capturing && !stack[i].hidden
    requires forall k :: 0 <= k < |stack| && k != i ==> stack[k].focusOrder < stack[i].focusOrder
    ensures Topmost(stack) == Some(stack[i])
  {
    assert stack[i] in stack;
  }

  /** Once released, an overlay is the one to restore only if the focus came straight back to it. */
  lemma ReleasingMeans(s: State, id: nat, explicit: Option<Option<Component>>)
    requires Consistent(s) && FindId(s.stack, id).Some?
    requires s.focused == Some(s.stack[FindId(s.stack, id).value].component) || Names(s.restore, id)
    requires !(s.restore.Blocked? && Names(s.restore, id) && s.focused == Some(s.restore.blockedBy))
    ensures var e := s.stack[FindId(s.stack, id).value];
      var r := Unfocus(s, id, explicit);
      Names(r.restore, id) ==> r.focused == Some(e.component) && r.restore == Eligible(id)
  {
    hide FindId, SetFocusInternal, Topmost;
    var i := FindId(s.stack, id).value;
    var top := Topmost(s.stack);
    var fallback := if top.Some? && top.value.id != id then Some(top.value.component) else s.stack[i].preFocus;
    NotRemembered(ClearRestoreFor(s, id), if explicit.Some? then explicit.value else fallback, i, Clear);
  }

  /** The overlay `i` is focused, and is the one to restore. */
  predicate HasFocus(s: State, i: nat)
    requires i < |s.stack|
  {
    && FindId(s.stack, s.stack[i].id) == Some(i)
    && s.focused == Some(s.stack[i].component)
    && FindVisible(s.stack, s.stack[i].component) == Some(s.stack[i])
    && s.restore == Eligible(s.stack[i].id)
  }

  /** A component outside the stack that the overlay does not stand on. */
  predicate Outside(s: State, i: nat, c: Component)
    requires i < |s.stack|
  {
    !IsOverlay(s.stack, c) && !IsAncestor(s.stack, s.stack[i].preFocus, c, {})
  }

  /**
   * Focus taken from an overlay with `setFocus` is borrowed: input stays with `c` while it has the focus,
   * and once `c` gives it up, or is gone when another one asks for it, the overlay has the focus again.
   */
  lemma BorrowedFocusReturns(s: State, i: nat, c: Component)
    requires i < |s.stack| && HasFocus(s, i) && Outside(s, i, c)
    ensures var e := s.stack[i];
      var t := SetFocus(s, Some(c));
      && t.focused == Some(c) && t.restore == Blocked(e.id, c, RestoreOverlay) && SettleFocus(t) == t
      && HasFocus(SetFocus(t, None), i)
      && (forall d :: !IsOverlay(s.stack, d) ==>
        if c in s.mounted then SetFocus(t, Some(d)) == t.(focused := Some(d), flagged := SetFlags(t, Some(d)),
            restore := Blocked(e.id, d, RestoreOverlay))
        else HasFocus(SetFocus(t, Some(d)), i))
  {
    hide FindId, IsAncestor;
    var e := s.stack[i];
    var t := SetFocus(s, Some(c));
    VisibleIsShown(s.stack, i);
    assert t == s.(focused := Some(c), flagged := SetFlags(s, Some(c)), restore := Blocked(e.id, c, RestoreOverlay));
    assert VisibleRestore(t) == t.restore;
  }

  /** Focus given up with `unfocus` is not: `c` keeps it through any input, and when `c` gives it up it is gone. */
  lemma ReleasedFocusStays(s: State, i: nat, c: Component)
    requires i < |s.stack| && HasFocus(s, i) && !IsOverlay(s.stack, c)
    ensures var t := Unfocus(s, s.stack[i].id, Some(Some(c)));
      t.focused == Some(c) && t.restore == Inactive && SettleFocus(t) == t && SetFocus(t, None).focused == None
  {
    hide FindId, IsAncestor;
  }

  /** Released while a component still blocks it, the overlay never comes back: the blocker gives way to the target named. */
  lemma ReleasedWhileBlocked(s: State, i: nat, c: Component, target: Option<Component>)
    requires i < |s.stack| && HasFocus(s, i) && Outside(s, i, c)
    ensures var t := Unfocus(SetFocus(s, Some(c)), s.stack[i].id, Some(target));
      && t.focused == Some(c) && SettleFocus(t) == t
      && SetFocus(t, None).focused == target
      && (forall d :: !IsOverlay(s.stack, d) ==> SetFocus(t, Some(d)).focused == target)
  {
    hide FindId, IsAncestor;
    BorrowedFocusReturns(s, i, c);
  }
}

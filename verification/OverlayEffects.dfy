/**
 * What each overlay operation does to the stack and to the focus, entry by entry, and what the lookups
 * behind them find.
 */
module OverlayEffects {
  import opened Wrappers
  import opened OverlayFocus
  import opened OverlayFocusProofs
  import opened OverlayResume

  /* ---------- Lookups ---------- */

  /** Of several entries that show a component, the first is found. */
  lemma {:induction false} FirstStacked(stack: seq<Entry>, c: Component, i: nat)
    requires i < |stack| && stack[i].component == c && forall j :: 0 <= j < i ==> stack[j].component != c
    ensures FindComponent(stack, c) == Some(stack[i])
  {
    if i > 0 { FirstStacked(stack[1..], c, i - 1); }
  }

  lemma {:induction false} FirstVisible(stack: seq<Entry>, c: Component, i: nat)
    requires i < |stack| && stack[i].component == c && !stack[i].hidden
    requires forall j :: 0 <= j < i ==> stack[j].component != c || stack[j].hidden
    ensures FindVisible(stack, c) == Some(stack[i])
  {
    if i > 0 { FirstVisible(stack[1..], c, i - 1); }
  }

  /** Of several entries with the greatest focus order, the first is topmost. */
  lemma {:induction false} FirstTopmost(stack: seq<Entry>, i: nat)
    requires i < |stack| && stack[i].capturing && !stack[i].hidden
    requires forall j :: 0 <= j < |stack| && stack[j].capturing && !stack[j].hidden ==>
      if j < i then stack[j].focusOrder < stack[i].focusOrder else stack[j].focusOrder <= stack[i].focusOrder
    ensures Topmost(stack) == Some(stack[i])
  {
    var n := |stack| - 1;
    if i < n { FirstTopmost(stack[..n], i); }
  }

  /** The component that `c` gives focus back to. */
  function Under(stack: seq<Entry>, c: Component): Option<Component> {
    match FindComponent(stack, c)
    case None => None
    case Some(e) => e.preFocus
  }

  /** Where `n` steps along those links lead. */
  function After(stack: seq<Entry>, current: Option<Component>, n: nat): Option<Component>
    decreases n
  {
    if n == 0 || current.None? then current else After(stack, Under(stack, current.value), n - 1)
  }

  /** Links lead on only to what has been visited. */
  ghost predicate Closed(stack: seq<Entry>, visited: set<Component>, current: Option<Component>) {
    forall c :: c in visited ==> Under(stack, c).None? || Under(stack, c).value in visited || Under(stack, c) == current
  }

  lemma {:induction false} StaysInside(stack: seq<Entry>, visited: set<Component>, current: Option<Component>, n: nat)
    requires Closed(stack, visited, current) && (current.Some? ==> current.value in visited)
    ensures After(stack, current, n).Some? ==> After(stack, current, n).value in visited
    decreases n
  {
    if n > 0 && current.Some? {
      var next := Under(stack, current.value);
      StaysInside(stack, visited, next, n - 1);
    }
  }

  lemma {:induction false} WalkFinds(
      stack: seq<Entry>, current: Option<Component>, target: Component, visited: set<Component>, n: nat)
    requires Closed(stack, visited, current) && target !in visited && After(stack, current, n) == Some(target)
    ensures IsAncestor(stack, current, target, visited)
    decreases n
  {
    if current.Some? && current.value in visited {
      StaysInside(stack, visited, current, n);
    } else if current.value != target {
      var c := current.value;
      assert n > 0 && Under(stack, c).Some?;
      WalkFinds(stack, Under(stack, c), target, visited + {c}, n - 1);
    }
  }

  lemma {:induction false} FoundOnWalk(
      stack: seq<Entry>, current: Option<Component>, target: Component, visited: set<Component>) returns (n: nat)
    requires IsAncestor(stack, current, target, visited)
    ensures After(stack, current, n) == Some(target)
    decreases Components(stack) - visited
  {
    if current.value == target {
      n := 0;
    } else {
      var e := FindComponent(stack, current.value).value;
      assert current.value in Components(stack);
      n := FoundOnWalk(stack, e.preFocus, target, visited + {current.value});
      n := n + 1;
    }
  }

  /** The walk that stops at what it has seen finds exactly the components that the links lead to. */
  lemma AncestorExactly(stack: seq<Entry>, current: Option<Component>, target: Component)
    ensures IsAncestor(stack, current, target, {}) <==> exists n: nat :: After(stack, current, n) == Some(target)
  {
    hide IsAncestor;
    if IsAncestor(stack, current, target, {}) { var n := FoundOnWalk(stack, current, target, {}); }
    if n: nat :| After(stack, current, n) == Some(target) { WalkFinds(stack, current, target, {}, n); }
  }

  /* ---------- Taking an overlay off ---------- */

  /** The entries other than the one called `id`, in order. */
  function Others(stack: seq<Entry>, id: nat): seq<Entry> {
    if stack == [] then [] else (if stack[0].id == id then [] else [stack[0]]) + Others(stack[1..], id)
  }

  lemma {:induction false} OthersAll(stack: seq<Entry>, id: nat)
    requires forall k :: 0 <= k < |stack| ==> stack[k].id != id
    ensures Others(stack, id) == stack
  {
    if stack != [] { OthersAll(stack[1..], id); }
  }

  lemma {:induction false} OthersWithout(stack: seq<Entry>, id: nat, i: nat)
    requires i < |stack| && forall k :: 0 <= k < |stack| ==> (stack[k].id == id <==> k == i)
    ensures Others(stack, id) == stack[..i] + stack[i + 1..]
  {
    if i == 0 {
      OthersAll(stack[1..], id);
      assert [] + stack[1..] == stack[..0] + stack[1..];
    } else {
      OthersWithout(stack[1..], id, i - 1);
      assert [stack[0]] + (stack[1..][..i - 1] + stack[1..][i..]) == stack[..i] + stack[i + 1..];
    }
  }

  /** Entry `e` is gone, and whoever would give focus back to it gives it to whom `e` would. */
  ghost predicate Redirected(after: seq<Entry>, others: seq<Entry>, e: Entry) {
    && |after| == |others|
    && forall k :: 0 <= k < |others| ==>
      var f := others[k];
      after[k] == f.(preFocus := if f.preFocus == Some(e.component) then e.preFocus else f.preFocus)
  }

  /** The focus leaves a removed overlay for the topmost one left, or for whom it was taken from. */
  ghost predicate HandedOn(s: State, r: State, e: Entry) {
    if s.focused != Some(e.component) then r.focused == s.focused
    else if Topmost(r.stack).Some? then r.focused == Some(Topmost(r.stack).value.component)
    else !(s.restore.Blocked? && s.restore.blockedBy == e.component) ==> r.focused == e.preFocus
  }

  lemma RemoveMeans(s: State, i: nat)
    requires Consistent(s) && i < |s.stack|
    ensures var e := s.stack[i];
      var r := RemoveAt(s, i);
      Redirected(r.stack, Others(s.stack, e.id), e) && !Names(r.restore, e.id) && HandedOn(s, r, e)
  {
    hide FindId, SetFocusInternal, Topmost, TakenOff, Redirected, HandedOn, Names, Others, Consistent;
    var e, t := s.stack[i], TakenOff(s, i);
    var top := Topmost(t.stack);
    var c := if top.Some? then Some(top.value.component) else e.preFocus;
    StackRedirected(s, i);
    SameStack(t, c, Clear);
    GoneIsNotNamed(s, i, c);
    FocusHandedOn(s, i);
  }

  lemma StackRedirected(s: State, i: nat)
    requires Consistent(s) && i < |s.stack|
    ensures Redirected(TakenOff(s, i).stack, Others(s.stack, s.stack[i].id), s.stack[i])
  {
    hide FindId, Others, Without, Retarget;
    OthersWithout(s.stack, s.stack[i].id, i);
    var t := TakenOff(s, i);
    forall k | 0 <= k < |t.stack| ensures t.stack[k] == Retarget(s.stack, s.stack[i])[if k < i then k else k + 1] {
      WithoutAt(s.stack, i, k);
    }
  }

  lemma GoneIsNotNamed(s: State, i: nat, c: Option<Component>)
    requires Consistent(s) && i < |s.stack|
    ensures !Names(TakenOff(s, i).restore, s.stack[i].id)
    ensures !Names(SetFocus(TakenOff(s, i), c).restore, s.stack[i].id)
  {
    hide FindId, IsAncestor;
    var t := TakenOff(s, i);
    forall k | 0 <= k < |t.stack| ensures t.stack[k].id != s.stack[i].id { WithoutAt(s.stack, i, k); }
  }

  lemma FocusHandedOn(s: State, i: nat)
    requires Consistent(s) && i < |s.stack|
    ensures HandedOn(s, RemoveAt(s, i), s.stack[i])
  {
    hide FindId, IsAncestor, Topmost, Without, Consistent, IsOverlay;
    var e, t := s.stack[i], TakenOff(s, i);
    var top := Topmost(t.stack);
    SameStack(t, if top.Some? then Some(top.value.component) else e.preFocus, Clear);
    if top.Some? { TopmostLands(t, Clear); }
  }

  /** `handle.hide()` takes off its own overlay and no other; with none of that id it does nothing. */
  lemma HideMeans(s: State, id: nat)
    requires Consistent(s)
    ensures (forall e :: e in s.stack ==> e.id != id) ==> Hide(s, id) == s
    ensures forall e :: e in s.stack && e.id == id ==>
      var r := Hide(s, id);
      Redirected(r.stack, Others(s.stack, id), e) && !Names(r.restore, id) && HandedOn(s, r, e)
  {
    hide FindId, RemoveAt, Redirected, Names, HandedOn, Others;
    var i := FindId(s.stack, id);
    if i.Some? {
      assert s.stack[i.value] in s.stack;
      RemoveMeans(s, i.value);
    }
  }

  /** `hideOverlay()` takes off the one shown last. */
  lemma HideLastMeans(s: State)
    requires Consistent(s)
    ensures s.stack == [] ==> HideOverlay(s) == s
    ensures s.stack != [] ==>
      var e := s.stack[|s.stack| - 1];
      var r := HideOverlay(s);
      Redirected(r.stack, s.stack[..|s.stack| - 1], e) && !Names(r.restore, e.id) && HandedOn(s, r, e)
  {
    hide RemoveAt, Redirected, Names, HandedOn;
    if s.stack != [] {
      var n := |s.stack| - 1;
      RemoveMeans(s, n);
      OthersWithout(s.stack, s.stack[n].id, n);
      assert s.stack[..n] + s.stack[n + 1..] == s.stack[..n];
    }
  }

  /* ---------- Showing, raising, toggling and releasing ---------- */

  /** A shown overlay is the last entry, above all others, and takes the focus if it captures. */
  lemma ShowMeans(s: State, c: Component, capturing: bool)
    ensures var r := ShowOverlay(s, c, capturing);
      && r.stack == s.stack + [Entry(s.nextId, c, s.focused, capturing, false, s.orderCounter + 1)]
      && r.orderCounter == s.orderCounter + 1 && r.nextId == s.nextId + 1
      && (if capturing then r.focused == Some(c) else r.focused == s.focused && r.restore == s.restore)
  {
    hide IsAncestor, FindId, FindVisible;
    if capturing {
      var entry := Entry(s.nextId, c, s.focused, capturing, false, s.orderCounter + 1);
      assert (s.stack + [entry])[|s.stack|] == entry;
      assert IsOverlay(s.stack + [entry], c);
    }
  }

  /** Raising a visible overlay gives it the greatest focus order so far and the focus, and changes no other entry. */
  lemma RaiseMeans(s: State, i: nat)
    requires Consistent(s) && i < |s.stack|
    ensures var e := s.stack[i];
      var r := FocusOverlay(s, e.id);
      if e.hidden then r == s
      else
        && r.stack == s.stack[i := e.(focusOrder := s.orderCounter + 1)] && r.orderCounter == s.orderCounter + 1
        && r.focused == Some(e.component)
  {
    hide FindId, IsAncestor, FindVisible;
    IdFound(s.stack, s.stack[i]);
    if !s.stack[i].hidden {
      var raised := s.stack[i := s.stack[i].(focusOrder := s.orderCounter + 1)];
      assert raised[i] in raised;
    }
  }

  /** Asking for what an overlay is anyway does nothing; shown again, it is raised and focused if it captures. */
  lemma ToggleMeans(s: State, i: nat, hidden: bool)
    requires Consistent(s) && i < |s.stack|
    ensures var e := s.stack[i];
      var r := SetHidden(s, e.id, hidden);
      && (e.hidden == hidden ==> r == s)
      && (e.hidden && !hidden && e.capturing ==>
        r.stack == s.stack[i := e.(hidden := false, focusOrder := s.orderCounter + 1)]
        && r.orderCounter == s.orderCounter + 1 && r.focused == Some(e.component))
      && (e.hidden && !hidden && !e.capturing ==> r == s.(stack := s.stack[i := e.(hidden := false)]))
  {
    hide FindId, IsAncestor, FindVisible;
    IdFound(s.stack, s.stack[i]);
    var e := s.stack[i];
    if e.hidden && !hidden && e.capturing {
      var shown := s.stack[i := e.(hidden := false, focusOrder := s.orderCounter + 1)];
      assert shown[i] in shown;
    }
  }

  /** Handles of overlays that are gone do nothing. */
  lemma GoneDoesNothing(s: State, id: nat, hidden: bool, explicit: Option<Option<Component>>)
    requires forall e :: e in s.stack ==> e.id != id
    ensures FocusOverlay(s, id) == s && SetHidden(s, id, hidden) == s && Unfocus(s, id, explicit) == s
  {
  }

  /**
   * Released, a focused overlay hands the focus to the target named, or else to another overlay on top, or to
   * whom the focus was taken from, unless it blocks another one. Its entry stays as it is.
   */
  lemma ReleaseMeans(s: State, i: nat, explicit: Option<Option<Component>>)
    requires i < |s.stack| && FindId(s.stack, s.stack[i].id) == Some(i)
    requires s.focused == Some(s.stack[i].component) && !BlockerFocused(s)
    requires !(s.restore.Blocked? && Names(s.restore, s.stack[i].id))
    ensures var e := s.stack[i];
      var r := Unfocus(s, e.id, explicit);
      && r.stack == s.stack
      && r.focused ==
        if explicit.Some? then explicit.value
        else if Topmost(s.stack).Some? && Topmost(s.stack).value.id != e.id then Some(Topmost(s.stack).value.component)
        else e.preFocus
  {
    hide FindId, IsAncestor, FindVisible, Topmost;
  }

  /** An overlay that waits for the focus is no longer waited for, and the focus stays, unless a target is named. */
  lemma WaitingReleased(s: State, i: nat, target: Option<Component>)
    requires i < |s.stack| && FindId(s.stack, s.stack[i].id) == Some(i)
    requires s.focused != Some(s.stack[i].component) && Names(s.restore, s.stack[i].id)
    ensures Unfocus(s, s.stack[i].id, None) == s.(restore := Inactive)
    ensures !(s.restore.Blocked? && s.focused == Some(s.restore.blockedBy)) ==>
      Unfocus(s, s.stack[i].id, Some(target)).focused == target
  {
    hide FindId, IsAncestor, FindVisible, Topmost;
  }

  /** What neither has the focus nor waits for it is not released. */
  lemma NothingToRelease(s: State, id: nat, explicit: Option<Option<Component>>)
    requires !Names(s.restore, id) && forall e :: e in s.stack && e.id == id ==> s.focused != Some(e.component)
    ensures Unfocus(s, id, explicit) == s
  {
    hide FindId, IsAncestor, FindVisible, Topmost;
    var i := FindId(s.stack, id);
    assert i.Some? ==> s.stack[i.value] in s.stack;
  }

  /* ---------- When focus comes back ---------- */

  /** A component the overlay stands on may be focused, but the next input returns to the overlay. */
  lemma UnderneathDoesNotKeep(s: State, i: nat, c: Component)
    requires i < |s.stack| && HasFocus(s, i) && !IsOverlay(s.stack, c)
    requires exists n: nat :: After(s.stack, s.stack[i].preFocus, n) == Some(c)
    ensures var t := SetFocus(s, Some(c));
      t.focused == Some(c) && t.restore == s.restore && HasFocus(SettleFocus(t), i)
  {
    AncestorExactly(s.stack, s.stack[i].preFocus, c);
    hide FindId, IsAncestor, After;
    VisibleIsShown(s.stack, i);
    var t := SetFocus(s, Some(c));
    assert LeaveHidden(t) == t;
    assert VisibleRestore(t) == t.restore;
  }

  /** With nothing left to hand the focus to, a hidden overlay gives way to the visible one that was remembered. */
  lemma RememberedComesBack(s: State, i: nat, k: nat)
    requires i < |s.stack| && s.focused == Some(s.stack[i].component)
    requires FindComponent(s.stack, s.stack[i].component) == Some(s.stack[i])
    requires s.stack[i].hidden && s.stack[i].preFocus == None && Topmost(s.stack).None?
    requires k < |s.stack| && FindId(s.stack, s.stack[k].id) == Some(k) && !s.stack[k].hidden
    requires s.restore == Eligible(s.stack[k].id)
    ensures SettleFocus(s).focused == Some(s.stack[k].component)
  {
    hide FindId, IsAncestor, FindVisible, FindComponent, Topmost;
    VisibleIsShown(s.stack, k);
  }

  /** Focus given up for nothing by a component that blocks no overlay is forgotten: input brings nothing back. */
  lemma FocusGivenUp(s: State)
    requires !BlockerFocused(s)
    ensures var t := SetFocus(s, None);
      t == s.(focused := None, restore := Inactive, flagged := SetFlags(s, None)) && SettleFocus(t) == t
  {
    hide FindId, IsAncestor;
  }
}

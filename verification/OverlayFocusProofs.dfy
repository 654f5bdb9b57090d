/** Focus discipline over every run of showing, raising and hiding overlays. */
module OverlayFocusProofs {
  import opened Wrappers
  import opened OverlayFocus

  /* ---------- The discipline ---------- */

  /** Every entry is visible and captures; entries, components and focus orders are all different; none is the base. */
  ghost predicate Distinct(s: State, base: Option<Component>) {
    && (forall i :: 0 <= i < |s.stack| ==>
      var e := s.stack[i];
      !e.hidden && e.capturing && base != Some(e.component) && e.id < s.nextId && e.focusOrder <= s.orderCounter)
    && (forall i, j :: 0 <= i < j < |s.stack| ==>
      var (e, f) := (s.stack[i], s.stack[j]);
      e.id != f.id && e.component != f.component && e.focusOrder != f.focusOrder)
  }

  /** Focus given back by entry `i` goes to an earlier entry or to the base. */
  ghost predicate LinksDown(s: State, base: Option<Component>, i: nat)
    requires i < |s.stack|
  {
    var p := s.stack[i].preFocus;
    p == base || exists j :: 0 <= j < i && p == Some(s.stack[j].component)
  }

  /**
   * With overlays shown, the focus is on the one with the greatest focus order, which is the one to
   * restore; without, it is on the base. The focused component alone carries the flag.
   */
  ghost predicate Disciplined(s: State, base: Option<Component>) {
    && Distinct(s, base)
    && (forall i :: 0 <= i < |s.stack| ==> LinksDown(s, base, i))
    && (if s.stack == [] then s.focused == base && s.restore == Inactive
        else var top := Topmost(s.stack);
          top.Some? && s.focused == Some(top.value.component) && s.restore == Eligible(top.value.id))
    && s.flagged == (if s.focused.Some? then {s.focused.value} * s.focusable else {})
  }

  /** Entries are found by id, and by component. */
  lemma Lookups(s: State, base: Option<Component>, i: nat)
    requires Distinct(s, base) && i < |s.stack|
    ensures FindId(s.stack, s.stack[i].id) == Some(i)
    ensures FindVisible(s.stack, s.stack[i].component) == Some(s.stack[i])
    ensures IsOverlay(s.stack, s.stack[i].component)
  {
    assert s.stack[i] in s.stack;
  }

  lemma TopmostIs(s: State, base: Option<Component>, i: nat)
    requires Distinct(s, base) && i < |s.stack|
    requires forall j :: 0 <= j < |s.stack| ==> s.stack[j].focusOrder <= s.stack[i].focusOrder
    ensures Topmost(s.stack) == Some(s.stack[i])
  {
    assert s.stack[i] in s.stack;
  }

  /** Setting the focus to a stacked overlay. */
  lemma FocusStacked(s: State, base: Option<Component>, i: nat)
    requires Distinct(s, base) && i < |s.stack|
    requires s.flagged == (if s.focused.Some? then {s.focused.value} * s.focusable else {})
    ensures var c := s.stack[i].component;
      SetFocus(s, Some(c)) ==
        s.(focused := Some(c), flagged := {c} * s.focusable, restore := Eligible(s.stack[i].id))
  {
    Lookups(s, base, i);
  }

  /** Setting the focus to the base when no overlay is left. */
  lemma FocusBase(s: State, base: Option<Component>)
    requires s.stack == [] && s.restore == Inactive
    requires s.flagged == (if s.focused.Some? then {s.focused.value} * s.focusable else {})
    ensures SetFocus(s, base) ==
      s.(focused := base, flagged := if base.Some? then {base.value} * s.focusable else {}, restore := Inactive)
  {
  }

  /* ---------- Every operation keeps it ---------- */

  /** `entry` added on top, under the focused component. */
  function Pushed(s: State, c: Component): State {
    var entry := Entry(s.nextId, c, s.focused, true, false, s.orderCounter + 1);
    s.(stack := s.stack + [entry], orderCounter := s.orderCounter + 1, nextId := s.nextId + 1)
  }

  lemma PushedLinks(s: State, base: Option<Component>, c: Component)
    requires Disciplined(s, base)
    ensures var t := Pushed(s, c); forall i :: 0 <= i < |t.stack| ==> LinksDown(t, base, i)
  {
    hide Topmost, Distinct;
    var t := Pushed(s, c);
    var n := |s.stack|;
    forall i | 0 <= i <= n ensures LinksDown(t, base, i) {
      if i < n {
        assert LinksDown(s, base, i);
        if s.stack[i].preFocus != base {
          var j :| 0 <= j < i && s.stack[i].preFocus == Some(s.stack[j].component);
          assert t.stack[j] == s.stack[j];
        }
      } else if s.stack != [] {
        var top := Topmost(s.stack).value;
        var j :| 0 <= j < n && s.stack[j] == top;
        assert t.stack[j] == s.stack[j];
      }
    }
  }

  lemma PushedDistinct(s: State, base: Option<Component>, c: Component)
    requires Distinct(s, base) && !IsOverlay(s.stack, c) && base != Some(c)
    ensures Distinct(Pushed(s, c), base)
  {
    assert forall i :: 0 <= i < |s.stack| ==> s.stack[i] in s.stack;
  }

  /** With entry `i` on top and in focus, the rest of the discipline is the shape of the stack. */
  lemma FocusedOnTop(t: State, base: Option<Component>, i: nat)
    requires Distinct(t, base) && i < |t.stack|
    requires forall k :: 0 <= k < |t.stack| ==> LinksDown(t, base, k)
    requires forall j :: 0 <= j < |t.stack| ==> t.stack[j].focusOrder <= t.stack[i].focusOrder
    requires t.flagged == (if t.focused.Some? then {t.focused.value} * t.focusable else {})
    ensures Disciplined(SetFocus(t, Some(t.stack[i].component)), base)
    ensures SetFocus(t, Some(t.stack[i].component)).focused == Some(t.stack[i].component)
  {
    hide SetFocusInternal, Topmost;
    FocusStacked(t, base, i);
    TopmostIs(t, base, i);
    var r := SetFocus(t, Some(t.stack[i].component));
    forall k | 0 <= k < |r.stack| ensures LinksDown(r, base, k) { assert LinksDown(t, base, k); }
  }

  lemma ShowKeeps(s: State, base: Option<Component>, c: Component)
    requires Disciplined(s, base) && !IsOverlay(s.stack, c) && base != Some(c)
    ensures Disciplined(ShowOverlay(s, c, true), base)
    ensures ShowOverlay(s, c, true).focused == Some(c)
  {
    hide SetFocusInternal, Topmost, LinksDown, IsOverlay;
    PushedLinks(s, base, c);
    PushedDistinct(s, base, c);
    FocusedOnTop(Pushed(s, c), base, |s.stack|);
  }

  /** Entry `i` raised above all others. */
  function Raised(s: State, i: nat): State
    requires i < |s.stack|
  {
    s.(stack := s.stack[i := s.stack[i].(focusOrder := s.orderCounter + 1)], orderCounter := s.orderCounter + 1)
  }

  lemma RaisedShape(s: State, base: Option<Component>, i: nat)
    requires Disciplined(s, base) && i < |s.stack|
    ensures var t := Raised(s, i);
      && Distinct(t, base)
      && (forall k :: 0 <= k < |t.stack| ==> LinksDown(t, base, k))
      && (forall j :: 0 <= j < |t.stack| ==> t.stack[j].focusOrder <= t.stack[i].focusOrder)
  {
    hide Topmost;
    var t := Raised(s, i);
    assert forall k :: 0 <= k < |t.stack| ==>
      t.stack[k].component == s.stack[k].component && t.stack[k].preFocus == s.stack[k].preFocus;
    forall k | 0 <= k < |t.stack| ensures LinksDown(t, base, k) {
      assert LinksDown(s, base, k);
    }
  }

  lemma FocusKeeps(s: State, base: Option<Component>, id: nat)
    requires Disciplined(s, base)
    ensures Disciplined(FocusOverlay(s, id), base)
    ensures forall i :: 0 <= i < |s.stack| && s.stack[i].id == id ==>
      FocusOverlay(s, id).focused == Some(s.stack[i].component)
  {
    hide SetFocusInternal, Topmost, LinksDown, FindId;
    var found := FindId(s.stack, id);
    assert forall i :: 0 <= i < |s.stack| ==> s.stack[i] in s.stack;
    if found.Some? {
      RaisedShape(s, base, found.value);
      FocusedOnTop(Raised(s, found.value), base, found.value);
    }
  }

  lemma WithoutLinks(s: State, base: Option<Component>, i: nat)
    requires Distinct(s, base) && i < |s.stack|
    requires forall k :: 0 <= k < |s.stack| ==> LinksDown(s, base, k)
    ensures var t := s.(stack := Without(s.stack, i));
      Distinct(t, base) && forall k :: 0 <= k < |t.stack| ==> LinksDown(t, base, k)
  {
    hide Without, Distinct, LinksDown, Retarget;
    var t := s.(stack := Without(s.stack, i));
    WithoutDistinct(s, base, i);
    forall k | 0 <= k < |t.stack| ensures LinksDown(t, base, k) { WithoutLink(s, base, i, k); }
  }

  lemma WithoutDistinct(s: State, base: Option<Component>, i: nat)
    requires Distinct(s, base) && i < |s.stack|
    ensures Distinct(s.(stack := Without(s.stack, i)), base)
  {
    hide Without;
    forall k | 0 <= k < |s.stack| - 1
      ensures var e := Without(s.stack, i)[k]; var f := s.stack[if k < i then k else k + 1];
        e == f.(preFocus := e.preFocus)
    {
      WithoutAt(s.stack, i, k);
    }
  }

  lemma WithoutLink(s: State, base: Option<Component>, i: nat, k: nat)
    requires Distinct(s, base) && i < |s.stack| && k < |s.stack| - 1
    requires forall k :: 0 <= k < |s.stack| ==> LinksDown(s, base, k)
    ensures LinksDown(s.(stack := Without(s.stack, i)), base, k)
  {
    hide Without, Distinct, Retarget;
    var k0 := if k < i then k else k + 1;
    LinkWithout(s, base, i, k0);
    WithoutAt(s.stack, i, k);
    var p := Without(s.stack, i)[k].preFocus;
    if p != base {
      var j :| 0 <= j < k0 && j != i && p == Some(s.stack[j].component);
      WithoutAt(s.stack, i, if j < i then j else j - 1);
    }
  }

  /** Once redirected, entry `k` links to the base or to an entry below it other than `i`. */
  lemma LinkWithout(s: State, base: Option<Component>, i: nat, k: nat)
    requires Distinct(s, base) && i < |s.stack| && k < |s.stack| && k != i
    requires forall k :: 0 <= k < |s.stack| ==> LinksDown(s, base, k)
    ensures var p := Retarget(s.stack, s.stack[i])[k].preFocus;
      p == base || exists j :: 0 <= j < k && j != i && p == Some(s.stack[j].component)
  {
    assert LinksDown(s, base, k) && LinksDown(s, base, i);
    var p := s.stack[k].preFocus;
    if p == Some(s.stack[i].component) {
      var j :| 0 <= j < k && p == Some(s.stack[j].component);
      assert j == i;
      var q := s.stack[i].preFocus;
      if q != base {
        var m :| 0 <= m < i && q == Some(s.stack[m].component);
        assert m < k && m != i;
      }
    } else if p != base {
      var j :| 0 <= j < k && p == Some(s.stack[j].component);
      assert j != i;
    }
  }

  lemma RemovedShape(s: State, base: Option<Component>, i: nat)
    requires Disciplined(s, base) && i < |s.stack|
    ensures var t := TakenOff(s, i);
      Distinct(t, base) && forall k :: 0 <= k < |t.stack| ==> LinksDown(t, base, k)
  {
    hide Topmost, Without;
    WithoutLinks(s, base, i);
    var t := TakenOff(s, i);
    var u := s.(stack := Without(s.stack, i));
    forall k | 0 <= k < |t.stack| ensures LinksDown(t, base, k) { assert LinksDown(u, base, k); }
  }

  /** Removing an overlay: the next one down takes the focus, or the base does when it was the last. */
  lemma RemoveKeeps(s: State, base: Option<Component>, i: nat)
    requires Disciplined(s, base) && i < |s.stack|
    ensures Disciplined(RemoveAt(s, i), base)
    ensures |RemoveAt(s, i).stack| == |s.stack| - 1
  {
    hide Disciplined, RemoveAt, TakenOff, SetFocusInternal;
    if |s.stack| == 1 { RemoveLast(s, base); }
    else if s.focused == Some(s.stack[i].component) { RemoveFocused(s, base, i); }
    else { RemoveOther(s, base, i); }
  }

  lemma RemoveLast(s: State, base: Option<Component>)
    requires Disciplined(s, base) && |s.stack| == 1
    ensures Disciplined(RemoveAt(s, 0), base) && RemoveAt(s, 0).stack == []
  {
    hide SetFocusInternal, Topmost, LinksDown, Retarget;
    LastOne(s, base);
    NoTop();
    FocusBase(TakenOff(s, 0), base);
  }

  lemma RemoveFocused(s: State, base: Option<Component>, i: nat)
    requires Disciplined(s, base) && i < |s.stack| && |s.stack| > 1 && s.focused == Some(s.stack[i].component)
    ensures Disciplined(RemoveAt(s, i), base)
    ensures |RemoveAt(s, i).stack| == |s.stack| - 1
  {
    hide SetFocusInternal, Topmost, LinksDown, Without;
    RemovedShape(s, base, i);
    var t := TakenOff(s, i);
    TopHolds(t, base);
    var k :| 0 <= k < |t.stack| && t.stack[k] == Topmost(t.stack).value;
    forall j | 0 <= j < |t.stack| ensures t.stack[j].focusOrder <= t.stack[k].focusOrder { OrderBelowTop(t, base, j); }
    assert t.flagged == s.flagged && t.focused == s.focused && t.focusable == s.focusable;
    FocusedOnTop(t, base, k);
    assert RemoveAt(s, i) == SetFocus(t, Some(t.stack[k].component));
    FocusStacked(t, base, k);
  }

  lemma RemoveOther(s: State, base: Option<Component>, i: nat)
    requires Disciplined(s, base) && i < |s.stack| && |s.stack| > 1 && s.focused != Some(s.stack[i].component)
    ensures Disciplined(RemoveAt(s, i), base)
    ensures |RemoveAt(s, i).stack| == |s.stack| - 1
  {
    hide SetFocusInternal, Topmost, LinksDown, Without, Distinct;
    RemovedShape(s, base, i);
    TopStays(s, TakenOff(s, i), base, i);
    OtherId(s, base, i);
  }

  /** An overlay other than the topmost is not the one to restore. */
  lemma OtherId(s: State, base: Option<Component>, i: nat)
    requires Distinct(s, base) && i < |s.stack| && Topmost(s.stack).Some?
    requires Topmost(s.stack).value.component != s.stack[i].component
    ensures Topmost(s.stack).value.id != s.stack[i].id
  {
    hide Topmost;
    var k :| 0 <= k < |s.stack| && s.stack[k] == Topmost(s.stack).value;
  }

  /** A single overlay has the focus, and gives it back to the base. */
  lemma LastOne(s: State, base: Option<Component>)
    requires Disciplined(s, base) && |s.stack| == 1
    ensures s.focused == Some(s.stack[0].component) && s.stack[0].preFocus == base && s.restore == Eligible(s.stack[0].id)
  {
    assert LinksDown(s, base, 0);
    assert s.stack[0] in s.stack;
  }

  lemma NoTop()
    ensures Topmost([]) == None
  {
  }

  lemma TopHolds(s: State, base: Option<Component>)
    requires Distinct(s, base) && s.stack != []
    ensures Topmost(s.stack).Some? && exists k :: 0 <= k < |s.stack| && s.stack[k] == Topmost(s.stack).value
  {
    assert s.stack[0] in s.stack;
  }

  /** What is left keeps everything but its link. */
  lemma WithoutAt(stack: seq<Entry>, i: nat, k: nat)
    requires i < |stack| && k < |stack| - 1
    ensures var e := Without(stack, i)[k]; var k0 := if k < i then k else k + 1;
      && e == stack[k0].(preFocus := e.preFocus)
      && e.preFocus == Retarget(stack, stack[i])[k0].preFocus
  {
  }

  /** Removing an overlay other than the topmost leaves the topmost on top. */
  lemma TopStays(s: State, t: State, base: Option<Component>, i: nat)
    requires Distinct(s, base) && Distinct(t, base) && i < |s.stack| && t.stack == Without(s.stack, i)
    requires Topmost(s.stack).Some? && Topmost(s.stack).value.component != s.stack[i].component
    ensures Topmost(t.stack).Some?
    ensures Topmost(t.stack).value.id == Topmost(s.stack).value.id
    ensures Topmost(t.stack).value.component == Topmost(s.stack).value.component
  {
    hide Topmost, Without, Retarget, Distinct;
    var top := Topmost(s.stack).value;
    var k0 :| 0 <= k0 < |s.stack| && s.stack[k0] == top;
    var k := if k0 < i then k0 else k0 - 1;
    WithoutAt(s.stack, i, k);
    forall j | 0 <= j < |t.stack| ensures t.stack[j].focusOrder <= t.stack[k].focusOrder {
      OrderStays(s, t, base, i, j);
    }
    TopmostIs(t, base, k);
  }

  lemma OrderStays(s: State, t: State, base: Option<Component>, i: nat, j: nat)
    requires Distinct(s, base) && i < |s.stack| && t.stack == Without(s.stack, i) && j < |t.stack|
    requires Topmost(s.stack).Some?
    ensures t.stack[j].focusOrder <= Topmost(s.stack).value.focusOrder
  {
    hide Topmost, Without, Distinct;
    WithoutAt(s.stack, i, j);
    OrderBelowTop(s, base, if j < i then j else j + 1);
  }

  lemma OrderBelowTop(s: State, base: Option<Component>, j: nat)
    requires Distinct(s, base) && j < |s.stack| && Topmost(s.stack).Some?
    ensures s.stack[j].focusOrder <= Topmost(s.stack).value.focusOrder
  {
    assert s.stack[j] in s.stack;
  }

  /* ---------- Whole runs ---------- */

  datatype Op =
    | Show(component: Component)
    | Raise(id: nat)
    | HideOne(id: nat)
    | HideLast

  function Do(s: State, op: Op): State {
    match op
    case Show(c) => ShowOverlay(s, c, true)
    case Raise(id) => FocusOverlay(s, id)
    case HideOne(id) => Hide(s, id)
    case HideLast => HideOverlay(s)
  }

  /** The component shown is not shown already, and is not the one that had the focus to begin with. */
  predicate FreshShow(s: State, base: Option<Component>, op: Op) {
    op.Show? ==> !IsOverlay(s.stack, op.component) && base != Some(op.component)
  }

  lemma DoKeeps(s: State, base: Option<Component>, op: Op)
    requires Disciplined(s, base) && FreshShow(s, base, op)
    ensures Disciplined(Do(s, op), base)
  {
    hide Disciplined;
    match op
    case Show(c) => ShowKeeps(s, base, c);
    case Raise(id) => FocusKeeps(s, base, id);
    case HideOne(id) =>
      var i := FindId(s.stack, id);
      if i.Some? { RemoveKeeps(s, base, i.value); }
    case HideLast =>
      if s.stack != [] { RemoveKeeps(s, base, |s.stack| - 1); }
  }

  /** The states along a run. */
  ghost predicate IsRun(ss: seq<State>, base: Option<Component>, ops: seq<Op>) {
    && |ss| == |ops| + 1
    && ss[0].stack == [] && ss[0].restore == Inactive && ss[0].focused == base
    && ss[0].flagged == (if base.Some? then {base.value} * ss[0].focusable else {})
    && forall i :: 0 <= i < |ops| ==> FreshShow(ss[i], base, ops[i]) && ss[i + 1] == Do(ss[i], ops[i])
  }

  /**
   * After any number of overlays have been shown, raised and hidden in any order: while any is left, the
   * focus is on the one with the greatest focus order; when none is left, it is back where it was.
   */
  lemma {:induction false} FocusDiscipline(ss: seq<State>, base: Option<Component>, ops: seq<Op>, k: nat)
    requires IsRun(ss, base, ops) && k <= |ops|
    ensures Disciplined(ss[k], base)
    ensures ss[k].stack == [] ==> ss[k].focused == base
    ensures forall e :: e in ss[k].stack ==> exists top ::
      top in ss[k].stack && ss[k].focused == Some(top.component) && e.focusOrder <= top.focusOrder
  {
    hide Do, FreshShow;
    if k > 0 {
      FocusDiscipline(ss, base, ops, k - 1);
      DoKeeps(ss[k - 1], base, ops[k - 1]);
    }
    TopCarriesFocus(ss[k], base);
  }

  lemma TopCarriesFocus(s: State, base: Option<Component>)
    requires Disciplined(s, base)
    ensures forall e :: e in s.stack ==> exists top ::
      top in s.stack && s.focused == Some(top.component) && e.focusOrder <= top.focusOrder
  {
    if s.stack != [] {
      var top := Topmost(s.stack).value;
      forall e | e in s.stack ensures exists t :: t in s.stack && s.focused == Some(t.component) && e.focusOrder <= t.focusOrder {
        assert top in s.stack;
      }
    }
  }

  /* ---------- Every operation at all ---------- */

  /**
   * What holds even with overlays that are hidden for a while, do not capture, or share components, and
   * with focus set and released at will: the restore state never names an overlay that is gone, at most
   * the focused component carries the flag, and ids stay unique.
   */
  ghost predicate Consistent(s: State) {
    && (s.restore.Inactive? || FindId(s.stack, s.restore.overlay).Some?)
    && s.flagged == (if s.focused.Some? then {s.focused.value} * s.focusable else {})
    && (forall i :: 0 <= i < |s.stack| ==> s.stack[i].id < s.nextId)
    && (forall i, j :: 0 <= i < j < |s.stack| ==> s.stack[i].id != s.stack[j].id)
  }

  lemma IdFound(stack: seq<Entry>, e: Entry)
    requires e in stack
    ensures FindId(stack, e.id).Some?
  {
  }

  lemma SetFocusConsistent(s: State, c: Option<Component>, policy: Policy)
    requires Consistent(s)
    ensures Consistent(SetFocusInternal(s, c, policy))
    ensures SetFocusInternal(s, c, policy).stack == s.stack
  {
    hide IsAncestor, FindId;
    var d := Decide(s, c, policy);
    var overlay := if d.next.Some? then FindVisible(s.stack, d.next.value) else None;
    if overlay.Some? { IdFound(s.stack, overlay.value); }
    var previous := if s.focused.Some? then FindVisible(s.stack, s.focused.value) else None;
    if previous.Some? { IdFound(s.stack, previous.value); }
  }

  lemma {:induction false} SameIds(a: seq<Entry>, b: seq<Entry>, id: nat)
    requires |a| == |b| && forall i :: 0 <= i < |a| ==> a[i].id == b[i].id
    ensures FindId(a, id) == FindId(b, id)
  {
    if a != [] { SameIds(a[..|a| - 1], b[..|b| - 1], id); }
  }

  lemma UpdateConsistent(s: State, i: nat, e: Entry, counter: nat)
    requires Consistent(s) && i < |s.stack| && e.id == s.stack[i].id
    ensures Consistent(s.(stack := s.stack[i := e], orderCounter := counter))
  {
    if !s.restore.Inactive? { SameIds(s.stack, s.stack[i := e], s.restore.overlay); }
  }

  lemma ShowConsistent(s: State, c: Component, capturing: bool)
    requires Consistent(s)
    ensures Consistent(ShowOverlay(s, c, capturing))
  {
    hide SetFocusInternal, FindId;
    var entry := Entry(s.nextId, c, s.focused, capturing, false, s.orderCounter + 1);
    var pushed := s.(stack := s.stack + [entry], orderCounter := s.orderCounter + 1, nextId := s.nextId + 1);
    if !s.restore.Inactive? {
      var i := FindId(s.stack, s.restore.overlay).value;
      IdFound(pushed.stack, pushed.stack[i]);
    }
    assert Consistent(pushed);
    if capturing { SetFocusConsistent(pushed, Some(c), Clear); }
  }

  lemma TakenOffConsistent(s: State, i: nat)
    requires Consistent(s) && i < |s.stack|
    ensures Consistent(TakenOff(s, i))
  {
    hide FindId, Without, Retarget;
    var t := TakenOff(s, i);
    forall k | 0 <= k < |t.stack| ensures t.stack[k].id == s.stack[if k < i then k else k + 1].id { WithoutAt(s.stack, i, k); }
    if !t.restore.Inactive? {
      var j := FindId(s.stack, s.restore.overlay).value;
      assert j != i;
      IdFound(t.stack, t.stack[if j < i then j else j - 1]);
    }
  }

  lemma RemoveConsistent(s: State, i: nat)
    requires Consistent(s) && i < |s.stack|
    ensures Consistent(RemoveAt(s, i))
  {
    hide SetFocusInternal, Topmost, TakenOff, Consistent;
    TakenOffConsistent(s, i);
    var t := TakenOff(s, i);
    var top := Topmost(t.stack);
    SetFocusConsistent(t, if top.Some? then Some(top.value.component) else s.stack[i].preFocus, Clear);
  }

  lemma RestoredIsStacked(s: State)
    requires Consistent(s)
    ensures s.restore.Inactive? || exists k :: 0 <= k < |s.stack| && s.stack[k].id == s.restore.overlay
  {
    hide FindId;
    if !s.restore.Inactive? {
      var k := FindId(s.stack, s.restore.overlay).value;
      assert s.stack[k].id == s.restore.overlay;
    }
  }

  lemma HiddenConsistent(s: State, id: nat, hidden: bool)
    requires Consistent(s)
    ensures Consistent(SetHidden(s, id, hidden))
  {
    hide SetFocusInternal, FindId, Topmost;
    var i := FindId(s.stack, id);
    if i.Some? && s.stack[i.value].hidden != hidden {
      var e := s.stack[i.value];
      if hidden {
        UpdateConsistent(s, i.value, e.(hidden := true), s.orderCounter);
        var t := ClearRestoreFor(s.(stack := s.stack[i.value := e.(hidden := true)]), id);
        var top := Topmost(t.stack);
        SetFocusConsistent(t, if top.Some? then Some(top.value.component) else e.preFocus, Clear);
      } else {
        UpdateConsistent(s, i.value, e.(hidden := false, focusOrder := s.orderCounter + 1), s.orderCounter + 1);
        UpdateConsistent(s, i.value, e.(hidden := false), s.orderCounter);
        SetFocusConsistent(s.(
          stack := s.stack[i.value := e.(hidden := false, focusOrder := s.orderCounter + 1)],
          orderCounter := s.orderCounter + 1), Some(e.component), Clear);
      }
    }
  }

  lemma RaiseConsistent(s: State, id: nat)
    requires Consistent(s)
    ensures Consistent(FocusOverlay(s, id))
  {
    hide SetFocusInternal, FindId;
    var i := FindId(s.stack, id);
    if i.Some? {
      var e := s.stack[i.value];
      UpdateConsistent(s, i.value, e.(focusOrder := s.orderCounter + 1), s.orderCounter + 1);
      SetFocusConsistent(s.(
        stack := s.stack[i.value := e.(focusOrder := s.orderCounter + 1)],
        orderCounter := s.orderCounter + 1), Some(e.component), Clear);
    }
  }

  lemma UnfocusConsistent(s: State, id: nat, explicit: Option<Option<Component>>)
    requires Consistent(s)
    ensures Consistent(Unfocus(s, id, explicit))
  {
    hide SetFocusInternal, FindId, Topmost;
    var i := FindId(s.stack, id);
    if i.Some? {
      var e := s.stack[i.value];
      var cleared := ClearRestoreFor(s, id);
      var top := Topmost(s.stack);
      var fallback := if top.Some? && top.value.id != id then Some(top.value.component) else e.preFocus;
      SetFocusConsistent(cleared, if explicit.Some? then explicit.value else fallback, Clear);
    }
  }

  lemma LeaveHiddenConsistent(s: State)
    requires Consistent(s)
    ensures Consistent(LeaveHidden(s))
  {
    hide SetFocusInternal, FindId, Topmost, FindComponent, Consistent;
    var h := if s.focused.Some? then FindComponent(s.stack, s.focused.value) else None;
    var top := Topmost(s.stack);
    if top.Some? { SetFocusConsistent(s, Some(top.value.component), Clear); }
    if h.Some? { SetFocusConsistent(s, h.value.preFocus, Preserve); }
  }

  lemma ResumeConsistent(s: State)
    requires Consistent(s)
    ensures Consistent(ResumeOverlay(s))
  {
    hide SetFocusInternal, FindId, Topmost, IsOverlay;
    var visible := VisibleRestore(s);
    if !visible.Inactive? {
      SetFocusConsistent(s, Some(s.stack[FindId(s.stack, visible.overlay).value].component), Clear);
      if visible.Blocked? && visible.resume.FocusTarget? {
        SetFocusConsistent(s.(restore := Inactive), visible.resume.target, Clear);
      }
    }
  }

  datatype AnyOp =
    | Showing(component: Component, capturing: bool)
    | Raising(id: nat)
    | Hiding(id: nat)
    | HidingLast
    | Toggling(id: nat, hidden: bool)
    | Releasing(id: nat, explicit: Option<Option<Component>>)
    | Setting(target: Option<Component>)
    | Input

  function Apply(s: State, op: AnyOp): State {
    match op
    case Showing(c, capturing) => ShowOverlay(s, c, capturing)
    case Raising(id) => FocusOverlay(s, id)
    case Hiding(id) => Hide(s, id)
    case HidingLast => HideOverlay(s)
    case Toggling(id, hidden) => SetHidden(s, id, hidden)
    case Releasing(id, explicit) => Unfocus(s, id, explicit)
    case Setting(c) => SetFocus(s, c)
    case Input => SettleFocus(s)
  }

  function ApplyAll(s: State, ops: seq<AnyOp>): State {
    if ops == [] then s else Apply(ApplyAll(s, ops[..|ops| - 1]), ops[|ops| - 1])
  }

  /** No sequence of operations whatever makes the interface remember an overlay that is gone, or two focused components. */
  lemma {:induction false} AlwaysConsistent(s: State, ops: seq<AnyOp>)
    requires Consistent(s)
    ensures Consistent(ApplyAll(s, ops))
    ensures var t := ApplyAll(s, ops);
      && (t.restore.Inactive? || exists k :: 0 <= k < |t.stack| && t.stack[k].id == t.restore.overlay)
      && forall c, d :: c in t.flagged && d in t.flagged ==> c == d
  {
    hide Consistent;
    if ops != [] {
      AlwaysConsistent(s, ops[..|ops| - 1]);
      var t := ApplyAll(s, ops[..|ops| - 1]);
      match ops[|ops| - 1] {
        case Showing(c, capturing) => ShowConsistent(t, c, capturing);
        case Raising(id) => RaiseConsistent(t, id);
        case Hiding(id) =>
          var i := FindId(t.stack, id);
          if i.Some? { RemoveConsistent(t, i.value); }
        case HidingLast => if t.stack != [] { RemoveConsistent(t, |t.stack| - 1); }
        case Toggling(id, hidden) => HiddenConsistent(t, id, hidden);
        case Releasing(id, explicit) => UnfocusConsistent(t, id, explicit);
        case Setting(c) => SetFocusConsistent(t, c, Clear);
        case Input =>
          LeaveHiddenConsistent(t);
          ResumeConsistent(LeaveHidden(t));
      }
    }
    RestoredIsStacked(ApplyAll(s, ops));
    OneFlag(ApplyAll(s, ops));
  }

  lemma OneFlag(s: State)
    requires Consistent(s)
    ensures forall c, d :: c in s.flagged && d in s.flagged ==> c == d
  {
  }
}

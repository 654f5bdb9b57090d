/**
 * Overlay focus: which component has the focus while overlays are shown, raised and hidden, and what
 * the interface remembers in order to give focus back.
 */
module OverlayFocus {
  import opened Wrappers

  type Component = nat

  /** A stacked overlay. `id` is its identity, which handles and the restore state refer to. */
  datatype Entry = Entry(
    id: nat, component: Component, preFocus: Option<Component>, capturing: bool, hidden: bool, focusOrder: nat)

  datatype Resume = RestoreOverlay | FocusTarget(target: Option<Component>)

  datatype Restore =
    | Inactive
    | Eligible(overlay: nat)
    | Blocked(overlay: nat, blockedBy: Component, resume: Resume)

  /** `flagged` are the components whose `focused` flag is set, `focusable` those that have such a flag. */
  datatype State = State(
    stack: seq<Entry>,
    focused: Option<Component>,
    restore: Restore,
    orderCounter: nat,
    nextId: nat,
    flagged: set<Component>,
    focusable: set<Component>,
    mounted: set<Component>)

  datatype Policy = Clear | Preserve

  /* ---------- Looking things up ---------- */

  /** The first visible entry that shows `c`. */
  function FindVisible(stack: seq<Entry>, c: Component): (r: Option<Entry>)
    ensures r.Some? ==> r.value in stack && r.value.component == c && !r.value.hidden
    ensures r.None? ==> forall e :: e in stack && e.component == c ==> e.hidden
  {
    if stack == [] then None
    else if stack[0].component == c && !stack[0].hidden then Some(stack[0])
    else FindVisible(stack[1..], c)
  }

  function FindComponent(stack: seq<Entry>, c: Component): (r: Option<Entry>)
    ensures r.Some? ==> r.value in stack && r.value.component == c
    ensures r.None? ==> forall e :: e in stack ==> e.component != c
  {
    if stack == [] then None
    else if stack[0].component == c then Some(stack[0])
    else FindComponent(stack[1..], c)
  }

  function FindId(stack: seq<Entry>, id: nat): (r: Option<nat>)
    ensures r.Some? ==> r.value < |stack| && stack[r.value].id == id
    ensures r.None? ==> forall e :: e in stack ==> e.id != id
    decreases |stack|
  {
    if stack == [] then None
    else if stack[|stack| - 1].id == id && FindId(stack[..|stack| - 1], id).None? then Some(|stack| - 1)
    else FindId(stack[..|stack| - 1], id)
  }

  predicate IsOverlay(stack: seq<Entry>, c: Component) {
    exists e :: e in stack && e.component == c
  }

  /** The visible capturing overlay with the greatest focus order; of equal ones the first. */
  function Topmost(stack: seq<Entry>): (r: Option<Entry>)
    ensures r.Some? ==> r.value in stack && r.value.capturing && !r.value.hidden
    ensures r.Some? ==> forall e :: e in stack && e.capturing && !e.hidden ==> e.focusOrder <= r.value.focusOrder
    ensures r.None? ==> forall e :: e in stack ==> !e.capturing || e.hidden
  {
    if stack == [] then None
    else
      var best := Topmost(stack[..|stack| - 1]);
      var e := stack[|stack| - 1];
      if e.capturing && !e.hidden && (best.None? || e.focusOrder > best.value.focusOrder) then Some(e) else best
  }

  /** The restore state, as long as its overlay is stacked and visible. */
  function VisibleRestore(s: State): Restore {
    if s.restore.Inactive? then Inactive
    else
      var i := FindId(s.stack, s.restore.overlay);
      if i.Some? && !s.stack[i.value].hidden then s.restore else Inactive
  }

  function Components(stack: seq<Entry>): set<Component> {
    set e | e in stack :: e.component
  }

  /** Whether `target` is met on the way from `current` along the `preFocus` links. */
  function IsAncestor(stack: seq<Entry>, current: Option<Component>, target: Component, visited: set<Component>): bool
    decreases Components(stack) - visited
  {
    if current.None? || current.value in visited then false
    else if current.value == target then true
    else
      match FindComponent(stack, current.value)
      case None => false
      case Some(e) =>
        assert current.value in Components(stack);
        IsAncestor(stack, e.preFocus, target, visited + {current.value})
  }

  /* ---------- Setting the focus ---------- */

  datatype Decision = Decision(next: Option<Component>, restore: Restore)

  function ResolveResume(s: State, b: Restore): Decision
    requires b.Blocked?
  {
    if b.resume.RestoreOverlay? then
      var i := FindId(s.stack, b.overlay);
      Decision(if i.Some? then Some(s.stack[i.value].component) else None, s.restore)
    else Decision(b.resume.target, Inactive)
  }

  /** Where the focus goes when `component` is asked for, and what is remembered. */
  function Decide(s: State, component: Option<Component>, policy: Policy): Decision {
    var visible := VisibleRestore(s);
    if component.Some? && !IsOverlay(s.stack, component.value) then
      var previous := if s.focused.Some? then FindVisible(s.stack, s.focused.value) else None;
      if visible.Blocked? && s.focused == Some(visible.blockedBy) then
        if visible.resume.FocusTarget? || visible.blockedBy !in s.mounted then ResolveResume(s, visible)
        else Decision(component, visible.(blockedBy := component.value))
      else if previous.Some? && !visible.Inactive? && visible.overlay == previous.value.id
        && !IsAncestor(s.stack, previous.value.preFocus, component.value, {})
      then Decision(component, Blocked(previous.value.id, component.value, RestoreOverlay))
      else Decision(component, s.restore)
    else if component.None? then
      if visible.Blocked? && s.focused == Some(visible.blockedBy) then ResolveResume(s, visible)
      else Decision(None, if policy == Clear then Inactive else s.restore)
    else Decision(component, s.restore)
  }

  function SetFlags(s: State, next: Option<Component>): set<Component> {
    var cleared := if s.focused.Some? then s.flagged - {s.focused.value} else s.flagged;
    if next.Some? && next.value in s.focusable then cleared + {next.value} else cleared
  }

  function SetFocusInternal(s: State, component: Option<Component>, policy: Policy): State {
    var d := Decide(s, component, policy);
    var overlay := if d.next.Some? then FindVisible(s.stack, d.next.value) else None;
    s.(focused := d.next,
       flagged := SetFlags(s, d.next),
       restore := if overlay.Some? then Eligible(overlay.value.id) else d.restore)
  }

  function SetFocus(s: State, component: Option<Component>): State {
    SetFocusInternal(s, component, Clear)
  }

  /* ---------- Showing and hiding ---------- */

  function ClearRestoreFor(s: State, id: nat): State {
    if !s.restore.Inactive? && s.restore.overlay == id then s.(restore := Inactive) else s
  }

  /** Whoever would give focus back to the removed overlay gives it to whom that one would. */
  function Retarget(stack: seq<Entry>, removed: Entry): (r: seq<Entry>)
    ensures |r| == |stack|
    ensures forall i :: 0 <= i < |stack| ==>
      r[i] == (if stack[i].id != removed.id && stack[i].preFocus == Some(removed.component)
               then stack[i].(preFocus := removed.preFocus) else stack[i])
  {
    seq(|stack|, i requires 0 <= i < |stack| =>
      if stack[i].id != removed.id && stack[i].preFocus == Some(removed.component)
      then stack[i].(preFocus := removed.preFocus) else stack[i])
  }

  function ShowOverlay(s: State, component: Component, capturing: bool): State {
    var entry := Entry(s.nextId, component, s.focused, capturing, false, s.orderCounter + 1);
    var pushed := s.(stack := s.stack + [entry], orderCounter := s.orderCounter + 1, nextId := s.nextId + 1);
    if capturing then SetFocus(pushed, Some(component)) else pushed
  }

  /** The stack without its entry `i`, the links to it redirected. */
  function Without(stack: seq<Entry>, i: nat): (r: seq<Entry>)
    requires i < |stack|
    ensures |r| == |stack| - 1
  {
    Retarget(stack, stack[i])[..i] + Retarget(stack, stack[i])[i + 1..]
  }

  /** The state once entry `i` is off the stack, before the focus moves. */
  function TakenOff(s: State, i: nat): State
    requires i < |s.stack|
  {
    ClearRestoreFor(s, s.stack[i].id).(stack := Without(s.stack, i))
  }

  /** Remove the entry at `i`, and move the focus if it had it. */
  function RemoveAt(s: State, i: nat): State
    requires i < |s.stack|
  {
    var t := TakenOff(s, i);
    if s.focused == Some(s.stack[i].component) then
      var top := Topmost(t.stack);
      SetFocus(t, if top.Some? then Some(top.value.component) else s.stack[i].preFocus)
    else t
  }

  /** `handle.hide()`. */
  function Hide(s: State, id: nat): State {
    var i := FindId(s.stack, id);
    if i.None? then s else RemoveAt(s, i.value)
  }

  /** `hideOverlay()`: the last one shown. */
  function HideOverlay(s: State): State {
    if s.stack == [] then s else RemoveAt(s, |s.stack| - 1)
  }

  /** `handle.focus()`. */
  function FocusOverlay(s: State, id: nat): State {
    var i := FindId(s.stack, id);
    if i.None? || s.stack[i.value].hidden then s
    else
      var e := s.stack[i.value];
      var raised := s.(
        stack := s.stack[i.value := e.(focusOrder := s.orderCounter + 1)],
        orderCounter := s.orderCounter + 1);
      SetFocus(raised, Some(e.component))
  }

  /** `handle.setHidden()`. */
  function SetHidden(s: State, id: nat, hidden: bool): State {
    var i := FindId(s.stack, id);
    if i.None? || s.stack[i.value].hidden == hidden then s
    else
      var e := s.stack[i.value];
      if hidden then
        var t := ClearRestoreFor(s.(stack := s.stack[i.value := e.(hidden := true)]), id);
        if s.focused == Some(e.component) then
          var top := Topmost(t.stack);
          SetFocus(t, if top.Some? then Some(top.value.component) else e.preFocus)
        else t
      else if e.capturing then
        SetFocus(s.(
          stack := s.stack[i.value := e.(hidden := false, focusOrder := s.orderCounter + 1)],
          orderCounter := s.orderCounter + 1), Some(e.component))
      else s.(stack := s.stack[i.value := e.(hidden := false)])
  }

  /** `handle.unfocus(options)`; `explicit` is the target the caller may name. */
  function Unfocus(s: State, id: nat, explicit: Option<Option<Component>>): State {
    var i := FindId(s.stack, id);
    if i.None? then s
    else
      var e := s.stack[i.value];
      var isFocused := s.focused == Some(e.component);
      var pendingRestore := !s.restore.Inactive? && s.restore.overlay == id;
      if !isFocused && !pendingRestore then s
      else if s.restore.Blocked? && s.restore.overlay == id && s.focused == Some(s.restore.blockedBy) then
        if explicit.Some? then s.(restore := Blocked(id, s.restore.blockedBy, FocusTarget(explicit.value)))
        else s.(restore := Inactive)
      else
        var cleared := ClearRestoreFor(s, id);
        if isFocused || explicit.Some? then
          var top := Topmost(s.stack);
          var fallback := if top.Some? && top.value.id != id then Some(top.value.component) else e.preFocus;
          SetFocus(cleared, if explicit.Some? then explicit.value else fallback)
        else cleared
  }

  /** The first half of what `handleInput` does to the focus: leave an overlay that is hidden by now. */
  function LeaveHidden(s: State): State {
    var overlay := if s.focused.Some? then FindComponent(s.stack, s.focused.value) else None;
    if overlay.Some? && overlay.value.hidden then
      var top := Topmost(s.stack);
      if top.Some? then SetFocus(s, Some(top.value.component))
      else SetFocusInternal(s, overlay.value.preFocus, Preserve)
    else s
  }

  /** The second half: give focus back to the overlay remembered, unless something blocks it. */
  function ResumeOverlay(s: State): State {
    if s.focused.Some? && IsOverlay(s.stack, s.focused.value) then s
    else
      var visible := VisibleRestore(s);
      match visible
      case Inactive => s
      case Eligible(id) => SetFocus(s, Some(s.stack[FindId(s.stack, id).value].component))
      case Blocked(id, blocker, resume) =>
        if s.focused == Some(blocker) then s
        else if resume.RestoreOverlay? then SetFocus(s, Some(s.stack[FindId(s.stack, id).value].component))
        else SetFocus(s.(restore := Inactive), resume.target)
  }

  /** What `handleInput` does to the focus before it passes the input on. */
  function SettleFocus(s: State): State {
    ResumeOverlay(LeaveHidden(s))
  }
}

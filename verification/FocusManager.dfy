/** The focus half of the interface as an object that updates its own fields. */
module FocusManager {
  import opened Wrappers
  import opened OverlayFocus
  import opened OverlayResume

  class TUI {
    var overlayStack: seq<Entry>
    var focusedComponent: Option<Component>
    var overlayFocusRestore: Restore
    var focusOrderCounter: nat
    var nextEntryId: nat
    var flagged: set<Component>
    var focusable: set<Component>
    var mounted: set<Component>

    /** The state the specification speaks of. */
    function View(): State
      reads this
    {
      State(overlayStack, focusedComponent, overlayFocusRestore, focusOrderCounter, nextEntryId,
            flagged, focusable, mounted)
    }

    constructor (base: Option<Component>, focusable: set<Component>, mounted: set<Component>)
      ensures overlayStack == [] && focusedComponent == base && overlayFocusRestore == Inactive
      ensures flagged == (if base.Some? then {base.value} * focusable else {})
      ensures this.focusable == focusable && this.mounted == mounted
    {
      overlayStack := [];
      focusedComponent := base;
      overlayFocusRestore := Inactive;
      focusOrderCounter := 0;
      nextEntryId := 0;
      flagged := if base.Some? then {base.value} * focusable else {};
      this.focusable := focusable;
      this.mounted := mounted;
    }

    method GetTopmostVisibleOverlay() returns (topmost: Option<Entry>)
      ensures topmost == Topmost(overlayStack)
    {
      topmost := None;
      for i := 0 to |overlayStack|
        invariant topmost == Topmost(overlayStack[..i])
      {
        var overlay := overlayStack[i];
        assert overlayStack[..i + 1][..i] == overlayStack[..i];
        if !overlay.capturing || overlay.hidden { continue; }
        if topmost.None? || overlay.focusOrder > topmost.value.focusOrder { topmost := Some(overlay); }
      }
      assert overlayStack[..|overlayStack|] == overlayStack;
    }

    /** Follow the links down from `start` until they end, reach `target` or come round again. */
    method IsOverlayFocusAncestor(start: Option<Component>, target: Component) returns (found: bool)
      ensures found == IsAncestor(overlayStack, start, target, {})
    {
      var visited: set<Component> := {};
      var current := start;
      while current.Some? && current.value !in visited
        invariant IsAncestor(overlayStack, start, target, {}) == IsAncestor(overlayStack, current, target, visited)
        decreases Components(overlayStack) - visited, current.Some?
      {
        visited := visited + {current.value};
        if current.value == target { return true; }
        var overlay := FindComponent(overlayStack, current.value);
        if overlay.Some? { assert current.value in Components(overlayStack); }
        current := if overlay.Some? then overlay.value.preFocus else None;
      }
      found := false;
    }

    method RetargetOverlayPreFocus(removed: Entry)
      modifies this`overlayStack
      ensures overlayStack == Retarget(old(overlayStack), removed)
    {
      for i := 0 to |overlayStack|
        invariant |overlayStack| == |old(overlayStack)|
        invariant overlayStack[..i] == Retarget(old(overlayStack), removed)[..i]
        invariant overlayStack[i..] == old(overlayStack)[i..]
      {
        var overlay := overlayStack[i];
        assert overlay == old(overlayStack)[i];
        if overlay.id != removed.id && overlay.preFocus == Some(removed.component) {
          overlayStack := overlayStack[i := overlay.(preFocus := removed.preFocus)];
        }
      }
    }

    method ClearOverlayFocusRestoreFor(id: nat)
      modifies this`overlayFocusRestore
      ensures View() == ClearRestoreFor(old(View()), id)
    {
      if !overlayFocusRestore.Inactive? && overlayFocusRestore.overlay == id { overlayFocusRestore := Inactive; }
    }

    method ResolveBlockedOverlayFocusResume(restoreState: Restore) returns (next: Option<Component>)
      requires restoreState.Blocked?
      modifies this`overlayFocusRestore
      ensures var d := ResolveResume(old(View()), restoreState); next == d.next && overlayFocusRestore == d.restore
    {
      if restoreState.resume.RestoreOverlay? {
        var i := FindId(overlayStack, restoreState.overlay);
        return if i.Some? then Some(overlayStack[i.value].component) else None;
      }
      overlayFocusRestore := Inactive;
      next := restoreState.resume.target;
    }

    /** Decide where the focus goes, note what is to be restored, and move the flag. */
    method SetFocusInternally(component: Option<Component>, policy: Policy)
      modifies this`overlayFocusRestore, this`focusedComponent, this`flagged
      ensures View() == SetFocusInternal(old(View()), component, policy)
    {
      var previousFocus := focusedComponent;
      var nextFocus := component;
      var previousFocusedOverlay := if previousFocus.Some? then FindVisible(overlayStack, previousFocus.value) else None;
      var nextFocusIsOverlay := nextFocus.Some? && IsOverlay(overlayStack, nextFocus.value);
      var restoreState := VisibleRestore(View());
      if nextFocus.Some? && !nextFocusIsOverlay {
        if restoreState.Blocked? && previousFocus == Some(restoreState.blockedBy) {
          if restoreState.resume.FocusTarget? || restoreState.blockedBy !in mounted {
            nextFocus := ResolveBlockedOverlayFocusResume(restoreState);
          } else {
            overlayFocusRestore := restoreState.(blockedBy := nextFocus.value);
          }
        } else if previousFocusedOverlay.Some? && !restoreState.Inactive?
          && restoreState.overlay == previousFocusedOverlay.value.id {
          var ancestor := IsOverlayFocusAncestor(previousFocusedOverlay.value.preFocus, nextFocus.value);
          if !ancestor {
            overlayFocusRestore := Blocked(previousFocusedOverlay.value.id, nextFocus.value, RestoreOverlay);
          }
        }
      } else if nextFocus.None? {
        if restoreState.Blocked? && previousFocus == Some(restoreState.blockedBy) {
          nextFocus := ResolveBlockedOverlayFocusResume(restoreState);
        } else if policy == Clear {
          overlayFocusRestore := Inactive;
        }
      }
      MoveFocus(nextFocus);
    }

    /** The last part of setting the focus, once it is decided. */
    method MoveFocus(nextFocus: Option<Component>)
      modifies this`overlayFocusRestore, this`focusedComponent, this`flagged
      ensures focusedComponent == nextFocus && flagged == SetFlags(old(View()), nextFocus)
      ensures var overlay := if nextFocus.Some? then FindVisible(overlayStack, nextFocus.value) else None;
        overlayFocusRestore == if overlay.Some? then Eligible(overlay.value.id) else old(overlayFocusRestore)
    {
      if focusedComponent.Some? { flagged := flagged - {focusedComponent.value}; }
      focusedComponent := nextFocus;
      if nextFocus.Some? && nextFocus.value in focusable { flagged := flagged + {nextFocus.value}; }
      if nextFocus.Some? {
        var overlay := FindVisible(overlayStack, nextFocus.value);
        if overlay.Some? { overlayFocusRestore := Eligible(overlay.value.id); }
      }
    }

    method Show(component: Component, capturing: bool) returns (id: nat)
      modifies this
      ensures View() == ShowOverlay(old(View()), component, capturing)
      ensures id == old(nextEntryId)
    {
      hide SetFocusInternal;
      focusOrderCounter := focusOrderCounter + 1;
      id := nextEntryId;
      nextEntryId := nextEntryId + 1;
      overlayStack := overlayStack + [Entry(id, component, focusedComponent, capturing, false, focusOrderCounter)];
      if capturing { SetFocusInternally(Some(component), Clear); }
    }

    /** Take entry `i` off the stack; shared by `handle.hide()` and `hideOverlay()`. */
    method Remove(i: nat)
      requires i < |overlayStack|
      modifies this
      ensures View() == RemoveAt(old(View()), i)
    {
      hide SetFocusInternal, Topmost, Retarget;
      var entry := overlayStack[i];
      ClearOverlayFocusRestoreFor(entry.id);
      RetargetOverlayPreFocus(entry);
      overlayStack := overlayStack[..i] + overlayStack[i + 1..];
      assert View() == TakenOff(old(View()), i);
      if focusedComponent == Some(entry.component) {
        var top := GetTopmostVisibleOverlay();
        SetFocusInternally(if top.Some? then Some(top.value.component) else entry.preFocus, Clear);
      }
    }

    method HideEntry(id: nat)
      modifies this
      ensures View() == Hide(old(View()), id)
    {
      hide RemoveAt;
      var i := FindId(overlayStack, id);
      if i.Some? { Remove(i.value); }
    }

    method HideLast()
      modifies this
      ensures View() == HideOverlay(old(View()))
    {
      hide RemoveAt;
      if overlayStack != [] { Remove(|overlayStack| - 1); }
    }

    method Focus(id: nat)
      modifies this
      ensures View() == FocusOverlay(old(View()), id)
    {
      hide SetFocusInternal, FindId;
      var i := FindId(overlayStack, id);
      if i.None? || overlayStack[i.value].hidden { return; }
      focusOrderCounter := focusOrderCounter + 1;
      var entry := overlayStack[i.value];
      overlayStack := overlayStack[i.value := entry.(focusOrder := focusOrderCounter)];
      SetFocusInternally(Some(entry.component), Clear);
    }

    method Toggle(id: nat, hidden: bool)
      modifies this
      ensures View() == SetHidden(old(View()), id, hidden)
    {
      hide SetFocusInternal, FindId, Topmost;
      var i := FindId(overlayStack, id);
      if i.None? || overlayStack[i.value].hidden == hidden { return; }
      var entry := overlayStack[i.value];
      overlayStack := overlayStack[i.value := entry.(hidden := hidden)];
      if hidden {
        ClearOverlayFocusRestoreFor(id);
        if focusedComponent == Some(entry.component) {
          var top := GetTopmostVisibleOverlay();
          SetFocusInternally(if top.Some? then Some(top.value.component) else entry.preFocus, Clear);
        }
      } else if entry.capturing {
        focusOrderCounter := focusOrderCounter + 1;
        overlayStack := overlayStack[i.value := entry.(hidden := false, focusOrder := focusOrderCounter)];
        assert overlayStack == old(overlayStack)[i.value := entry.(hidden := false, focusOrder := focusOrderCounter)];
        SetFocusInternally(Some(entry.component), Clear);
      }
    }

    /** `handle.unfocus()` of a stacked overlay; `explicit` is the target the caller may name. */
    method Release(id: nat, explicit: Option<Option<Component>>)
      modifies this
      ensures View() == Unfocus(old(View()), id, explicit)
    {
      hide SetFocusInternal, FindId, Topmost;
      var i := FindId(overlayStack, id);
      if i.None? { return; }
      var entry := overlayStack[i.value];
      var isFocused := focusedComponent == Some(entry.component);
      var restoreState := overlayFocusRestore;
      if !isFocused && (restoreState.Inactive? || restoreState.overlay != id) { return; }
      if restoreState.Blocked? && restoreState.overlay == id && focusedComponent == Some(restoreState.blockedBy) {
        overlayFocusRestore :=
          if explicit.Some? then Blocked(id, restoreState.blockedBy, FocusTarget(explicit.value)) else Inactive;
        return;
      }
      ClearOverlayFocusRestoreFor(id);
      if isFocused || explicit.Some? {
        var top := GetTopmostVisibleOverlay();
        var fallback := if top.Some? && top.value.id != id then Some(top.value.component) else entry.preFocus;
        SetFocusInternally(if explicit.Some? then explicit.value else fallback, Clear);
      }
    }

    /** What an input does to the focus before it is passed on. */
    method Settle()
      modifies this
      ensures View() == SettleFocus(old(View()))
      ensures OnHidden(View()) <==> StaysHidden(old(View()))
    {
      hide SetFocusInternal, Topmost, FindId, FindComponent, StaysHidden, OnHidden;
      SettleExact(View());
      var overlay := if focusedComponent.Some? then FindComponent(overlayStack, focusedComponent.value) else None;
      if overlay.Some? && overlay.value.hidden {
        var top := GetTopmostVisibleOverlay();
        if top.Some? { SetFocusInternally(Some(top.value.component), Clear); }
        else { SetFocusInternally(overlay.value.preFocus, Preserve); }
      }
      assert View() == LeaveHidden(old(View()));
      Resume();
    }

    method Resume()
      modifies this
      ensures View() == ResumeOverlay(old(View()))
    {
      hide SetFocusInternal, FindId, IsOverlay;
      if focusedComponent.Some? && IsOverlay(overlayStack, focusedComponent.value) { return; }
      var restoreState := VisibleRestore(View());
      if restoreState.Inactive? || (restoreState.Blocked? && focusedComponent == Some(restoreState.blockedBy)) { return; }
      if restoreState.Blocked? && restoreState.resume.FocusTarget? {
        overlayFocusRestore := Inactive;
        SetFocusInternally(restoreState.resume.target, Clear);
      } else {
        var i := FindId(overlayStack, restoreState.overlay);
        SetFocusInternally(Some(overlayStack[i.value].component), Clear);
      }
    }
  }
}

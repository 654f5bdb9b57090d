/** Heartbeats are never doubled, and none is ever dropped while Radius is enabled. */
module HeartbeatProofs {
  import opened Wrappers
  import opened Heartbeats

  /* ---------- Every step keeps the invariant ---------- */

  lemma UpdateSound(s: State, ref: nat, r: Record)
    requires Sound(s) && ref in s.heap && r.timer == s.heap[ref].timer
    ensures Sound(Update(s, ref, r))
  {
  }

  lemma RemoveSound(s: State, id: Id)
    requires Sound(s)
    ensures Sound(Remove(s, id))
  {
  }

  /** The record looked up or made, its old timer disarmed. */
  function Prepared(s: State, id: Id, intervalMs: nat, radiusPiId: Id): State
    requires Linked(s)
  {
    var known := id in s.states;
    var ref := if known then s.states[id] else s.nextRecord;
    var timer := if known then s.heap[ref].timer else None;
    s.(armed := Disarm(s.armed, timer),
       heap := s.heap[ref := Record(timer, intervalMs, radiusPiId, 0, 0)],
       states := s.states[id := ref],
       nextRecord := if known then s.nextRecord else s.nextRecord + 1)
  }

  lemma PreparedSound(s: State, id: Id, intervalMs: nat, radiusPiId: Id)
    requires Sound(s)
    ensures Sound(Prepared(s, id, intervalMs, radiusPiId))
  {
    if id in s.states {
      RemoveTimer(s, id);
      var r := Record(s.heap[s.states[id]].timer, intervalMs, radiusPiId, 0, 0);
      UpdateSound(s.(armed := Disarm(s.armed, s.heap[s.states[id]].timer)), s.states[id], r);
      assert s.states[id := s.states[id]] == s.states;
    }
  }

  lemma RemoveTimer(s: State, id: Id)
    requires Sound(s) && id in s.states
    ensures Sound(s.(armed := Disarm(s.armed, s.heap[s.states[id]].timer)))
  {
  }

  lemma StartSound(s: State, id: Id, intervalMs: nat, radiusPiId: Id)
    requires Sound(s)
    ensures Sound(Start(s, id, intervalMs, radiusPiId))
  {
    hide Sound;
    IsLinked(s);
    PreparedSound(s, id, intervalMs, radiusPiId);
    IsLinked(Prepared(s, id, intervalMs, radiusPiId));
    ScheduleSound(Prepared(s, id, intervalMs, radiusPiId), id, intervalMs);
  }

  lemma IsLinked(s: State)
    requires Sound(s)
    ensures Linked(s)
  {
  }

  lemma AddTaskSound(s: State, t: Task)
    requires Sound(s) && (t.Registering? || t.record in s.heap)
    ensures Sound(AddTask(s, t))
  {
  }

  lemma EndTaskSound(s: State, k: nat)
    requires Sound(s)
    ensures Sound(EndTask(s, k))
  {
  }

  lemma RemoveAllSound(s: State)
    requires Sound(s)
    ensures Sound(RemoveAll(s)) && RemoveAll(s).armed == map[]
  {
  }

  lemma FireSound(s: State, t: nat, enabled: bool)
    requires Sound(s) && t in s.armed
    ensures Sound(FireTimer(s, t, enabled))
  {
    var fired := s.(armed := s.armed - {t});
    assert Sound(fired);
    var id := s.armed[t];
    if enabled && id in s.states { AddTaskSound(fired, Beating(id, s.states[id])); }
  }

  lemma FinishBeatSound(s: State, id: Id, ref: nat, outcome: Outcome, enabled: bool, live: bool, draw: real)
    requires Sound(s) && ref in s.heap && Linked(s)
    ensures Sound(FinishBeat(s, id, ref, outcome, enabled, live, draw))
  {
    hide Sound, Schedule, Remove, BackoffDelay;
    var r := s.heap[ref];
    match outcome {
      case Success(_, _) =>
        UpdateSound(s, ref, r.(notFound := 0, transient := 0));
        ScheduleSound(Update(s, ref, r.(notFound := 0, transient := 0)), id, r.intervalMs);
      case Failure =>
        UpdateSound(s, ref, r.(transient := r.transient + 1));
        ScheduleSound(Update(s, ref, r.(transient := r.transient + 1)), id, BackoffDelay(r.transient + 1, draw));
      case NotFound =>
        var counted := Update(s, ref, r.(transient := 0, notFound := r.notFound + 1));
        UpdateSound(s, ref, r.(transient := 0, notFound := r.notFound + 1));
        ScheduleSound(counted, id, r.intervalMs);
        RemoveSound(counted, id);
        ScheduleSound(Remove(counted, id), id, BackoffDelay(1, draw));
        AddTaskSound(counted, Recovering(id, ref));
    }
  }

  lemma StepSound(s: State, e: Event)
    requires Sound(s) && Possible(s, e) && Linked(s)
    ensures Sound(Step(s, e))
  {
    hide Sound, Schedule, Remove, RemoveAll, FireTimer, FinishBeat, FinishRecovery, Start, Update;
    match e {
      case Register(id, _) => AddTaskSound(s, Registering(id));
      case Reregister(id, _, _) => RemoveSound(s, id); AddTaskSound(s, Registering(id));
      case Disconnect(id) => RemoveSound(s, id);
      case Stop => RemoveAllSound(s);
      case Fire(t, enabled) => FireSound(s, t, enabled);
      case Finish(k, outcome, enabled, live, draw) =>
        EndTaskSound(s, k);
        var t := EndTask(s, k);
        var task := s.tasks[k];
        match task {
          case Beating(id, ref) => FinishBeatSound(t, id, ref, outcome, enabled, live, draw);
          case Recovering(id, ref) => FinishRecoverySound(t, id, ref, outcome, draw);
          case Registering(id) =>
            if outcome.Success? { StartSound(t, id, outcome.intervalMs, outcome.radiusPiId); }
        }
    }
  }

  lemma FinishRecoverySound(s: State, id: Id, ref: nat, outcome: Outcome, draw: real)
    requires Sound(s) && ref in s.heap && Linked(s)
    ensures Sound(FinishRecovery(s, id, ref, outcome, draw))
  {
    hide Sound, Schedule, Start, BackoffDelay;
    if outcome.Success? {
      StartSound(s, id, outcome.intervalMs, outcome.radiusPiId);
    } else {
      var r := s.heap[ref].(transient := s.heap[ref].transient + 1);
      UpdateSound(s, ref, r);
      ScheduleSound(Update(s, ref, r), id, BackoffDelay(r.transient, draw));
    }
  }

  /* ---------- Nothing is dropped ---------- */

  /** Whoever else is in the map is covered as before. */
  ghost predicate Keeps(s: State, t: State, id: Id) {
    forall i :: i in t.states && i != id ==>
      i in s.states && (Armed(s, i) ==> Armed(t, i)) && (InFlight(s, i) ==> InFlight(t, i))
  }

  lemma Carry(s: State, t: State, id: Id)
    requires Covered(s) && Keeps(s, t, id)
    requires id in t.states ==> Armed(t, id) || InFlight(t, id)
    ensures Covered(t)
  {
    hide Armed, InFlight;
  }

  /** Another instance's timer is not disarmed with this one's. */
  lemma ArmedStays(s: State, t: State, id: Id, i: Id)
    requires Sound(s) && i != id && i in s.states && Armed(s, i)
    requires forall a :: a in s.armed && s.armed[a] != id ==> a in t.armed && t.armed[a] == s.armed[a]
    ensures Armed(t, i)
  {
    var a :| a in s.armed && s.armed[a] == i;
  }

  lemma FlightStays(s: State, t: State, i: Id)
    requires InFlight(s, i)
    requires forall k :: k in s.tasks && !s.tasks[k].Registering? && s.tasks[k].id == i ==>
      k in t.tasks && t.tasks[k] == s.tasks[k]
    ensures InFlight(t, i)
  {
    var k :| k in s.tasks && !s.tasks[k].Registering? && s.tasks[k].id == i;
    assert k in t.tasks;
  }

  /** What the parts of a step do to the timers: only those of `id` go, and the others keep theirs. */
  ghost predicate Local(s: State, t: State, id: Id) {
    && (forall i :: i in t.states && i != id ==> i in s.states)
    && (forall a :: a in s.armed && s.armed[a] != id ==> a in t.armed && t.armed[a] == s.armed[a])
    && t.tasks == s.tasks
  }

  lemma LocalKeeps(s: State, t: State, id: Id)
    requires Sound(s) && Local(s, t, id)
    ensures Keeps(s, t, id)
  {
    forall i | i in t.states && i != id && Armed(s, i) ensures Armed(t, i) { ArmedStays(s, t, id, i); }
  }

  lemma ScheduleLocal(s: State, id: Id, delayMs: int)
    requires Sound(s) && Linked(s)
    ensures Local(s, Schedule(s, id, delayMs), id) && Schedule(s, id, delayMs).states == s.states
    ensures id in s.states ==> Armed(Schedule(s, id, delayMs), id)
  {
    if id in s.states { assert Schedule(s, id, delayMs).armed[s.nextTimer] == id; }
  }

  lemma PreparedLocal(s: State, id: Id, intervalMs: nat, radiusPiId: Id)
    requires Sound(s) && Linked(s)
    ensures Local(s, Prepared(s, id, intervalMs, radiusPiId), id)
  {
  }

  lemma RemoveLocal(s: State, id: Id)
    requires Sound(s) && Linked(s)
    ensures Local(s, Remove(s, id), id) && id !in Remove(s, id).states
  {
  }

  lemma LocalTwice(s: State, t: State, u: State, id: Id)
    requires Local(s, t, id) && Local(t, u, id)
    ensures Local(s, u, id)
  {
  }

  lemma StartLocal(s: State, id: Id, intervalMs: nat, radiusPiId: Id)
    requires Sound(s) && Linked(s)
    ensures Local(s, Start(s, id, intervalMs, radiusPiId), id)
    ensures Armed(Start(s, id, intervalMs, radiusPiId), id)
  {
    hide Sound, Schedule, Local, Armed;
    var t := Prepared(s, id, intervalMs, radiusPiId);
    PreparedSound(s, id, intervalMs, radiusPiId);
    PreparedLocal(s, id, intervalMs, radiusPiId);
    IsLinked(t);
    ScheduleLocal(t, id, intervalMs);
    LocalTwice(s, t, Schedule(t, id, intervalMs), id);
  }

  /** What is left after a heartbeat came back: its instance is armed again, being recovered, or gone. */
  lemma FinishBeatLocal(s: State, id: Id, ref: nat, outcome: Outcome, live: bool, draw: real)
    requires Sound(s) && Linked(s) && ref in s.heap
    ensures var t := FinishBeat(s, id, ref, outcome, true, live, draw);
      && (id in t.states ==> Armed(t, id) || InFlight(t, id))
      && Keeps(s, t, id)
  {
    hide Sound, Schedule, Remove, Armed, InFlight, Local, Keeps, BackoffDelay;
    var r := s.heap[ref];
    var r0 := r.(notFound := 0, transient := 0);
    var r1 := r.(transient := r.transient + 1);
    var r2 := r.(transient := 0, notFound := r.notFound + 1);
    if outcome.Success? { RescheduledKeeps(s, id, ref, r0, r.intervalMs); }
    else if outcome.Failure? { RescheduledKeeps(s, id, ref, r1, BackoffDelay(r.transient + 1, draw)); }
    else if r.notFound + 1 < NOT_FOUND_RETRY_THRESHOLD { RescheduledKeeps(s, id, ref, r2, r.intervalMs); }
    else if !live { RemovedKeeps(s, id, ref, r2, BackoffDelay(1, draw)); }
    else { RecoveringKeeps(s, id, ref, r2); }
  }

  lemma UpdateLocal(s: State, id: Id, ref: nat, r: Record)
    ensures Local(s, Update(s, ref, r), id)
  {
  }

  lemma RescheduledKeeps(s: State, id: Id, ref: nat, r: Record, delayMs: int)
    requires Sound(s) && Linked(s) && ref in s.heap && r.timer == s.heap[ref].timer
    ensures Linked(Update(s, ref, r))
    ensures var t := Schedule(Update(s, ref, r), id, delayMs); (id in t.states ==> Armed(t, id)) && Keeps(s, t, id)
  {
    hide Sound, Schedule, Armed, InFlight, Local, Keeps, Update;
    UpdateSound(s, ref, r);
    var u := Update(s, ref, r);
    IsLinked(u);
    UpdateLocal(s, id, ref, r);
    ScheduleLocal(u, id, delayMs);
    LocalTwice(s, u, Schedule(u, id, delayMs), id);
    LocalKeeps(s, Schedule(u, id, delayMs), id);
  }

  lemma RemovedKeeps(s: State, id: Id, ref: nat, r: Record, delayMs: int)
    requires Sound(s) && Linked(s) && ref in s.heap && r.timer == s.heap[ref].timer
    ensures Linked(Update(s, ref, r)) && Linked(Remove(Update(s, ref, r), id))
    ensures var t := Schedule(Remove(Update(s, ref, r), id), id, delayMs); id !in t.states && Keeps(s, t, id)
  {
    hide Sound, Schedule, Armed, InFlight, Local, Keeps, Update, Remove;
    UpdateSound(s, ref, r);
    var u := Update(s, ref, r);
    IsLinked(u);
    UpdateLocal(s, id, ref, r);
    RemoveSound(u, id);
    RemoveLocal(u, id);
    var v := Remove(u, id);
    IsLinked(v);
    LocalTwice(s, u, v, id);
    ScheduleLocal(v, id, delayMs);
    LocalTwice(s, v, Schedule(v, id, delayMs), id);
    LocalKeeps(s, Schedule(v, id, delayMs), id);
  }

  lemma RecoveringKeeps(s: State, id: Id, ref: nat, r: Record)
    requires Sound(s) && ref in s.heap
    ensures var t := AddTask(Update(s, ref, r), Recovering(id, ref)); InFlight(t, id) && Keeps(s, t, id)
  {
    var t := AddTask(Update(s, ref, r), Recovering(id, ref));
    assert t.tasks[s.nextTask] == Recovering(id, ref);
    forall i | i in t.states && i != id && Armed(s, i) ensures Armed(t, i) { ArmedStays(s, t, id, i); }
    forall i | i in t.states && InFlight(s, i) ensures InFlight(t, i) { FlightStays(s, t, i); }
  }

  lemma AddTaskCovered(s: State, t: Task)
    requires Sound(s) && Covered(s)
    ensures Covered(AddTask(s, t))
  {
    var u := AddTask(s, t);
    forall i | i in u.states ensures Armed(u, i) || InFlight(u, i) {
      if Armed(s, i) { ArmedSame(s, u, i); } else { FlightStays(s, u, i); }
    }
  }

  lemma ArmedSame(s: State, t: State, i: Id)
    requires Armed(s, i) && t.armed == s.armed
    ensures Armed(t, i)
  {
  }

  lemma RemoveCovered(s: State, id: Id)
    requires Sound(s) && Linked(s) && Covered(s)
    ensures Covered(Remove(s, id))
  {
    hide Sound, Remove, Armed, InFlight, Local, Keeps, Covered;
    RemoveLocal(s, id);
    LocalKeeps(s, Remove(s, id), id);
    Carry(s, Remove(s, id), id);
  }

  lemma FireCovered(s: State, t: nat)
    requires Sound(s) && Covered(s) && t in s.armed
    ensures Covered(FireTimer(s, t, true))
  {
    hide Armed, InFlight, Covered;
    var id := s.armed[t];
    var u := FireTimer(s, t, true);
    assert u.tasks[s.nextTask] == Beating(id, s.states[id]);
    assert InFlight(u, id) by { Flying(u, id, s.nextTask); }
    forall i | i in u.states && i != id && Armed(s, i) ensures Armed(u, i) { ArmedStays(s, u, id, i); }
    forall i | i in u.states && InFlight(s, i) ensures InFlight(u, i) { FlightStays(s, u, i); }
    Carry(s, u, id);
  }

  lemma Flying(s: State, id: Id, k: nat)
    requires k in s.tasks && !s.tasks[k].Registering? && s.tasks[k].id == id
    ensures InFlight(s, id)
  {
  }

  /** With a request taken off the list, everyone but its instance is covered as before. */
  lemma EndTaskKeeps(s: State, k: nat)
    requires Sound(s) && k in s.tasks
    ensures Keeps(s, EndTask(s, k), s.tasks[k].id)
    ensures s.tasks[k].Registering? && Covered(s) ==> Covered(EndTask(s, k))
  {
    hide Armed, InFlight;
    var t := EndTask(s, k);
    forall i | i in t.states && Armed(s, i) ensures Armed(t, i) { ArmedSame(s, t, i); }
    forall i | i in t.states && (i != s.tasks[k].id || s.tasks[k].Registering?) && InFlight(s, i) ensures InFlight(t, i) {
      FlightStays(s, t, i);
    }
  }

  lemma KeepsTwice(s: State, t: State, u: State, id: Id)
    requires Keeps(s, t, id) && Keeps(t, u, id)
    ensures Keeps(s, u, id)
  {
    hide Armed, InFlight;
  }

  lemma FinishCovered(s: State, k: nat, outcome: Outcome, live: bool, draw: real)
    requires Sound(s) && Linked(s) && Covered(s) && Possible(s, Finish(k, outcome, true, live, draw))
    ensures Covered(Step(s, Finish(k, outcome, true, live, draw)))
  {
    hide Sound, Armed, InFlight, Keeps, Covered, Local, FinishBeat, FinishRecovery, Start;
    var t := EndTask(s, k);
    EndTaskSound(s, k);
    IsLinked(t);
    EndTaskKeeps(s, k);
    var task := s.tasks[k];
    var u := Step(s, Finish(k, outcome, true, live, draw));
    match task {
      case Beating(id, ref) =>
        FinishBeatLocal(t, id, ref, outcome, live, draw);
        KeepsTwice(s, t, u, id);
        Carry(s, u, id);
      case Recovering(id, ref) =>
        FinishRecoveryKeeps(t, id, ref, outcome, draw);
        KeepsTwice(s, t, u, id);
        Carry(s, u, id);
      case Registering(id) =>
        if outcome.Success? {
          StartLocal(t, id, outcome.intervalMs, outcome.radiusPiId);
          LocalKeeps(t, u, id);
          Carry(t, u, id);
        }
    }
  }

  lemma FinishRecoveryKeeps(s: State, id: Id, ref: nat, outcome: Outcome, draw: real)
    requires Sound(s) && Linked(s) && ref in s.heap
    ensures var t := FinishRecovery(s, id, ref, outcome, draw); (id in t.states ==> Armed(t, id)) && Keeps(s, t, id)
  {
    hide Sound, Schedule, Armed, InFlight, Local, Keeps, Start, BackoffDelay;
    if outcome.Success? {
      StartLocal(s, id, outcome.intervalMs, outcome.radiusPiId);
      LocalKeeps(s, Start(s, id, outcome.intervalMs, outcome.radiusPiId), id);
    } else {
      var failed := s.heap[ref].transient + 1;
      RescheduledKeeps(s, id, ref, s.heap[ref].(transient := failed), BackoffDelay(failed, draw));
    }
  }

  predicate Enabled(e: Event) {
    match e
    case Register(_, enabled) => enabled
    case Reregister(_, enabled, _) => enabled
    case Fire(_, enabled) => enabled
    case Finish(_, _, enabled, _, _) => enabled
    case _ => true
  }

  lemma StepCovered(s: State, e: Event)
    requires Sound(s) && Linked(s) && Covered(s) && Possible(s, e) && Enabled(e)
    ensures Covered(Step(s, e))
  {
    hide Sound, Covered, Linked, LastStraw, Step, Armed, InFlight;
    DroppedExactlyWhen(s, e);
  }

  lemma Empty(s: State)
    requires s.states == map[]
    ensures Covered(s)
  {
  }

  /* ---------- Whole runs ---------- */

  ghost predicate IsRun(ss: seq<State>, es: seq<Event>) {
    && |ss| == |es| + 1 && ss[0] == IDLE
    && forall i :: 0 <= i < |es| ==> Linked(ss[i]) && Possible(ss[i], es[i]) && ss[i + 1] == Step(ss[i], es[i])
  }

  /**
   * However registrations, disconnects, stops, timers and answers are interleaved: an instance never has
   * two timers set, and a timer that is set belongs to an instance in the map. While Radius is enabled,
   * every instance in the map has a timer set or a heartbeat under way.
   */
  lemma {:induction false} NeverDoubledNeverDropped(ss: seq<State>, es: seq<Event>, k: nat)
    requires IsRun(ss, es) && k <= |es|
    ensures Sound(ss[k])
    ensures forall t, u :: t in ss[k].armed && u in ss[k].armed && ss[k].armed[t] == ss[k].armed[u] ==> t == u
    ensures forall t :: t in ss[k].armed ==> ss[k].armed[t] in ss[k].states
    ensures (forall i :: 0 <= i < k ==> Enabled(es[i])) ==> Covered(ss[k])
  {
    hide Step, Enabled, Covered, Possible, Linked;
    if k > 0 {
      NeverDoubledNeverDropped(ss, es, k - 1);
      StepSound(ss[k - 1], es[k - 1]);
      if forall i :: 0 <= i < k ==> Enabled(es[i]) { StepCovered(ss[k - 1], es[k - 1]); }
    } else {
      Empty(ss[0]);
    }
  }

  /* ---------- When a heartbeat is dropped ---------- */

  /** The answer to the heartbeat `k` that finds the instance unknown for the third time in a row or more. */
  predicate LastStraw(s: State, k: nat, outcome: Outcome, live: bool)
    requires k in s.tasks && (s.tasks[k].Registering? || s.tasks[k].record in s.heap)
  {
    && s.tasks[k].Beating? && outcome.NotFound? && live
    && s.heap[s.tasks[k].record].notFound + 1 >= NOT_FOUND_RETRY_THRESHOLD
  }

  /**
   * The two ways to lose a heartbeat, both with Radius disabled: a timer goes off and no heartbeat of its
   * instance is under way; or a live instance is unknown for the third time, when it should be registered
   * anew, and neither a timer nor another request of it is left.
   */
  ghost predicate Drops(s: State, e: Event)
    requires Possible(s, e)
  {
    match e
    case Fire(t, enabled) => !enabled && !InFlight(s, s.armed[t])
    case Finish(k, outcome, enabled, live, _) =>
      && !enabled && LastStraw(s, k, outcome, live)
      && var id := s.tasks[k].id;
        id in s.states && !Armed(s, id) && !InFlight(EndTask(s, k), id)
    case _ => false
  }

  lemma FireDisabled(s: State, t: nat)
    requires Sound(s) && Covered(s) && t in s.armed
    ensures Covered(FireTimer(s, t, false)) <==> InFlight(s, s.armed[t])
  {
    hide InFlight;
    var id := s.armed[t];
    var u := FireTimer(s, t, false);
    assert !Armed(u, id);
    forall i | i in u.states ensures InFlight(s, i) <==> InFlight(u, i) {
      if InFlight(s, i) { FlightStays(s, u, i); }
      if InFlight(u, i) { FlightStays(u, s, i); }
    }
    forall i | i in u.states && i != id && Armed(s, i) ensures Armed(u, i) { ArmedStays(s, u, id, i); }
    if InFlight(s, id) { assert Covered(u); }
  }

  /** Whether Radius is enabled matters to an answer only when the instance should be registered anew. */
  lemma EnabledOnlyMatters(s: State, k: nat, outcome: Outcome, live: bool, draw: real)
    requires Linked(s) && Possible(s, Finish(k, outcome, false, live, draw)) && !LastStraw(s, k, outcome, live)
    ensures Step(s, Finish(k, outcome, false, live, draw)) == Step(s, Finish(k, outcome, true, live, draw))
  {
    hide Schedule, Start, Remove;
  }

  lemma LastStrawDisabled(s: State, k: nat, outcome: Outcome, live: bool, draw: real)
    requires Sound(s) && Linked(s) && Covered(s) && Possible(s, Finish(k, outcome, false, live, draw))
    requires LastStraw(s, k, outcome, live)
    ensures var id := s.tasks[k].id;
      Covered(Step(s, Finish(k, outcome, false, live, draw)))
      <==> (id in s.states ==> Armed(s, id) || InFlight(EndTask(s, k), id))
  {
    hide Sound, Armed, InFlight;
    var id := s.tasks[k].id;
    var t := EndTask(s, k);
    var u := Step(s, Finish(k, outcome, false, live, draw));
    assert u.states == s.states && u.armed == s.armed && u.tasks == t.tasks;
    EndTaskKeeps(s, k);
    forall i ensures (Armed(s, i) <==> Armed(u, i)) && (InFlight(t, i) <==> InFlight(u, i)) {
      SameCover(s, t, u, i);
    }
    if id in s.states ==> Armed(s, id) || InFlight(t, id) { Carry(s, u, id); }
  }

  lemma SameCover(s: State, t: State, u: State, i: Id)
    requires u.armed == s.armed && u.tasks == t.tasks
    ensures (Armed(s, i) <==> Armed(u, i)) && (InFlight(t, i) <==> InFlight(u, i))
  {
  }

  /** Of all steps, exactly those two leave an instance with no timer set and no heartbeat under way. */
  lemma DroppedExactlyWhen(s: State, e: Event)
    requires Sound(s) && Linked(s) && Covered(s) && Possible(s, e)
    ensures Covered(Step(s, e)) <==> !Drops(s, e)
  {
    hide Sound, Covered, Linked, Armed, InFlight, LastStraw, AddTask, Remove, FinishBeat, FinishRecovery, Start, EndTask;
    match e {
      case Register(id, _) => AddTaskCovered(s, Registering(id));
      case Reregister(id, _, _) => RemoveCovered(s, id); AddTaskCovered(s, Registering(id));
      case Disconnect(id) => RemoveCovered(s, id);
      case Stop => Empty(RemoveAll(s));
      case Fire(t, enabled) => if enabled { FireCovered(s, t); } else { FireDisabled(s, t); }
      case Finish(k, outcome, enabled, live, draw) =>
        FinishCovered(s, k, outcome, live, draw);
        if !enabled {
          if LastStraw(s, k, outcome, live) { LastStrawDisabled(s, k, outcome, live, draw); }
          else { EnabledOnlyMatters(s, k, outcome, live, draw); }
        }
    }
  }

  /** An instance comes (back) into the map exactly when a registration of it succeeds, recovery included. */
  lemma AppearsWhenRegistered(s: State, e: Event, id: Id)
    requires Linked(s) && Possible(s, e) && id !in s.states
    ensures id in Step(s, e).states <==>
      e.Finish? && e.outcome.Success? && !s.tasks[e.task].Beating? && s.tasks[e.task].id == id
  {
  }

  /** So a disconnect does not last when a registration is under way: the instance and its timer come back. */
  lemma DisconnectUndone(interval: nat, piId: Id)
    ensures var s1 := Step(IDLE, Register("a", true));
      var s2 := Step(s1, Disconnect("a"));
      var s3 := Step(s2, Finish(0, Success(interval, piId), true, true, 0.0));
      "a" !in s2.states && "a" in s3.states && Armed(s3, "a")
  {
    var s2 := Step(Step(IDLE, Register("a", true)), Disconnect("a"));
    var s3 := Step(s2, Finish(0, Success(interval, piId), true, true, 0.0));
    assert s3.armed[0] == "a";
  }

  /** Every timer up to the `n`th, set to 60 ms. */
  function Sixties(n: nat): map<nat, int> {
    if n == 0 then map[0 := 60] else Sixties(n - 1)[n := 60]
  }

  /** A registered instance, asked for `n` times and unknown every time, its next heartbeat due. */
  function Unknown(n: nat): State {
    State(map["a" := 0], map[0 := Record(Some(n), 60, "p", n, 0)], map[n := "a"], Sixties(n),
      map[], 1, n + 1, n + 1)
  }

  /** The heartbeat under way. */
  function Asking(n: nat): State {
    Unknown(n).(armed := map[], tasks := map[n + 1 := Beating("a", 0)], nextTask := n + 2)
  }

  /** What one event of a run does. */
  ghost predicate Leads(s: State, e: Event, t: State) {
    Linked(s) && Possible(s, e) && t == Step(s, e)
  }

  lemma AskOnce(n: nat)
    ensures Leads(Unknown(n), Fire(n, true), Asking(n))
    ensures n + 1 < NOT_FOUND_RETRY_THRESHOLD ==>
      Leads(Asking(n), Finish(n + 1, NotFound, true, true, 0.0), Unknown(n + 1))
  {
    assert map[n := "a"] - {n} == map[];
    assert map[n + 1 := Beating("a", 0)] - {n + 1} == map[];
  }

  const REGISTERING := IDLE.(tasks := map[0 := Registering("a")], nextTask := 1)
  const LOST := Asking(2).(tasks := map[], heap := map[0 := Record(Some(2), 60, "p", 3, 0)])

  lemma Registers()
    ensures Leads(IDLE, Register("a", true), REGISTERING)
    ensures Leads(REGISTERING, Finish(0, Success(60, "p"), true, true, 0.0), Unknown(0))
  {
    assert map[0 := Registering("a")] - {0} == map[];
  }

  lemma Loses()
    ensures Leads(Asking(2), Finish(3, NotFound, false, true, 0.0), LOST)
    ensures "a" in LOST.states && LOST.armed == map[] && LOST.tasks == map[] && !Covered(LOST)
  {
    assert map[3 := Beating("a", 0)] - {3} == map[];
    assert !Armed(LOST, "a") && !InFlight(LOST, "a");
  }

  /**
   * A run that loses a heartbeat: three of a registered live instance are answered by 404, the last with
   * Radius disabled, and the instance stays in the map with nothing to bring its heartbeat back.
   */
  lemma ThirdNotFoundDrops() returns (ss: seq<State>, es: seq<Event>)
    ensures IsRun(ss, es) && |es| == 8 && es[7] == Finish(3, NotFound, false, true, 0.0)
    ensures forall i :: 0 <= i < 7 ==> Enabled(es[i])
    ensures "a" in ss[8].states && ss[8].armed == map[] && ss[8].tasks == map[] && !Covered(ss[8])
  {
    hide Step, Linked, Possible, Leads, Covered, Unknown, Asking;
    Registers();
    AskOnce(0);
    AskOnce(1);
    AskOnce(2);
    Loses();
    ss := [IDLE, REGISTERING, Unknown(0), Asking(0), Unknown(1), Asking(1), Unknown(2), Asking(2), LOST];
    es := [Register("a", true), Finish(0, Success(60, "p"), true, true, 0.0),
           Fire(0, true), Finish(1, NotFound, true, true, 0.0), Fire(1, true), Finish(2, NotFound, true, true, 0.0),
           Fire(2, true), Finish(3, NotFound, false, true, 0.0)];
    forall i | 0 <= i < 8 ensures Leads(ss[i], es[i], ss[i + 1]) {}
    LeadsAll(ss, es);
  }

  lemma LeadsAll(ss: seq<State>, es: seq<Event>)
    requires |ss| == |es| + 1 && ss[0] == IDLE
    requires forall i :: 0 <= i < |es| ==> Leads(ss[i], es[i], ss[i + 1])
    ensures IsRun(ss, es)
  {
    hide Step, Linked, Possible;
    forall i | 0 <= i < |es| ensures Linked(ss[i]) && Possible(ss[i], es[i]) && ss[i + 1] == Step(ss[i], es[i]) {
      assert Leads(ss[i], es[i], ss[i + 1]);
    }
  }

  /* ---------- What the counts are ---------- */

  /** The record that an answer is for, when it is an answer to a heartbeat. */
  predicate Answers(s: State, e: Event, ref: nat) {
    e.Finish? && e.task in s.tasks && s.tasks[e.task].Beating? && s.tasks[e.task].record == ref
  }

  /** The instance is started: a registration of it succeeds, recovery included. */
  predicate Starts(s: State, e: Event, ref: nat) {
    && e.Finish? && e.outcome.Success? && e.task in s.tasks && !s.tasks[e.task].Beating?
    && var id := s.tasks[e.task].id;
      ref == if id in s.states then s.states[id] else s.nextRecord
  }

  /** The 404s a record has met since its last success or start, in the first `k` steps. */
  ghost function Missed(ss: seq<State>, es: seq<Event>, k: nat, ref: nat): nat
    requires k <= |es| < |ss|
  {
    if k == 0 then 0
    else
      var (s, e) := (ss[k - 1], es[k - 1]);
      if Starts(s, e, ref) || (Answers(s, e, ref) && e.outcome.Success?) then 0
      else Missed(ss, es, k - 1, ref) + if Answers(s, e, ref) && e.outcome.NotFound? then 1 else 0
  }

  /** The failures of its requests since its last success, 404 or start. */
  ghost function Failed(ss: seq<State>, es: seq<Event>, k: nat, ref: nat): nat
    requires k <= |es| < |ss|
  {
    if k == 0 then 0
    else
      var (s, e) := (ss[k - 1], es[k - 1]);
      var before := Failed(ss, es, k - 1, ref);
      if Starts(s, e, ref) then 0
      else if Answers(s, e, ref) then if e.outcome.Failure? then before + 1 else 0
      else if e.Finish? && e.task in s.tasks && s.tasks[e.task].Recovering? && s.tasks[e.task].record == ref
        && !e.outcome.Success? then before + 1
      else before
  }

  ghost predicate Counted(s: State, ref: nat, missed: nat, failed: nat) {
    if ref in s.heap then s.heap[ref].notFound == missed && s.heap[ref].transient == failed
    else missed == 0 && failed == 0
  }

  /** Scheduling and removing count nothing. */
  lemma SchedulingCountsNothing(s: State, id: Id, delayMs: int, ref: nat, missed: nat, failed: nat)
    requires Linked(s) && Counted(s, ref, missed, failed)
    ensures Counted(Schedule(s, id, delayMs), ref, missed, failed) && Linked(Schedule(s, id, delayMs))
    ensures Linked(Remove(s, id)) && Counted(Remove(s, id), ref, missed, failed)
  {
  }

  lemma StartCounts(s: State, id: Id, intervalMs: nat, radiusPiId: Id, ref: nat, missed: nat, failed: nat)
    requires Sound(s) && Linked(s) && Counted(s, ref, missed, failed)
    ensures var t := Start(s, id, intervalMs, radiusPiId);
      if ref == (if id in s.states then s.states[id] else s.nextRecord) then Counted(t, ref, 0, 0)
      else Counted(t, ref, missed, failed)
  {
    hide Schedule, Sound;
    PreparedSound(s, id, intervalMs, radiusPiId);
    var t := Prepared(s, id, intervalMs, radiusPiId);
    IsLinked(t);
    var started := ref == if id in s.states then s.states[id] else s.nextRecord;
    SchedulingCountsNothing(t, id, intervalMs, ref, if started then 0 else missed, if started then 0 else failed);
  }

  lemma BeatCounts(s: State, id: Id, own: nat, outcome: Outcome, enabled: bool, live: bool, draw: real,
      ref: nat, missed: nat, failed: nat)
    requires Linked(s) && own in s.heap && Counted(s, ref, missed, failed)
    ensures var t := FinishBeat(s, id, own, outcome, enabled, live, draw);
      if ref != own then Counted(t, ref, missed, failed)
      else
        match outcome
        case Success(_, _) => Counted(t, ref, 0, 0)
        case NotFound => Counted(t, ref, missed + 1, 0)
        case Failure => Counted(t, ref, missed, failed + 1)
  {
    hide Schedule, Remove, BackoffDelay;
    var r := s.heap[own];
    var r' := match outcome
      case Success(_, _) => r.(notFound := 0, transient := 0)
      case NotFound => r.(transient := 0, notFound := r.notFound + 1)
      case Failure => r.(transient := r.transient + 1);
    var u := Update(s, own, r');
    var m := if ref == own then r'.notFound else missed;
    var f := if ref == own then r'.transient else failed;
    assert Counted(u, ref, m, f);
    var delayMs := if outcome.Failure? then BackoffDelay(r.transient + 1, draw) else r.intervalMs;
    SchedulingCountsNothing(u, id, delayMs, ref, m, f);
    SchedulingCountsNothing(Remove(u, id), id, BackoffDelay(1, draw), ref, m, f);
  }

  lemma RecoveryCounts(s: State, id: Id, own: nat, outcome: Outcome, draw: real, ref: nat, missed: nat, failed: nat)
    requires Sound(s) && Linked(s) && own in s.heap && Counted(s, ref, missed, failed)
    ensures var t := FinishRecovery(s, id, own, outcome, draw);
      if outcome.Success? && ref == (if id in s.states then s.states[id] else s.nextRecord) then Counted(t, ref, 0, 0)
      else if !outcome.Success? && ref == own then Counted(t, ref, missed, failed + 1)
      else Counted(t, ref, missed, failed)
  {
    hide Schedule, Start, Sound, BackoffDelay;
    if outcome.Success? {
      StartCounts(s, id, outcome.intervalMs, outcome.radiusPiId, ref, missed, failed);
    } else {
      var u := Update(s, own, s.heap[own].(transient := s.heap[own].transient + 1));
      var f := if ref == own then failed + 1 else failed;
      SchedulingCountsNothing(u, id, BackoffDelay(s.heap[own].transient + 1, draw), ref, missed, f);
    }
  }

  /** Over any run: a record counts the 404s since its last success or start, and its failures likewise. */
  lemma {:induction false} CountsInARow(ss: seq<State>, es: seq<Event>, k: nat, ref: nat)
    requires IsRun(ss, es) && k <= |es|
    ensures Counted(ss[k], ref, Missed(ss, es, k, ref), Failed(ss, es, k, ref))
  {
    hide Step, Sound, Linked, Counted;
    if k > 0 {
      CountsInARow(ss, es, k - 1, ref);
      NeverDoubledNeverDropped(ss, es, k - 1);
      StepCounts(ss, es, k, ref);
    } else {
      NothingCounted(ref);
    }
  }

  lemma NothingCounted(ref: nat)
    ensures Counted(IDLE, ref, 0, 0)
  {
  }

  lemma StepCounts(ss: seq<State>, es: seq<Event>, k: nat, ref: nat)
    requires IsRun(ss, es) && 0 < k <= |es| && Sound(ss[k - 1])
    requires Counted(ss[k - 1], ref, Missed(ss, es, k - 1, ref), Failed(ss, es, k - 1, ref))
    ensures Counted(ss[k], ref, Missed(ss, es, k, ref), Failed(ss, es, k, ref))
  {
    hide Sound, Start, FinishBeat, FinishRecovery, Schedule;
    var (s, e) := (ss[k - 1], es[k - 1]);
    var (missed, failed) := (Missed(ss, es, k - 1, ref), Failed(ss, es, k - 1, ref));
    if e.Finish? {
      var t := EndTask(s, e.task);
      EndTaskSound(s, e.task);
      assert Counted(t, ref, missed, failed);
      match s.tasks[e.task] {
        case Beating(id, own) => BeatCounts(t, id, own, e.outcome, e.enabled, e.live, e.draw, ref, missed, failed);
        case Recovering(id, own) => RecoveryCounts(t, id, own, e.outcome, e.draw, ref, missed, failed);
        case Registering(id) =>
          if e.outcome.Success? { StartCounts(t, id, e.outcome.intervalMs, e.outcome.radiusPiId, ref, missed, failed); }
      }
    }
  }

  /**
   * What a 404 decides. Up to the second in a row the heartbeat goes on. From the third on, an instance that is
   * not live is forgotten, and one that is live is registered anew, if Radius is enabled.
   */
  lemma NotFoundDecides(s: State, k: nat, enabled: bool, live: bool, draw: real)
    requires Linked(s) && k in s.tasks && s.tasks[k].Beating? && s.tasks[k].record in s.heap && 0.0 <= draw < 1.0
    ensures var (id, n) := (s.tasks[k].id, s.heap[s.tasks[k].record].notFound + 1);
      var t := Step(s, Finish(k, NotFound, enabled, live, draw));
      && (id in t.states <==> id in s.states && (n < 3 || live))
      && t.tasks == (s.tasks - {k}) + (if n >= 3 && live && enabled
        then map[s.nextTask := Recovering(id, s.tasks[k].record)] else map[])
      && (n < 3 && id in s.states ==> Armed(t, id))
  {
    var (id, ref) := (s.tasks[k].id, s.tasks[k].record);
    var t := Step(s, Finish(k, NotFound, enabled, live, draw));
    if s.heap[ref].notFound + 1 < 3 && id in s.states { assert t.armed[s.nextTimer] == id; }
  }

  /**
   * When the next heartbeat is due: after a success, or a 404 that is let pass, at the record's interval, as after
   * a start; after `n` failures in a row at a delay that doubles with each, starting from one second and up to half
   * a minute, and up to a quarter more.
   */
  lemma DelaysMean(s: State, e: Event)
    requires Linked(s) && Possible(s, e) && e.Finish? && s.tasks[e.task].id in s.states
    ensures var (k, t) := (s.tasks[e.task], Step(s, e));
      && (e.outcome.Success? ==>
        DueIn(s, t, k.id)
        && t.delays[s.nextTimer] == if k.Beating? then s.heap[k.record].intervalMs else e.outcome.intervalMs)
      && (k.Beating? && e.outcome.NotFound? && s.heap[k.record].notFound < 2 ==>
        DueIn(s, t, k.id) && t.delays[s.nextTimer] == s.heap[k.record].intervalMs)
      && ((k.Beating? && e.outcome.Failure?) || (k.Recovering? && !e.outcome.Success?) ==>
        DueIn(s, t, k.id) && var n := s.heap[k.record].transient + 1;
          ExponentialDelay(n) <= t.delays[s.nextTimer] <= BACKOFF_MAX_MS
          && 4 * t.delays[s.nextTimer] <= 5 * ExponentialDelay(n))
  {
    hide BackoffDelay, ExponentialDelay;
    var k := s.tasks[e.task];
    if !k.Registering? { BackoffBounded(s.heap[k.record].transient + 1, e.draw); }
  }

  /** The next timer set is for `id`, and is armed. */
  predicate DueIn(s: State, t: State, id: Id) {
    s.nextTimer in t.armed && t.armed[s.nextTimer] == id && s.nextTimer in t.delays
  }

  /** A registration is begun exactly while Radius is enabled; reregistering an instance that is not live forgets it. */
  lemma RegisteringMeans(s: State, id: Id, enabled: bool, live: bool)
    requires Linked(s)
    ensures var begun := s.(tasks := s.tasks[s.nextTask := Registering(id)], nextTask := s.nextTask + 1);
      && Step(s, Register(id, enabled)) == (if enabled then begun else s)
      && Step(s, Reregister(id, enabled, true)) == (if enabled then begun else s)
      && id !in Step(s, Reregister(id, enabled, false)).states
      && Step(s, Reregister(id, enabled, false)).tasks == s.tasks
  {
  }
}

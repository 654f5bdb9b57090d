/** The presence object, each method the stretch of code between two awaits. */
module RadiusPresence {
  import opened Wrappers
  import opened Heartbeats
  import opened HeartbeatProofs

  class RadiusPresence {
    var piHeartbeatStates: map<Id, nat>
    var records: map<nat, Record>
    var armed: map<nat, Id>
    var delays: map<nat, int>
    var pending: map<nat, Task>
    var nextRecord: nat
    var nextTimer: nat
    var nextTask: nat

    ghost function View(): State
      reads this
    {
      State(piHeartbeatStates, records, armed, delays, pending, nextRecord, nextTimer, nextTask)
    }

    ghost predicate Valid()
      reads this
    {
      Sound(View())
    }

    constructor ()
      ensures Valid() && View() == IDLE
    {
      piHeartbeatStates, records, armed, delays, pending := map[], map[], map[], map[], map[];
      nextRecord, nextTimer, nextTask := 0, 0, 0;
    }

    method ClearTimer(timer: Option<nat>)
      modifies this`armed
      ensures armed == Disarm(old(armed), timer)
    {
      if timer.Some? { armed := armed - {timer.value}; }
    }

    method SchedulePiHeartbeat(id: Id, delayMs: int)
      requires Valid()
      modifies this`armed, this`delays, this`records, this`nextTimer
      ensures Valid() && View() == Schedule(old(View()), id, delayMs)
    {
      hide Sound;
      IsLinked(View());
      ScheduleSound(View(), id, delayMs);
      if id !in piHeartbeatStates { return; }
      var ref := piHeartbeatStates[id];
      ClearTimer(records[ref].timer);
      records := records[ref := records[ref].(timer := Some(nextTimer))];
      armed, delays := armed[nextTimer := id], delays[nextTimer := delayMs];
      nextTimer := nextTimer + 1;
    }

    method StartPiHeartbeat(id: Id, intervalMs: nat, radiusPiId: Id)
      requires Valid()
      modifies this
      ensures Valid() && View() == Start(old(View()), id, intervalMs, radiusPiId)
    {
      hide Sound, Schedule;
      IsLinked(View());
      PreparedSound(View(), id, intervalMs, radiusPiId);
      var ref, timer := nextRecord, None;
      if id in piHeartbeatStates {
        ref := piHeartbeatStates[id];
        timer := records[ref].timer;
        ClearTimer(timer);
      } else {
        nextRecord := nextRecord + 1;
      }
      records := records[ref := Record(timer, intervalMs, radiusPiId, 0, 0)];
      piHeartbeatStates := piHeartbeatStates[id := ref];
      assert View() == Prepared(old(View()), id, intervalMs, radiusPiId);
      SchedulePiHeartbeat(id, intervalMs);
    }

    method DisconnectPi(id: Id)
      requires Valid()
      modifies this`armed, this`piHeartbeatStates
      ensures Valid() && View() == Remove(old(View()), id)
    {
      hide Sound;
      IsLinked(View());
      RemoveSound(View(), id);
      if id in piHeartbeatStates {
        ClearTimer(records[piHeartbeatStates[id]].timer);
        piHeartbeatStates := piHeartbeatStates - {id};
      }
    }

    /** Clear every timer and forget every instance. */
    method Stop()
      requires Valid()
      modifies this`armed, this`piHeartbeatStates
      ensures Valid() && View() == RemoveAll(old(View())) && armed == map[] && piHeartbeatStates == map[]
    {
      hide Sound;
      RemoveAllSound(View());
      while piHeartbeatStates.Keys != {}
        invariant Valid() && records == old(records) && pending == old(pending)
        invariant nextRecord == old(nextRecord) && nextTimer == old(nextTimer) && nextTask == old(nextTask)
        decreases |piHeartbeatStates.Keys|
      {
        var id :| id in piHeartbeatStates.Keys;
        assert (piHeartbeatStates - {id}).Keys == piHeartbeatStates.Keys - {id};
        DisconnectPi(id);
      }
      NothingArmed();
      assert piHeartbeatStates == map[];
    }

    lemma NothingArmed()
      requires Valid() && piHeartbeatStates.Keys == {}
      ensures armed == map[]
    {
    }

    method Begin(task: Task) returns (k: nat)
      requires Valid() && (task.Registering? || task.record in records)
      modifies this`pending, this`nextTask
      ensures Valid() && View() == AddTask(old(View()), task) && k == old(nextTask)
    {
      AddTaskSound(View(), task);
      k := nextTask;
      pending := pending[k := task];
      nextTask := nextTask + 1;
    }

    /** A timer has gone off: `heartbeatPi` up to its await. */
    method HeartbeatPi(timer: nat, enabled: bool)
      requires Valid() && timer in armed
      modifies this`armed, this`pending, this`nextTask
      ensures Valid() && View() == FireTimer(old(View()), timer, enabled)
    {
      hide Sound;
      IsLinked(View());
      FireSound(View(), timer, false);
      var id := armed[timer];
      armed := armed - {timer};
      if !enabled || id !in piHeartbeatStates { return; }
      var k := Begin(Beating(id, piHeartbeatStates[id]));
    }

    method Store(ref: nat, r: Record)
      requires Valid() && ref in records && r.timer == records[ref].timer
      modifies this`records
      ensures Valid() && View() == Update(old(View()), ref, r)
    {
      UpdateSound(View(), ref, r);
      records := records[ref := r];
    }

    /** The answer to a heartbeat of the record `ref` has come in; `draw` is what `Math.random()` gives. */
    method HeartbeatAnswered(id: Id, ref: nat, outcome: Outcome, enabled: bool, live: bool, draw: real)
      requires Valid() && ref in records && 0.0 <= draw < 1.0
      modifies this
      ensures Linked(old(View())) && Valid()
      ensures View() == FinishBeat(old(View()), id, ref, outcome, enabled, live, draw)
    {
      hide Sound, Schedule, Remove, BackoffDelay;
      IsLinked(View());
      FinishBeatSound(View(), id, ref, outcome, enabled, live, draw);
      var state := records[ref];
      match outcome {
        case Success(_, _) =>
          Store(ref, state.(notFound := 0, transient := 0));
          SchedulePiHeartbeat(id, state.intervalMs);
        case Failure =>
          Store(ref, state.(transient := state.transient + 1));
          SchedulePiHeartbeat(id, BackoffDelay(state.transient + 1, draw));
        case NotFound =>
          Store(ref, state.(transient := 0, notFound := state.notFound + 1));
          if state.notFound + 1 < NOT_FOUND_RETRY_THRESHOLD {
            SchedulePiHeartbeat(id, state.intervalMs);
          } else if !live {
            DisconnectPi(id);
            SchedulePiHeartbeat(id, BackoffDelay(1, draw));
          } else if enabled {
            var k := Begin(Recovering(id, ref));
          }
      }
    }
  }
}

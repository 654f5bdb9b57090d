/**
 * The presence heartbeats of the agents on one machine, as steps between awaits. Heartbeat records are
 * objects that a pending request may still hold after the map has let go of them, so they are kept by
 * reference: `states` maps an instance to its record, `heap` holds all records.
 */
module Heartbeats {
  import opened Wrappers

  type Id = string

  const NOT_FOUND_RETRY_THRESHOLD := 3
  const BACKOFF_BASE_MS := 1000
  const BACKOFF_MAX_MS := 30000

  /** `timer` is the last timer set for the record, armed or not. */
  datatype Record = Record(timer: Option<nat>, intervalMs: nat, radiusPiId: Id, notFound: nat, transient: nat)

  /** A request under way: a heartbeat, the registration that follows too many 404s, or any other registration. */
  datatype Task =
    | Beating(id: Id, record: nat)
    | Recovering(id: Id, record: nat)
    | Registering(id: Id)

  /** `armed` maps a timer that is set to the instance it is for, `delays` every timer ever set to its delay in ms. */
  datatype State = State(
    states: map<Id, nat>, heap: map<nat, Record>, armed: map<nat, Id>, delays: map<nat, int>, tasks: map<nat, Task>,
    nextRecord: nat, nextTimer: nat, nextTask: nat)

  const IDLE := State(map[], map[], map[], map[], map[], 0, 0, 0)

  /* ---------- Delays ---------- */

  function Pow2(n: nat): (p: nat)
    ensures p >= 1
  {
    if n == 0 then 1 else 2 * Pow2(n - 1)
  }

  function ExponentialDelay(failures: nat): int {
    Min(BACKOFF_MAX_MS, BACKOFF_BASE_MS * Pow2(Max(0, failures - 1)))
  }

  function Jitter(draw: real, spread: real): (ms: int)
    ensures 0.0 <= draw < 1.0 && spread >= 0.0 ==> 0 <= ms && ms as real <= spread
  {
    assert 0.0 <= draw < 1.0 && spread >= 0.0 ==> 0.0 <= draw * spread <= spread;
    (draw * spread).Floor
  }

  /** `computeBackoffDelayMs`; `draw` is the random number, from 0 up to but not including 1. */
  function BackoffDelay(failures: nat, draw: real): int {
    var exponential := ExponentialDelay(failures);
    var quarter := exponential as real / 4.0;
    var spread := if quarter > 250.0 then quarter else 250.0;
    Min(BACKOFF_MAX_MS, exponential + Jitter(draw, spread))
  }

  lemma {:induction false} ExponentialGrows(n: nat)
    ensures BACKOFF_BASE_MS <= ExponentialDelay(n) <= ExponentialDelay(n + 1) <= BACKOFF_MAX_MS
    ensures n >= 1 ==> ExponentialDelay(n + 1) == Min(BACKOFF_MAX_MS, 2 * ExponentialDelay(n))
    ensures ExponentialDelay(1) == 1000
  {
    if n >= 1 { assert Pow2(n) == 2 * Pow2(n - 1); }
  }

  /** Every delay lies between the base and the maximum, at most a quarter above the doubled base. */
  lemma BackoffBounded(failures: nat, draw: real)
    requires 0.0 <= draw < 1.0
    ensures BACKOFF_BASE_MS <= ExponentialDelay(failures) <= BackoffDelay(failures, draw) <= BACKOFF_MAX_MS
    ensures 4 * BackoffDelay(failures, draw) <= 5 * ExponentialDelay(failures)
  {
    hide ExponentialDelay, Jitter;
    ExponentialGrows(failures);
    var exponential := ExponentialDelay(failures);
    var quarter := exponential as real / 4.0;
    Quarter(Jitter(draw, quarter), exponential);
  }

  /** The jitter is a share of a quarter of the delay: that never falls below the 250 ms set as its least. */
  lemma JitterIsAQuarter(failures: nat, draw: real)
    requires 0.0 <= draw < 1.0
    ensures var exponential := ExponentialDelay(failures);
      BackoffDelay(failures, draw) == Min(BACKOFF_MAX_MS, exponential + (draw * (exponential as real / 4.0)).Floor)
  {
    hide ExponentialDelay;
    ExponentialGrows(failures);
  }

  lemma Quarter(j: int, n: int)
    requires j as real <= n as real / 4.0
    ensures 4 * j <= n
  {
    assert (4 * j) as real <= n as real;
  }

  /* ---------- The parts of a step ---------- */

  function Disarm(armed: map<nat, Id>, timer: Option<nat>): map<nat, Id> {
    if timer.Some? then armed - {timer.value} else armed
  }

  predicate Linked(s: State) {
    forall id :: id in s.states ==> s.states[id] in s.heap
  }

  /** `schedulePiHeartbeat`: whatever timer the record had is replaced. */
  function Schedule(s: State, id: Id, delayMs: int): State
    requires Linked(s)
  {
    if id !in s.states then s
    else
      var ref := s.states[id];
      s.(armed := Disarm(s.armed, s.heap[ref].timer)[s.nextTimer := id],
         delays := s.delays[s.nextTimer := delayMs],
         heap := s.heap[ref := s.heap[ref].(timer := Some(s.nextTimer))],
         nextTimer := s.nextTimer + 1)
  }

  /** `startPiHeartbeat`: a record that exists is reused. */
  function Start(s: State, id: Id, intervalMs: nat, radiusPiId: Id): State
    requires Linked(s)
  {
    var known := id in s.states;
    var ref := if known then s.states[id] else s.nextRecord;
    var timer := if known then s.heap[ref].timer else None;
    Schedule(
      s.(armed := Disarm(s.armed, timer),
         heap := s.heap[ref := Record(timer, intervalMs, radiusPiId, 0, 0)],
         states := s.states[id := ref],
         nextRecord := if known then s.nextRecord else s.nextRecord + 1),
      id, intervalMs)
  }

  /** What disconnecting does to the map. */
  function Remove(s: State, id: Id): State
    requires Linked(s)
  {
    if id !in s.states then s
    else s.(armed := Disarm(s.armed, s.heap[s.states[id]].timer), states := s.states - {id})
  }

  function AddTask(s: State, t: Task): State {
    s.(tasks := s.tasks[s.nextTask := t], nextTask := s.nextTask + 1)
  }

  function EndTask(s: State, k: nat): State {
    s.(tasks := s.tasks - {k})
  }

  /** A pending request changes its record, wherever that is by now. */
  function Update(s: State, ref: nat, r: Record): State {
    s.(heap := s.heap[ref := r])
  }

  /* ---------- Steps ---------- */

  datatype Outcome = Success(intervalMs: nat, radiusPiId: Id) | NotFound | Failure

  /** `live`: whether the instance is live when that is looked up; `enabled`: whether Radius is; `draw` is random. */
  datatype Event =
    | Register(id: Id, enabled: bool)
    | Reregister(id: Id, enabled: bool, live: bool)
    | Disconnect(id: Id)
    | Stop
    | Fire(timer: nat, enabled: bool)
    | Finish(task: nat, outcome: Outcome, enabled: bool, live: bool, draw: real)

  predicate Possible(s: State, e: Event) {
    match e
    case Fire(t, _) => t in s.armed
    case Finish(k, _, _, _, draw) =>
      k in s.tasks && (s.tasks[k].Registering? || s.tasks[k].record in s.heap) && 0.0 <= draw < 1.0
    case _ => true
  }

  function RemoveAll(s: State): State
    requires Linked(s)
  {
    s.(armed := map t | t in s.armed && forall id :: id in s.states ==> s.heap[s.states[id]].timer != Some(t) :: s.armed[t],
       states := map[])
  }

  /** `heartbeatPi` up to its first await, when a timer goes off. */
  function FireTimer(s: State, t: nat, enabled: bool): State
    requires t in s.armed
  {
    var id := s.armed[t];
    var fired := s.(armed := s.armed - {t});
    if !enabled || id !in s.states then fired else AddTask(fired, Beating(id, s.states[id]))
  }

  /** `heartbeatPi` once its request has come back; `reRegisterPi` up to its await. */
  function FinishBeat(s: State, id: Id, ref: nat, outcome: Outcome, enabled: bool, live: bool, draw: real): State
    requires Linked(s) && ref in s.heap
  {
    var r := s.heap[ref];
    match outcome
    case Success(_, _) => Schedule(Update(s, ref, r.(notFound := 0, transient := 0)), id, r.intervalMs)
    case Failure =>
      Schedule(Update(s, ref, r.(transient := r.transient + 1)), id, BackoffDelay(r.transient + 1, draw))
    case NotFound =>
      var counted := Update(s, ref, r.(transient := 0, notFound := r.notFound + 1));
      if r.notFound + 1 < NOT_FOUND_RETRY_THRESHOLD then Schedule(counted, id, r.intervalMs)
      else if !live then Schedule(Remove(counted, id), id, BackoffDelay(1, draw))
      else if enabled then AddTask(counted, Recovering(id, ref))
      else counted
  }

  /** The registration that recovers from 404s has come back. */
  function FinishRecovery(s: State, id: Id, ref: nat, outcome: Outcome, draw: real): State
    requires Linked(s) && ref in s.heap
  {
    if outcome.Success? then Start(s, id, outcome.intervalMs, outcome.radiusPiId)
    else
      var failed := s.heap[ref].transient + 1;
      Schedule(Update(s, ref, s.heap[ref].(transient := failed)), id, BackoffDelay(failed, draw))
  }

  function Step(s: State, e: Event): State
    requires Linked(s) && Possible(s, e)
  {
    match e
    case Register(id, enabled) => if enabled then AddTask(s, Registering(id)) else s
    case Reregister(id, enabled, live) =>
      if !live then Remove(s, id) else if enabled then AddTask(s, Registering(id)) else s
    case Disconnect(id) => Remove(s, id)
    case Stop => RemoveAll(s)
    case Fire(t, enabled) => FireTimer(s, t, enabled)
    case Finish(k, outcome, enabled, live, draw) =>
      var t := EndTask(s, k);
      match s.tasks[k]
      case Beating(id, ref) => FinishBeat(t, id, ref, outcome, enabled, live, draw)
      case Recovering(id, ref) => FinishRecovery(t, id, ref, outcome, draw)
      case Registering(id) =>
        if outcome.Success? then Start(t, id, outcome.intervalMs, outcome.radiusPiId) else t
  }

  /* ---------- The invariant ---------- */

  /**
   * Every armed timer is the timer of the record its instance has in the map; so an instance has at most
   * one. No two instances share a record, and no two records a timer.
   */
  ghost predicate Sound(s: State) {
    && (forall id :: id in s.states ==> s.states[id] in s.heap)
    && (forall t :: t in s.armed ==> s.armed[t] in s.states && s.heap[s.states[s.armed[t]]].timer == Some(t))
    && (forall i, j :: i in s.states && j in s.states && s.states[i] == s.states[j] ==> i == j)
    && (forall r :: r in s.heap ==>
      r < s.nextRecord && (s.heap[r].timer.Some? ==> s.heap[r].timer.value < s.nextTimer))
    && (forall q, r :: q in s.heap && r in s.heap && q != r && s.heap[q].timer.Some? ==> s.heap[q].timer != s.heap[r].timer)
    && (forall k :: k in s.tasks ==> k < s.nextTask && (s.tasks[k].Registering? || s.tasks[k].record in s.heap))
  }

  ghost predicate Armed(s: State, id: Id) {
    exists t :: t in s.armed && s.armed[t] == id
  }

  ghost predicate InFlight(s: State, id: Id) {
    exists k :: k in s.tasks && !s.tasks[k].Registering? && s.tasks[k].id == id
  }

  /** Every instance in the map has a heartbeat coming or under way. */
  ghost predicate Covered(s: State) {
    forall id :: id in s.states ==> Armed(s, id) || InFlight(s, id)
  }

  lemma ScheduleSound(s: State, id: Id, delayMs: int)
    requires Sound(s)
    ensures Sound(Schedule(s, id, delayMs))
  {
  }
}

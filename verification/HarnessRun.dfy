/**
 * What happens to the harness in a run, as functions of its state and of what the outside does: which
 * messages and writes it is given, which awaits fail, and what arrives while they last.
 */
module HarnessRun {
  import opened Wrappers
  import opened HarnessQueues

  datatype Phase = Idle | Turn

  datatype Which = Steer | FollowUp | NextTurn

  /** What happens while an append is awaited: whether it succeeds, and what is deferred meanwhile. */
  datatype Await = Await(ok: bool, meanwhile: seq<Write>)

  /** What happens in the course of a run, in the order it happens. */
  datatype RunEvent =
    | OnMessageEnd(message: Message, appended: bool, listenersOk: bool)
    | OnTurnEnd(listenersOk: bool, script: seq<Await>)
    | OnAgentEnd(script: seq<Await>, listenersOk: bool)
    | OnOther(listenersOk: bool)
    | PrepareTurn(script: seq<Await>, stateOk: bool)
    | Poll(followUps: bool, all: bool, announced: bool, meanwhile: seq<Message>)
    | Appending(message: Message, appended: bool)
    | Queueing(which: Which, message: Message)

  /**
   * A whole run: the prompt, how the next-turn messages are announced and what the hook before the start
   * adds, what arrives during either; the events of the loop, those of the report if it fails, whether
   * there is a reply in the end, and the last flush.
   */
  datatype Run = Run(
    prompt: Message, announced: bool, meanwhile: seq<Message>, hook: Option<seq<Message>>, duringHook: seq<Message>,
    events: seq<RunEvent>, failure: seq<RunEvent>, answered: bool, final: seq<Await>)

  /** What `emitRunFailure` announces. */
  predicate FailureReport(events: seq<RunEvent>) {
    |events| == 4 && events[0].OnOther? && events[1].OnMessageEnd? && events[2].OnTurnEnd? && events[3].OnAgentEnd?
  }

  predicate EndsInAgentEnd(events: seq<RunEvent>) {
    events != [] && events[|events| - 1].OnAgentEnd?
  }

  predicate Legal(r: Run) {
    EndsInAgentEnd(r.events) && FailureReport(r.failure)
  }

  predicate NoneFails(script: seq<Await>) {
    forall i :: 0 <= i < |script| ==> script[i].ok
  }

  function Arrivals(script: seq<Await>): seq<Write> {
    if script == [] then [] else Arrivals(script[..|script| - 1]) + script[|script| - 1].meanwhile
  }

  /* ---------- The state, and what it is given ---------- */

  datatype Harness = Harness(
    phase: Phase, steering: seq<Message>, followUps: seq<Message>, nextTurn: seq<Message>,
    pending: seq<Write>, log: seq<Entry>)

  /** Messages queued, writes deferred as they are to be recorded, and writes made directly. */
  datatype Given = Given(
    steering: seq<Message>, followUps: seq<Message>, nextTurn: seq<Message>, deferred: seq<Write>, direct: seq<Write>)

  const NOTHING := Given([], [], [], [], [])

  function Plus(a: Given, b: Given): Given {
    Given(a.steering + b.steering, a.followUps + b.followUps, a.nextTurn + b.nextTurn,
          a.deferred + b.deferred, a.direct + b.direct)
  }

  lemma PlusOne(a: Given, messages: seq<Message>, writes: seq<Write>)
    ensures Plus(a, NOTHING) == a
    ensures Plus(a, NOTHING.(steering := messages)) == a.(steering := a.steering + messages)
    ensures Plus(a, NOTHING.(followUps := messages)) == a.(followUps := a.followUps + messages)
    ensures Plus(a, NOTHING.(nextTurn := messages)) == a.(nextTurn := a.nextTurn + messages)
    ensures Plus(a, NOTHING.(deferred := writes)) == a.(deferred := a.deferred + writes)
    ensures Plus(a, NOTHING.(direct := writes)) == a.(direct := a.direct + writes)
  {
    assert a.steering + [] == a.steering && a.followUps + [] == a.followUps && a.nextTurn + [] == a.nextTurn;
    assert a.deferred + [] == a.deferred && a.direct + [] == a.direct;
  }

  lemma PlusThen(a: Given, b: Given, c: Given)
    ensures Plus(Plus(a, b), c) == Plus(a, Plus(b, c))
  {
  }

  /** A state reached, whether all went well, what was polled from the queues, and what was given meanwhile. */
  datatype Effect = Effect(state: Harness, ok: bool, steering: seq<Message>, followUps: seq<Message>, given: Given)

  function Then(a: Effect, b: Effect): Effect {
    Effect(b.state, b.ok, a.steering + b.steering, a.followUps + b.followUps, Plus(a.given, b.given))
  }

  /* ---------- Flushes and drains ---------- */

  datatype FlushResult = FlushResult(pending: seq<Write>, log: seq<Entry>, arrived: seq<Write>, ok: bool)

  /** Past the end of the script appends succeed and nothing arrives. */
  function NextAwait(script: seq<Await>): Await {
    if script == [] then Await(true, []) else script[0]
  }

  function LaterAwaits(script: seq<Await>): seq<Await> {
    if script == [] then [] else script[1..]
  }

  function Flush(pending: seq<Write>, log: seq<Entry>, script: seq<Await>): FlushResult
    decreases |script|, |pending|
  {
    if pending == [] then FlushResult([], log, [], true)
    else
      var now := NextAwait(script);
      if !now.ok then FlushResult(pending + now.meanwhile, log, now.meanwhile, false)
      else After(now.meanwhile,
        Flush(pending[1..] + now.meanwhile, log + [Flushed(Recorded(pending[0]))], LaterAwaits(script)))
  }

  function After(arrived: seq<Write>, r: FlushResult): FlushResult {
    r.(arrived := arrived + r.arrived)
  }

  /** A flush leaves nothing waiting exactly when no append it comes to fails. */
  lemma {:induction false} FlushEmpties(pending: seq<Write>, log: seq<Entry>, script: seq<Await>)
    ensures var r := Flush(pending, log, script);
      && (r.ok <==> r.pending == [])
      && (NoneFails(script) ==> r.ok)
      && log <= r.log
    decreases |script|, |pending|
  {
    if pending != [] && NextAwait(script).ok {
      FlushEmpties(pending[1..] + NextAwait(script).meanwhile, log + [Flushed(Recorded(pending[0]))], LaterAwaits(script));
    }
  }

  datatype DrainResult = DrainResult(messages: seq<Message>, left: seq<Message>, arrived: seq<Message>, ok: bool)

  /** An empty queue is not announced. */
  function Drain(queue: seq<Message>, all: bool, announced: bool, meanwhile: seq<Message>): DrainResult {
    if queue == [] then DrainResult([], [], [], true)
    else if announced then DrainResult(Front(all, queue), queue[|Front(all, queue)|..] + meanwhile, meanwhile, true)
    else DrainResult([], queue + meanwhile, meanwhile, false)
  }

  /* ---------- One event, and many ---------- */

  function HandleFlush(s: Harness, script: seq<Await>, otherwiseOk: bool, ends: bool): Effect {
    var f := Flush(s.pending, s.log, script);
    Effect(s.(pending := f.pending, log := f.log, phase := if f.ok && ends then Idle else s.phase),
           f.ok && otherwiseOk, [], [], NOTHING.(deferred := RecordedAll(f.arrived)))
  }

  function HandleWrite(s: Harness, w: Write, directly: bool, appended: bool): Effect {
    if !directly then Effect(s.(pending := s.pending + [w]), true, [], [], NOTHING.(deferred := [Recorded(w)]))
    else if appended then Effect(s.(log := s.log + [Own(w)]), true, [], [], NOTHING.(direct := [w]))
    else Effect(s, true, [], [], NOTHING)
  }

  function HandleQueueing(s: Harness, which: Which, m: Message): Effect {
    match which
    case NextTurn => Effect(s.(nextTurn := s.nextTurn + [m]), true, [], [], NOTHING.(nextTurn := [m]))
    case Steer =>
      if s.phase == Idle then Effect(s, true, [], [], NOTHING)
      else Effect(s.(steering := s.steering + [m]), true, [], [], NOTHING.(steering := [m]))
    case FollowUp =>
      if s.phase == Idle then Effect(s, true, [], [], NOTHING)
      else Effect(s.(followUps := s.followUps + [m]), true, [], [], NOTHING.(followUps := [m]))
  }

  /** One step of a run; it is not `ok` if it makes the run fail. */
  function Handle(s: Harness, e: RunEvent): Effect {
    match e
    case OnMessageEnd(m, appended, listenersOk) =>
      HandleWrite(s, MessageWrite(m), true, appended).(ok := appended && listenersOk)
    case OnTurnEnd(listenersOk, script) => HandleFlush(s, script, listenersOk, false)
    case OnAgentEnd(script, listenersOk) => HandleFlush(s, script, listenersOk, true)
    case OnOther(listenersOk) => Effect(s, listenersOk, [], [], NOTHING)
    case PrepareTurn(script, stateOk) => HandleFlush(s, script, stateOk, false)
    case Poll(false, all, announced, meanwhile) =>
      var d := Drain(s.steering, all, announced, meanwhile);
      Effect(s.(steering := d.left), d.ok, d.messages, [], NOTHING.(steering := d.arrived))
    case Poll(true, all, announced, meanwhile) =>
      var d := Drain(s.followUps, all, announced, meanwhile);
      Effect(s.(followUps := d.left), d.ok, [], d.messages, NOTHING.(followUps := d.arrived))
    case Appending(m, appended) => HandleWrite(s, MessageWrite(m), s.phase == Idle, appended)
    case Queueing(which, m) => HandleQueueing(s, which, m)
  }

  /** Events one after the other, up to the first that fails. */
  function HandleAll(s: Harness, events: seq<RunEvent>): Effect {
    if events == [] then Effect(s, true, [], [], NOTHING)
    else
      var n := |events| - 1;
      var before := HandleAll(s, events[..n]);
      if before.ok then Then(before, Handle(before.state, events[n])) else before
  }

  lemma HandleSnoc(s: Harness, events: seq<RunEvent>, i: nat)
    requires i < |events| && HandleAll(s, events[..i]).ok
    ensures HandleAll(s, events[..i + 1]) ==
      Then(HandleAll(s, events[..i]), Handle(HandleAll(s, events[..i]).state, events[i]))
  {
    hide Handle;
    assert events[..i + 1][..i] == events[..i];
  }

  /** What comes after a failure does not happen. */
  lemma {:induction false} HandleStops(s: Harness, events: seq<RunEvent>, i: nat)
    requires i <= |events| && !HandleAll(s, events[..i]).ok
    ensures HandleAll(s, events) == HandleAll(s, events[..i])
  {
    hide Handle;
    var n := |events| - 1;
    if i <= n {
      assert events[..n][..i] == events[..i];
      HandleStops(s, events[..n], i);
    } else {
      assert events[..i] == events;
    }
  }

  /* ---------- The start of a run, and the whole of it ---------- */

  /** `messages` are what the run starts with, `lost` what is gone although it does not. */
  datatype Start = Start(
    state: Harness, ok: bool, messages: seq<Message>, sent: seq<Message>, lost: seq<Message>, given: Given)

  /** The queue is announced before the hook runs; a hook that fails is too late to put the messages back. */
  function StartRun(s: Harness, r: Run): Start {
    var d := Drain(s.nextTurn, true, r.announced, r.meanwhile);
    if !d.ok then Start(s.(nextTurn := d.left), false, [], [], [], NOTHING.(nextTurn := d.arrived))
    else
      var (t, given) := (s.(nextTurn := d.left + r.duringHook), NOTHING.(nextTurn := d.arrived + r.duringHook));
      if r.hook.None? then Start(t, false, [], [], d.messages, given)
      else Start(t, true, d.messages + [r.prompt] + r.hook.value, d.messages, [], given)
  }

  /** Once it has started: the loop, the report of a failed one, and whatever came of it a last flush. */
  function Finish(s: Harness, r: Run): Effect {
    var loop := HandleAll(s, r.events);
    var told := if loop.ok then loop else Then(loop, HandleAll(loop.state, r.failure));
    var last := HandleFlush(told.state, r.final, true, false);
    Then(told, last).(ok := told.ok && r.answered && last.ok)
  }

  function Execute(s: Harness, r: Run): Effect {
    var start := StartRun(s, r);
    if !start.ok then Effect(start.state, false, [], [], start.given)
    else
      var rest := Finish(start.state, r);
      rest.(given := Plus(start.given, rest.given))
  }

  /* ---------- What goes in comes out ---------- */

  /**
   * What was polled and then what waits is what waited and then what was given, in order; the same of the
   * writes that flushes have logged and those that wait; and whatever else is logged was written directly.
   */
  ghost predicate Balanced(s: Harness, e: Effect) {
    && e.steering + e.state.steering == s.steering + e.given.steering
    && e.followUps + e.state.followUps == s.followUps + e.given.followUps
    && LoggedBy(true, e.state.log) + RecordedAll(e.state.pending) ==
       LoggedBy(true, s.log) + RecordedAll(s.pending) + e.given.deferred
    && LoggedBy(false, e.state.log) == LoggedBy(false, s.log) + e.given.direct
  }

  lemma Regroup<T>(a: seq<T>, b: seq<T>, c: seq<T>)
    ensures a + (b + c) == a + b + c && a + [] == a && [] + a == a
  {
  }

  lemma {:induction false} FlushBalances(pending: seq<Write>, log: seq<Entry>, script: seq<Await>)
    ensures var r := Flush(pending, log, script);
      && LoggedBy(true, r.log) + RecordedAll(r.pending) ==
         LoggedBy(true, log) + RecordedAll(pending) + RecordedAll(r.arrived)
      && LoggedBy(false, r.log) == LoggedBy(false, log)
    decreases |script|, |pending|
  {
    hide LoggedBy, RecordedAll;
    if pending == [] {
      RecordedConcat([], []);
      Regroup(LoggedBy(true, log), RecordedAll(pending), RecordedAll([]));
    } else {
      var now := NextAwait(script);
      RecordedConcat(pending, now.meanwhile);
      if now.ok {
        var head := Flushed(Recorded(pending[0]));
        var rest := Flush(pending[1..] + now.meanwhile, log + [head], LaterAwaits(script));
        FlushBalances(pending[1..] + now.meanwhile, log + [head], LaterAwaits(script));
        LoggedSnoc(log, head);
        RecordedOne(pending[0]);
        assert pending + now.meanwhile == [pending[0]] + (pending[1..] + now.meanwhile);
        RecordedConcat([pending[0]], pending[1..] + now.meanwhile);
        RecordedConcat(now.meanwhile, rest.arrived);
        var (l, h, p) := (LoggedBy(true, log), [Recorded(pending[0])], RecordedAll(pending[1..] + now.meanwhile));
        Regroup(l, h, p);
        Regroup(l + RecordedAll(pending), RecordedAll(now.meanwhile), RecordedAll(rest.arrived));
      }
      Regroup(LoggedBy(true, log), RecordedAll(pending), RecordedAll(now.meanwhile));
    }
  }

  lemma DrainBalances(queue: seq<Message>, all: bool, announced: bool, meanwhile: seq<Message>)
    ensures var d := Drain(queue, all, announced, meanwhile); d.messages + d.left == queue + d.arrived
  {
    assert queue == Front(all, queue) + queue[|Front(all, queue)|..];
  }

  lemma NothingBalances(s: Harness, ok: bool)
    ensures Balanced(s, Effect(s, ok, [], [], NOTHING))
  {
    hide LoggedBy, RecordedAll;
  }

  lemma FlushingBalances(s: Harness, script: seq<Await>, otherwiseOk: bool, ends: bool)
    ensures Balanced(s, HandleFlush(s, script, otherwiseOk, ends))
  {
    hide LoggedBy, RecordedAll, Flush;
    FlushBalances(s.pending, s.log, script);
  }

  lemma WritingBalances(s: Harness, w: Write, directly: bool, appended: bool)
    ensures Balanced(s, HandleWrite(s, w, directly, appended))
  {
    hide LoggedBy, RecordedAll;
    RecordedConcat(s.pending, [w]);
    RecordedOne(w);
    LoggedSnoc(s.log, Own(w));
  }

  lemma HandleBalances(s: Harness, e: RunEvent)
    ensures Balanced(s, Handle(s, e))
  {
    hide LoggedBy, RecordedAll, HandleFlush, HandleWrite, Drain;
    match e
    case OnMessageEnd(m, appended, _) => WritingBalances(s, MessageWrite(m), true, appended);
    case OnTurnEnd(listenersOk, script) => FlushingBalances(s, script, listenersOk, false);
    case OnAgentEnd(script, listenersOk) => FlushingBalances(s, script, listenersOk, true);
    case OnOther(ok) => NothingBalances(s, ok);
    case PrepareTurn(script, stateOk) => FlushingBalances(s, script, stateOk, false);
    case Poll(followUps, all, announced, meanwhile) =>
      DrainBalances(if followUps then s.followUps else s.steering, all, announced, meanwhile);
    case Appending(m, appended) => WritingBalances(s, MessageWrite(m), s.phase == Idle, appended);
    case Queueing(_, _) =>
  }

  lemma ThenBalances(s: Harness, a: Effect, b: Effect)
    requires Balanced(s, a) && Balanced(a.state, b)
    ensures Balanced(s, Then(a, b))
  {
    hide LoggedBy, RecordedAll;
    var (t, u) := (a.state, b.state);
    Regroup(a.steering, b.steering, u.steering);
    Regroup(a.steering, t.steering, b.given.steering);
    Regroup(s.steering, a.given.steering, b.given.steering);
    Regroup(a.followUps, b.followUps, u.followUps);
    Regroup(a.followUps, t.followUps, b.given.followUps);
    Regroup(s.followUps, a.given.followUps, b.given.followUps);
    Regroup(LoggedBy(true, s.log) + RecordedAll(s.pending), a.given.deferred, b.given.deferred);
    Regroup(LoggedBy(false, s.log), a.given.direct, b.given.direct);
  }

  lemma {:induction false} HandleAllBalances(s: Harness, events: seq<RunEvent>)
    ensures Balanced(s, HandleAll(s, events))
  {
    hide Balanced, Handle;
    if events == [] {
      NothingBalances(s, true);
    } else {
      var n := |events| - 1;
      var before := HandleAll(s, events[..n]);
      HandleAllBalances(s, events[..n]);
      if before.ok {
        HandleBalances(before.state, events[n]);
        ThenBalances(s, before, Handle(before.state, events[n]));
      }
    }
  }

  lemma SameBalance(s: Harness, a: Effect, ok: bool)
    requires Balanced(s, a)
    ensures Balanced(s, a.(ok := ok))
  {
    hide LoggedBy, RecordedAll;
  }

  lemma FinishBalances(s: Harness, r: Run)
    ensures Balanced(s, Finish(s, r))
  {
    hide Balanced, HandleAll, HandleFlush;
    var loop := HandleAll(s, r.events);
    HandleAllBalances(s, r.events);
    HandleAllBalances(loop.state, r.failure);
    ThenBalances(s, loop, HandleAll(loop.state, r.failure));
    var told := if loop.ok then loop else Then(loop, HandleAll(loop.state, r.failure));
    FlushingBalances(told.state, r.final, true, false);
    var last := HandleFlush(told.state, r.final, true, false);
    ThenBalances(s, told, last);
    SameBalance(s, Then(told, last), told.ok && r.answered && last.ok);
  }

  /** What the run starts with or loses, and then what waits, is what waited and then what was given. */
  lemma StartBalances(s: Harness, r: Run)
    ensures var t := StartRun(s, r);
      && t.sent + t.lost + t.state.nextTurn == s.nextTurn + t.given.nextTurn
      && (t.ok ==> t.messages == t.sent + [r.prompt] + r.hook.value && t.lost == [])
      && (!t.ok ==> t.sent == [] && (t.lost != [] <==> s.nextTurn != [] && r.announced && r.hook.None?))
      && t.state == s.(nextTurn := t.state.nextTurn) && t.given == NOTHING.(nextTurn := t.given.nextTurn)
  {
    hide Drain;
    var d := Drain(s.nextTurn, true, r.announced, r.meanwhile);
    DrainBalances(s.nextTurn, true, r.announced, r.meanwhile);
    Regroup(d.messages, d.left, r.duringHook);
    Regroup(s.nextTurn, d.arrived, r.duringHook);
    Regroup([], d.messages, d.left);
    AllDrained(s.nextTurn, r.announced, r.meanwhile);
  }

  lemma AllDrained(queue: seq<Message>, announced: bool, meanwhile: seq<Message>)
    ensures var d := Drain(queue, true, announced, meanwhile);
      && (d.ok <==> announced || queue == []) && (d.messages != [] <==> announced && queue != [])
  {
  }

  /**
   * Over a whole run, whatever fails in it: everything that waited or was given is polled or waits, logged or
   * waits, each once and in order; and nothing waits to be written if the run ends well, or has started
   * and its last flush has no failure.
   */
  lemma ExecuteBalances(s: Harness, r: Run)
    ensures Balanced(s, Execute(s, r))
    ensures Execute(s, r).ok || (StartRun(s, r).ok && NoneFails(r.final)) ==> Execute(s, r).state.pending == []
  {
    hide LoggedBy, RecordedAll, HandleAll, Flush;
    var start := StartRun(s, r);
    StartBalances(s, r);
    FinishBalances(start.state, r);
    LastFlush(start.state, r);
  }

  lemma LastFlush(s: Harness, r: Run)
    ensures Finish(s, r).ok || NoneFails(r.final) ==> Finish(s, r).state.pending == []
  {
    hide HandleAll, Flush;
    var loop := HandleAll(s, r.events);
    var told := if loop.ok then loop else Then(loop, HandleAll(loop.state, r.failure));
    FlushEmpties(told.state.pending, told.state.log, r.final);
  }

  /** A run that goes well has handled its `agent_end`, and leaves the harness idle. */
  lemma ExecuteIdle(s: Harness, r: Run)
    requires Legal(r)
    ensures Execute(s, r).ok ==> Execute(s, r).state.phase == Idle
  {
    hide Flush, HandleAll;
    var start := StartRun(s, r);
    var loop := HandleAll(start.state, r.events);
    EndsIdle(start.state, r.events);
    EndsIdle(loop.state, r.failure);
  }

  lemma EndsIdle(s: Harness, events: seq<RunEvent>)
    requires EndsInAgentEnd(events)
    ensures HandleAll(s, events).ok ==> HandleAll(s, events).state.phase == Idle
  {
    hide Flush;
  }
}

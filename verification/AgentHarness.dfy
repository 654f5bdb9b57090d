/**
 * The harness object: its queues, its deferred writes, and the session log they go to. Each queue and the
 * writes keep the history of their steps, and every method adds to it the steps of `HarnessQueues` it takes;
 * what a run does to the fields is what `HarnessRun` says.
 */
module AgentHarness {
  import opened Wrappers
  import opened HarnessQueues
  import opened HarnessRun

  /** One of the harness's queues. A drain under way holds what it has taken off. */
  class MessageQueue {
    var messages: seq<Message>
    ghost var inHand: Option<seq<Message>>
    ghost var taken: seq<Handed>
    ghost var steps: seq<QueueStep>

    ghost predicate Valid()
      reads this
    {
      QueueAfter(EMPTY_QUEUE, steps) == Some(Queue(messages, inHand, taken))
    }

    constructor ()
      ensures Valid() && messages == [] && inHand == None && taken == [] && steps == []
    {
      messages, inHand, taken, steps := [], None, [], [];
    }

    /** What has been handed over, what is in hand and what waits is what was ever pushed. */
    lemma Conserves()
      requires Valid() && inHand == None
      ensures Messages(taken) + messages == Pushed(steps)
    {
      hide QueueAfter, Pushed, Messages;
      NothingLostOrReordered(EMPTY_QUEUE, steps);
      assert Ledger(EMPTY_QUEUE) == [];
      assert [] + Pushed(steps) == Pushed(steps);
      assert Messages(taken) + [] + messages == Messages(taken) + messages;
    }

    /** A step of the history, once the fields have made it. */
    ghost method Note(e: QueueStep, before: Queue)
      requires QueueAfter(EMPTY_QUEUE, steps) == Some(before) && CanQueue(before, e)
      requires QueueNext(before, e) == Queue(messages, inHand, taken)
      modifies this`steps
      ensures Valid() && steps == old(steps) + [e]
      ensures Pushed(steps) == old(Pushed(steps)) + if e.Push? then [e.message] else []
    {
      hide QueueAfter, Pushed, CanQueue, QueueNext;
      QueueSnoc(EMPTY_QUEUE, steps, e);
      steps := steps + [e];
    }

    method Append(message: Message)
      requires Valid()
      modifies this
      ensures Valid() && messages == old(messages) + [message] && inHand == old(inHand) && taken == old(taken)
      ensures steps == old(steps) + [Push(message)] && Pushed(steps) == old(Pushed(steps)) + [message]
    {
      hide QueueAfter, Pushed;
      ghost var before := Queue(messages, inHand, taken);
      messages := messages + [message];
      Note(Push(message), before);
    }

    method AppendAll(more: seq<Message>)
      requires Valid()
      modifies this
      ensures Valid() && messages == old(messages) + more && inHand == old(inHand) && taken == old(taken)
      ensures steps == old(steps) + Pushes(more) && Pushed(steps) == old(Pushed(steps)) + more
    {
      hide Valid, Pushed;
      for i := 0 to |more|
        invariant Valid() && messages == old(messages) + more[..i] && inHand == old(inHand) && taken == old(taken)
        invariant steps == old(steps) + Pushes(more[..i]) && Pushed(steps) == old(Pushed(steps)) + more[..i]
      {
        Append(more[i]);
        assert more[..i + 1] == more[..i] + [more[i]];
      }
      assert more[..|more|] == more;
    }

    /** Take messages off the front; none from an empty queue. */
    method Take(all: bool) returns (front: seq<Message>)
      requires Valid() && inHand == None
      modifies this
      ensures Valid() && front == Front(all, old(messages)) && taken == old(taken)
      ensures front + messages == old(messages) && (if all then messages == [] else |front| <= 1)
      ensures messages == old(messages)[|front|..] && inHand == (if front == [] then None else Some(front))
      ensures steps == old(steps) + [Begin(all)] && Pushed(steps) == old(Pushed(steps))
    {
      hide QueueAfter, Pushed;
      ghost var before := Queue(messages, inHand, taken);
      front := if all || messages == [] then messages else messages[..1];
      messages := messages[|front|..];
      inHand := if front == [] then None else Some(front);
      Note(Begin(all), before);
    }

    /** What is in hand goes to a run, or is lost. */
    ghost method HandOver(reached: bool)
      requires Valid() && inHand.Some?
      modifies this`inHand, this`taken, this`steps
      ensures Valid() && inHand == None && taken == old(taken) + HandedAll(old(inHand).value, reached)
      ensures steps == old(steps) + [if reached then Announced else Abandoned] && Pushed(steps) == old(Pushed(steps))
    {
      hide QueueAfter, Pushed;
      ghost var before := Queue(messages, inHand, taken);
      taken := taken + HandedAll(inHand.value, reached);
      inHand := None;
      Note(if reached then Announced else Abandoned, before);
    }

    /** What is in hand goes back to the front. */
    method PutBack(front: seq<Message>)
      requires Valid() && inHand == Some(front)
      modifies this
      ensures Valid() && messages == front + old(messages) && inHand == None && taken == old(taken)
      ensures steps == old(steps) + [Failed] && Pushed(steps) == old(Pushed(steps))
    {
      hide QueueAfter, Pushed;
      ghost var before := Queue(messages, inHand, taken);
      messages := front + messages;
      inHand := None;
      Note(Failed, before);
    }
  }

  class AgentHarness {
    var phase: Phase
    const steerQueue: MessageQueue
    const followUpQueue: MessageQueue
    const nextTurnQueue: MessageQueue
    var pendingSessionWrites: seq<Write>
    var log: seq<Entry>
    ghost var writeSteps: seq<WriteStep>

    ghost predicate WritesValid()
      reads this
    {
      WritesAfter(NO_WRITES, writeSteps) == Some(Writes(pendingSessionWrites, log, map[]))
    }

    ghost predicate QueuesValid()
      reads steerQueue, followUpQueue, nextTurnQueue
    {
      && steerQueue.Valid() && followUpQueue.Valid() && nextTurnQueue.Valid()
      && steerQueue.inHand == None && followUpQueue.inHand == None && nextTurnQueue.inHand == None
      && steerQueue != followUpQueue && followUpQueue != nextTurnQueue && nextTurnQueue != steerQueue
    }

    ghost predicate Valid()
      reads this, steerQueue, followUpQueue, nextTurnQueue
    {
      WritesValid() && QueuesValid()
    }

    ghost function Queues(): set<MessageQueue> {
      {steerQueue, followUpQueue, nextTurnQueue}
    }

    /** The fields as one value. */
    ghost function State(): Harness
      reads this, steerQueue, followUpQueue, nextTurnQueue
    {
      Harness(phase, steerQueue.messages, followUpQueue.messages, nextTurnQueue.messages, pendingSessionWrites, log)
    }

    /** Everything the harness has ever been given, by the histories. */
    ghost function Received(): Given
      reads this, steerQueue, followUpQueue, nextTurnQueue
    {
      Given(Pushed(steerQueue.steps), Pushed(followUpQueue.steps), Pushed(nextTurnQueue.steps),
            Deferred(writeSteps), Directly(writeSteps))
    }

    constructor ()
      ensures Valid() && State() == Harness(Idle, [], [], [], [], []) && Received() == NOTHING
      ensures fresh(steerQueue) && fresh(followUpQueue) && fresh(nextTurnQueue)
    {
      phase := Idle;
      steerQueue := new MessageQueue();
      followUpQueue := new MessageQueue();
      nextTurnQueue := new MessageQueue();
      pendingSessionWrites, log, writeSteps := [], [], [];
    }

    /** Every deferred write is in the log or waits, once and in order; the rest of the log was written directly. */
    lemma Accounts()
      requires WritesValid()
      ensures LoggedBy(true, log) + RecordedAll(pendingSessionWrites) == Deferred(writeSteps)
      ensures LoggedBy(false, log) == Directly(writeSteps)
    {
      hide WritesAfter, LoggedBy, RecordedAll;
      WrittenOnceInOrder(writeSteps);
    }

    /* ---------- Queues ---------- */

    function QueueOf(which: Which): MessageQueue {
      match which
      case Steer => steerQueue
      case FollowUp => followUpQueue
      case NextTurn => nextTurnQueue
    }

    /** `steer`, `followUp` and `nextTurn`; the first two are refused while idle. */
    method Enqueue(which: Which, message: Message) returns (ok: bool)
      requires Valid()
      modifies QueueOf(which)
      ensures Valid() && QueueOf(which).taken == old(QueueOf(which).taken)
      ensures ok <==> which.NextTurn? || phase != Idle
      ensures QueueOf(which).messages == old(QueueOf(which).messages) + if ok then [message] else []
      ensures QueueOf(which).steps == old(QueueOf(which).steps) + if ok then [Push(message)] else []
      ensures Pushed(QueueOf(which).steps) == old(Pushed(QueueOf(which).steps)) + if ok then [message] else []
    {
      if phase == Idle && !which.NextTurn? { return false; }
      QueueOf(which).Append(message);
      ok := true;
    }

    /**
     * `drainQueuedMessages`: take a prefix off and announce it. `meanwhile` is queued while the
     * announcement is awaited. If that fails, the prefix goes back ahead of it.
     */
    static method DrainQueuedMessages(queue: MessageQueue, all: bool, announced: bool, meanwhile: seq<Message>)
      returns (messages: seq<Message>, ok: bool)
      requires queue.Valid() && queue.inHand == None
      modifies queue
      ensures queue.Valid() && queue.inHand == None && queue.taken == old(queue.taken) + HandedAll(messages, true)
      ensures queue.steps == old(queue.steps) + DrainSteps(old(queue.messages) == [], all, announced, meanwhile)
      ensures var d := Drain(old(queue.messages), all, announced, meanwhile);
        && messages == d.messages && ok == d.ok && queue.messages == d.left
        && Pushed(queue.steps) == old(Pushed(queue.steps)) + d.arrived
    {
      hide MessageQueue.Valid, Pushed, Pushes;
      messages := queue.Take(all);
      ok := true;
      if messages == [] { return; }
      queue.AppendAll(meanwhile);
      if announced {
        queue.HandOver(true);
        return;
      }
      Regroup(messages, old(queue.messages)[|messages|..], meanwhile);
      queue.PutBack(messages);
      return [], false;
    }

    /* ---------- Session writes ---------- */

    /** A write that goes to the log at once. */
    method WriteDirectly(write: Write)
      requires WritesValid()
      modifies this`log, this`writeSteps
      ensures WritesValid() && log == old(log) + [Own(write)] && writeSteps == old(writeSteps) + [Direct(write)]
      ensures Directly(writeSteps) == old(Directly(writeSteps)) + [write]
      ensures Deferred(writeSteps) == old(Deferred(writeSteps))
    {
      hide WritesAfter, Deferred, Directly;
      WriteSnoc(NO_WRITES, writeSteps, Direct(write));
      log := log + [Own(write)];
      writeSteps := writeSteps + [Direct(write)];
    }

    /** A write that waits for the next flush. */
    method WriteLater(write: Write)
      requires WritesValid()
      modifies this`pendingSessionWrites, this`writeSteps
      ensures WritesValid() && pendingSessionWrites == old(pendingSessionWrites) + [write]
      ensures writeSteps == old(writeSteps) + [Defer(write)]
      ensures Deferred(writeSteps) == old(Deferred(writeSteps)) + [Recorded(write)]
      ensures Directly(writeSteps) == old(Directly(writeSteps))
    {
      hide WritesAfter, Deferred, Directly;
      WriteSnoc(NO_WRITES, writeSteps, Defer(write));
      pendingSessionWrites := pendingSessionWrites + [write];
      writeSteps := writeSteps + [Defer(write)];
    }

    /** `appendMessage`: a write goes to the log at once when idle, and is deferred otherwise. */
    method AppendMessage(message: Message, ok: bool)
      requires WritesValid()
      modifies this`pendingSessionWrites, this`log, this`writeSteps
      ensures WritesValid()
      ensures var w := MessageWrite(message);
        if phase != Idle then
          && log == old(log) && pendingSessionWrites == old(pendingSessionWrites) + [w]
          && writeSteps == old(writeSteps) + [Defer(w)]
        else
          && pendingSessionWrites == old(pendingSessionWrites)
          && log == old(log) + (if ok then [Own(w)] else [])
          && writeSteps == old(writeSteps) + (if ok then [Direct(w)] else [])
      ensures var deferred: seq<Write> := if phase != Idle then [MessageWrite(message)] else [];
        Deferred(writeSteps) == old(Deferred(writeSteps)) + deferred
      ensures var direct: seq<Write> := if phase == Idle && ok then [MessageWrite(message)] else [];
        Directly(writeSteps) == old(Directly(writeSteps)) + direct
    {
      hide WritesAfter, Deferred, Directly;
      Regroup(Deferred(writeSteps), [], []);
      Regroup(Directly(writeSteps), [], []);
      if phase == Idle {
        if ok { WriteDirectly(MessageWrite(message)); }
      } else {
        WriteLater(MessageWrite(message));
      }
    }

    /** What a flush that has looked at `seen` has added to the history: their arrivals, and nothing written directly. */
    ghost predicate Flushes(before: seq<WriteStep>, seen: seq<Await>)
      reads this
    {
      && before <= writeSteps
      && Deferred(writeSteps) == Deferred(before) + RecordedAll(Arrivals(seen))
      && Directly(writeSteps) == Directly(before)
    }

    /**
     * `flushPendingSessionWrites`. The script says what happens during each append; past its end appends
     * succeed and nothing arrives. A failed append ends the flush, its write still at the head.
     */
    method FlushPendingSessionWrites(script: seq<Await>) returns (ok: bool, used: nat)
      requires WritesValid()
      modifies this`pendingSessionWrites, this`log, this`writeSteps
      ensures WritesValid() && used <= |script| && old(log) <= log
      ensures Flushes(old(writeSteps), script[..used])
      ensures Flush(old(pendingSessionWrites), old(log), script) ==
        FlushResult(pendingSessionWrites, log, Arrivals(script[..used]), ok)
      ensures ok ==> pendingSessionWrites == []
      ensures !ok ==> pendingSessionWrites != [] && used > 0 && !script[used - 1].ok
      ensures ok <==> forall i :: 0 <= i < used ==> script[i].ok
    {
      hide WritesAfter, Deferred, Directly, RecordedAll, AppendSteps, WriteNext, Flush, Arrivals;
      used := 0;
      FlushStarts(writeSteps, pendingSessionWrites, log);
      writeSteps := writeSteps + [StartFlush(0)];
      NoArrivals(Deferred(writeSteps), script, Flush(pendingSessionWrites, log, script));
      while pendingSessionWrites != []
        invariant used <= |script| && old(log) <= log
        invariant WritesAfter(NO_WRITES, writeSteps) == Some(Flushing(pendingSessionWrites, log))
        invariant Flushes(old(writeSteps), script[..used])
        invariant Flush(old(pendingSessionWrites), old(log), script) ==
          After(Arrivals(script[..used]), Flush(pendingSessionWrites, log, script[used..]))
        invariant forall i :: 0 <= i < used ==> script[i].ok
        decreases |script| - used, |pendingSessionWrites|
      {
        var write := pendingSessionWrites[0];
        var now := if used < |script| then script[used] else Await(true, []);
        FlushGoesOn(writeSteps, pendingSessionWrites, log, now.ok, now.meanwhile);
        MoreArrivals(script, used, Deferred(old(writeSteps)));
        FlushUnrolls(pendingSessionWrites, log, script, used);
        writeSteps := writeSteps + AppendSteps(now.ok, now.meanwhile);
        assert (pendingSessionWrites + now.meanwhile)[1..] == pendingSessionWrites[1..] + now.meanwhile;
        pendingSessionWrites := pendingSessionWrites + now.meanwhile;
        used := if used < |script| then used + 1 else used;
        if !now.ok { return false, used; }
        log := log + [Flushed(Recorded(write))];
        pendingSessionWrites := pendingSessionWrites[1..];
      }
      FlushNothing(log, script[used..], Arrivals(script[..used]));
      ok := true;
    }
  
    /** `message_end`: the run's own messages are written directly, ahead of what is deferred. */
    method MessageEnd(message: Message, appended: bool, listenersOk: bool) returns (ok: bool)
      requires WritesValid()
      modifies this`log, this`writeSteps
      ensures WritesValid() && (ok <==> appended && listenersOk)
      ensures log == old(log) + if appended then [Own(MessageWrite(message))] else []
      ensures writeSteps == old(writeSteps) + if appended then [Direct(MessageWrite(message))] else []
      ensures Deferred(writeSteps) == old(Deferred(writeSteps))
      ensures var direct: seq<Write> := if appended then [MessageWrite(message)] else [];
        Directly(writeSteps) == old(Directly(writeSteps)) + direct
    {
      hide WritesAfter, Deferred, Directly;
      Regroup(Directly(writeSteps), [], []);
      if appended { WriteDirectly(MessageWrite(message)); }
      ok := appended && listenersOk;
    }

    /** `turn_end`: listeners first, then the flush even if one of them failed. */
    method TurnEnd(listenersOk: bool, script: seq<Await>) returns (ok: bool, used: nat)
      requires WritesValid()
      modifies this`pendingSessionWrites, this`log, this`writeSteps
      ensures WritesValid() && used <= |script| && old(log) <= log
      ensures Flushes(old(writeSteps), script[..used])
      ensures var f := Flush(old(pendingSessionWrites), old(log), script);
        f == FlushResult(pendingSessionWrites, log, Arrivals(script[..used]), f.ok) && (ok <==> f.ok && listenersOk)
      ensures ok ==> listenersOk && pendingSessionWrites == []
      ensures (forall i :: 0 <= i < used ==> script[i].ok) ==> pendingSessionWrites == [] && (ok <==> listenersOk)
    {
      hide Flush, Flushes;
      var flushed;
      flushed, used := FlushPendingSessionWrites(script);
      ok := flushed && listenersOk;
    }

    /** `agent_end`: only after everything deferred has been written is the harness idle. */
    method AgentEnd(script: seq<Await>, listenersOk: bool) returns (ok: bool, used: nat)
      requires WritesValid()
      modifies this`pendingSessionWrites, this`log, this`writeSteps, this`phase
      ensures WritesValid() && used <= |script| && old(log) <= log
      ensures Flushes(old(writeSteps), script[..used])
      ensures var f := Flush(old(pendingSessionWrites), old(log), script);
        && f == FlushResult(pendingSessionWrites, log, Arrivals(script[..used]), f.ok)
        && (ok <==> f.ok && listenersOk) && phase == (if f.ok then Idle else old(phase))
      ensures ok ==> phase == Idle && pendingSessionWrites == []
      ensures phase == (if forall i :: 0 <= i < used ==> script[i].ok then Idle else old(phase))
      ensures phase == old(phase) || pendingSessionWrites == []
    {
      hide Flush;
      ok, used := FlushPendingSessionWrites(script);
      if ok { phase := Idle; }
      ok := ok && listenersOk;
    }

    /**
     * The messages a run starts with: what was queued for the next turn, then the prompt, then what the
     * `before_agent_start` hook adds. If the queue cannot be announced, it is as it was, ahead of what came
     * meanwhile; if the hook fails, what was queued is lost although the run does not start.
     */
    method StartMessages(r: Run) returns (messages: seq<Message>, ok: bool)
      requires Valid()
      modifies nextTurnQueue
      ensures Valid() && old(nextTurnQueue.steps) <= nextTurnQueue.steps
      ensures ok <==> (r.announced || old(nextTurnQueue.messages) == []) && r.hook.Some?
      ensures ok ==> messages == old(nextTurnQueue.messages) + [r.prompt] + r.hook.value
      ensures var t := StartRun(old(State()), r);
        && State() == t.state && ok == t.ok && messages == t.messages && Received() == Plus(old(Received()), t.given)
        && nextTurnQueue.taken == old(nextTurnQueue.taken) + HandedAll(t.sent, true) + HandedAll(t.lost, false)
    {
      hide WritesAfter, MessageQueue.Valid, Pushed, Deferred, Directly, Plus, Drain;
      NothingHanded(nextTurnQueue.taken);
      ghost var d := Drain(nextTurnQueue.messages, true, r.announced, r.meanwhile);
      var queued;
      queued, ok := TakeNextTurn(r.announced, r.meanwhile);
      PlusOne(old(Received()), d.arrived, []);
      if !ok { return [], false; }
      nextTurnQueue.AppendAll(r.duringHook);
      if queued != [] { nextTurnQueue.HandOver(r.hook.Some?); }
      Regroup(old(Received().nextTurn), d.arrived, r.duringHook);
      PlusOne(old(Received()), d.arrived + r.duringHook, []);
      if r.hook.None? { return [], false; }
      messages := queued + [r.prompt] + r.hook.value;
    }

    /** Take the queue for the next turn, if there is anything in it, and announce that. */
    method TakeNextTurn(announced: bool, meanwhile: seq<Message>) returns (queued: seq<Message>, ok: bool)
      requires nextTurnQueue.Valid() && nextTurnQueue.inHand == None
      modifies nextTurnQueue
      ensures nextTurnQueue.Valid() && nextTurnQueue.taken == old(nextTurnQueue.taken)
      ensures nextTurnQueue.inHand == (if queued == [] then None else Some(queued))
      ensures old(nextTurnQueue.steps) <= nextTurnQueue.steps
      ensures ok <==> announced || old(nextTurnQueue.messages) == []
      ensures queued == if ok then old(nextTurnQueue.messages) else []
      ensures var d := Drain(old(nextTurnQueue.messages), true, announced, meanwhile);
        && queued == d.messages && ok == d.ok && nextTurnQueue.messages == d.left
        && Pushed(nextTurnQueue.steps) == old(Pushed(nextTurnQueue.steps)) + d.arrived
    {
      hide MessageQueue.Valid, Pushed;
      Regroup(Pushed(nextTurnQueue.steps), [], []);
      queued := nextTurnQueue.Take(true);
      ok := true;
      if queued == [] { return; }
      nextTurnQueue.AppendAll(meanwhile);
      if !announced {
        Regroup(queued, [], meanwhile);
        nextTurnQueue.PutBack(queued);
        return [], false;
      }
    }
  
    /* ---------- A whole run ---------- */

    /** The histories go on from what they were, and the queues' own record tells what was handed to the run. */
    twostate predicate GoesOn(steering: seq<Message>, followUps: seq<Message>)
      reads this, steerQueue, followUpQueue, nextTurnQueue
    {
      && old(writeSteps) <= writeSteps && old(log) <= log
      && (forall q <- Queues() :: old(q.steps) <= q.steps)
      && steerQueue.taken == old(steerQueue.taken) + HandedAll(steering, true)
      && followUpQueue.taken == old(followUpQueue.taken) + HandedAll(followUps, true)
    }

    /** One step of a run, with what it polls. It is not `ok` if it makes the run fail. */
    method HandleEvent(e: RunEvent) returns (ok: bool, steering: seq<Message>, followUps: seq<Message>)
      requires Valid()
      modifies this, Queues()
      ensures Valid() && GoesOn(steering, followUps) && nextTurnQueue.taken == old(nextTurnQueue.taken)
      ensures var r := Handle(old(State()), e);
        && State() == r.state && ok == r.ok && steering == r.steering && followUps == r.followUps
        && Received() == Plus(old(Received()), r.given)
      ensures phase == old(phase) || phase == Idle
      ensures e.OnAgentEnd? && ok ==> phase == Idle && pendingSessionWrites == []
    {
      hide WritesAfter, QueueAfter, Deferred, Directly, Pushed, DrainSteps, Drain, Flush, Plus;
      ok, steering, followUps := true, [], [];
      NothingHanded(steerQueue.taken);
      match e {
        case OnOther(listenersOk) =>
          PlusOne(Received(), [], []);
          ok := listenersOk;
        case Poll(_, _, _, _) => ok, steering, followUps := HandlePoll(e);
        case Queueing(which, message) => HandleQueued(which, message);
        case OnTurnEnd(_, _) => ok := HandleFlushing(e);
        case OnAgentEnd(_, _) => ok := HandleFlushing(e);
        case PrepareTurn(_, _) => ok := HandleFlushing(e);
        case OnMessageEnd(_, _, _) => ok := HandleWriting(e);
        case Appending(_, _) => ok := HandleWriting(e);
      }
    }

    /** The events that flush. */
    method HandleFlushing(e: RunEvent) returns (ok: bool)
      requires Valid() && (e.OnTurnEnd? || e.OnAgentEnd? || e.PrepareTurn?)
      modifies this`pendingSessionWrites, this`log, this`writeSteps, this`phase
      ensures Valid() && old(writeSteps) <= writeSteps && old(log) <= log
      ensures var r := Handle(old(State()), e);
        State() == r.state && ok == r.ok && Received() == Plus(old(Received()), r.given)
      ensures phase == old(phase) || phase == Idle
      ensures e.OnAgentEnd? && ok ==> phase == Idle && pendingSessionWrites == []
    {
      hide WritesAfter, QueuesValid, Deferred, Directly, Pushed, Flush, Plus;
      PlusOne(Received(), [], RecordedAll(Flush(pendingSessionWrites, log, e.script).arrived));
      var used;
      match e {
        case OnTurnEnd(listenersOk, script) => ok, used := TurnEnd(listenersOk, script);
        case OnAgentEnd(script, listenersOk) => ok, used := AgentEnd(script, listenersOk);
        case PrepareTurn(script, stateOk) =>
          ok, used := FlushPendingSessionWrites(script);
          ok := ok && stateOk;
      }
    }

    /** The events that write a message. */
    method HandleWriting(e: RunEvent) returns (ok: bool)
      requires Valid() && (e.OnMessageEnd? || e.Appending?)
      modifies this`pendingSessionWrites, this`log, this`writeSteps
      ensures Valid() && old(writeSteps) <= writeSteps && old(log) <= log
      ensures var r := Handle(old(State()), e);
        State() == r.state && ok == r.ok && Received() == Plus(old(Received()), r.given)
    {
      hide WritesAfter, QueuesValid, Deferred, Directly, Pushed, Plus;
      PlusOne(Received(), [], [MessageWrite(e.message)]);
      Regroup(Deferred(writeSteps), [], []);
      Regroup(Directly(writeSteps), [], []);
      ok := true;
      match e {
        case OnMessageEnd(message, appended, listenersOk) => ok := MessageEnd(message, appended, listenersOk);
        case Appending(message, appended) => AppendMessage(message, appended);
      }
    }

    /** Somebody queues a message. */
    method HandleQueued(which: Which, message: Message)
      requires Valid()
      modifies Queues()
      ensures Valid() && forall q <- Queues() :: old(q.steps) <= q.steps && q.taken == old(q.taken)
      ensures var r := HandleQueueing(old(State()), which, message);
        State() == r.state && Received() == Plus(old(Received()), r.given)
    {
      hide WritesAfter, MessageQueue.Valid, Deferred, Directly, Pushed, Plus;
      PlusOne(Received(), [message], []);
      var accepted := Enqueue(which, message);
    }

    /** The loop asks for steering messages or follow-ups. */
    method HandlePoll(e: RunEvent) returns (ok: bool, steering: seq<Message>, followUps: seq<Message>)
      requires Valid() && e.Poll?
      modifies steerQueue, followUpQueue
      ensures Valid() && GoesOn(steering, followUps)
      ensures var r := Handle(old(State()), e);
        && State() == r.state && ok == r.ok && steering == r.steering && followUps == r.followUps
        && Received() == Plus(old(Received()), r.given)
    {
      hide WritesAfter, MessageQueue.Valid, Deferred, Directly, Pushed, DrainSteps, Drain, Plus;
      steering, followUps := [], [];
      NothingHanded(steerQueue.taken);
      var queue := if e.followUps then followUpQueue else steerQueue;
      PlusOne(Received(), Drain(queue.messages, e.all, e.announced, e.meanwhile).arrived, []);
      var messages;
      messages, ok := DrainQueuedMessages(queue, e.all, e.announced, e.meanwhile);
      if e.followUps { followUps := messages; } else { steering := messages; }
    }
  
    /** Events one after the other, up to the first that fails. */
    method HandleEvents(events: seq<RunEvent>) returns (ok: bool, steering: seq<Message>, followUps: seq<Message>)
      requires Valid()
      modifies this, Queues()
      ensures Valid() && GoesOn(steering, followUps) && nextTurnQueue.taken == old(nextTurnQueue.taken)
      ensures var r := HandleAll(old(State()), events);
        && State() == r.state && ok == r.ok && steering == r.steering && followUps == r.followUps
        && Received() == Plus(old(Received()), r.given)
      ensures phase == old(phase) || phase == Idle
      ensures ok && EndsInAgentEnd(events) ==> phase == Idle
    {
      hide WritesAfter, MessageQueue.Valid, Deferred, Directly, Pushed, Plus, Handle, HandleAll, Then;
      ok, steering, followUps := true, [], [];
      NothingHanded(steerQueue.taken);
      NoneHandled(State(), Received(), events);
      for i := 0 to |events|
        invariant Valid() && GoesOn(steering, followUps) && nextTurnQueue.taken == old(nextTurnQueue.taken)
        invariant phase == old(phase) || phase == Idle
        invariant i > 0 && events[i - 1].OnAgentEnd? ==> phase == Idle
        invariant var r := HandleAll(old(State()), events[..i]);
          && r == Effect(State(), ok, steering, followUps, r.given) && ok && Received() == Plus(old(Received()), r.given)
      {
        ghost var before := HandleAll(old(State()), events[..i]);
        ghost var now := Handle(State(), events[i]);
        HandleSnoc(old(State()), events, i);
        var polledSteering, polledFollowUps;
        ok, polledSteering, polledFollowUps := HandleEvent(events[i]);
        HandedConcat(steering, polledSteering);
        HandedConcat(followUps, polledFollowUps);
        ThenGiven(old(Received()), before, now);
        steering := steering + polledSteering;
        followUps := followUps + polledFollowUps;
        if !ok {
          HandleStops(old(State()), events, i + 1);
          return;
        }
      }
      assert events[..|events|] == events;
    }

    /**
     * `executeTurn`: the messages to start with, the loop, the report of a failed one, and whatever came of
     * it a last flush. If the run does not start, nothing is flushed.
     */
    method ExecuteTurn(r: Run)
      returns (ok: bool, started: bool, first: seq<Message>, steering: seq<Message>, followUps: seq<Message>)
      requires Valid() && Legal(r)
      modifies this, Queues()
      ensures Valid() && GoesOn(steering, followUps)
      ensures var (e, t) := (Execute(old(State()), r), StartRun(old(State()), r));
        && State() == e.state && ok == e.ok && steering == e.steering && followUps == e.followUps
        && Received() == Plus(old(Received()), e.given)
        && started == t.ok && first == t.messages
        && nextTurnQueue.taken == old(nextTurnQueue.taken) + HandedAll(t.sent, true) + HandedAll(t.lost, false)
    {
      hide WritesAfter, MessageQueue.Valid, Deferred, Directly, Pushed, Plus, HandleAll, StartRun, Finish;
      ok, steering, followUps := false, [], [];
      NothingHanded(steerQueue.taken);
      ghost var t := StartRun(State(), r);
      StartBalances(State(), r);
      first, started := StartMessages(r);
      if started {
        ok, steering, followUps := RunAndFlush(r);
        PlusThen(old(Received()), t.given, Finish(t.state, r).given);
      }
    }

    /** The loop once it has its messages. */
    method RunAndFlush(r: Run) returns (ok: bool, steering: seq<Message>, followUps: seq<Message>)
      requires Valid()
      modifies this, Queues()
      ensures Valid() && GoesOn(steering, followUps) && nextTurnQueue.taken == old(nextTurnQueue.taken)
      ensures var e := Finish(old(State()), r);
        && State() == e.state && ok == e.ok && steering == e.steering && followUps == e.followUps
        && Received() == Plus(old(Received()), e.given)
    {
      hide WritesAfter, MessageQueue.Valid, Deferred, Directly, Pushed, Plus, HandleAll, HandleFlush, Handle;
      ghost var loop := HandleAll(State(), r.events);
      ok, steering, followUps := HandleEvents(r.events);
      ghost var told := loop;
      if !ok {
        var moreSteering, moreFollowUps;
        ok, moreSteering, moreFollowUps := HandleEvents(r.failure);
        told := Then(loop, HandleAll(loop.state, r.failure));
        PlusThen(old(Received()), loop.given, HandleAll(loop.state, r.failure).given);
        HandedConcat(steering, moreSteering);
        HandedConcat(followUps, moreFollowUps);
        steering := steering + moreSteering;
        followUps := followUps + moreFollowUps;
      }
      var flushed := FinalFlush(r.final);
      PlusThen(old(Received()), told.given, HandleFlush(told.state, r.final, true, false).given);
      FlushPollsNothing(told, r.final);
      ok := ok && r.answered && flushed;
    }

    method FinalFlush(final: seq<Await>) returns (flushed: bool)
      requires Valid()
      modifies this`pendingSessionWrites, this`log, this`writeSteps
      ensures Valid() && old(writeSteps) <= writeSteps && old(log) <= log
      ensures var e := HandleFlush(old(State()), final, true, false);
        State() == e.state && flushed == e.ok && Received() == Plus(old(Received()), e.given)
    {
      hide WritesAfter, QueuesValid, Deferred, Directly, Pushed, Flush, Plus;
      PlusOne(Received(), [], RecordedAll(Flush(pendingSessionWrites, log, final).arrived));
      var used;
      flushed, used := FlushPendingSessionWrites(final);
    }

    /**
     * `prompt`: refused unless idle, and idle afterwards whatever happens. What is queued and deferred in the
     * run is taken or waits, logged or waits, in order and once; of the messages only those for the next
     * turn can be lost, when the hook fails after they have been announced. If the run goes well, or has
     * started and its last flush has no failure, every write deferred until then is in the log.
     */
    method Prompt(r: Run)
      returns (ok: bool, started: bool, first: seq<Message>, steering: seq<Message>, followUps: seq<Message>)
      requires Valid() && Legal(r)
      modifies this, Queues()
      ensures Valid() && GoesOn(steering, followUps)
      ensures old(phase) != Idle ==>
        !ok && !started && State() == old(State()) && Received() == old(Received())
        && nextTurnQueue.taken == old(nextTurnQueue.taken)
      ensures old(phase) == Idle ==>
        var (e, t) := (Execute(old(State()).(phase := Turn), r), StartRun(old(State()).(phase := Turn), r));
        && State() == e.state.(phase := Idle) && ok == e.ok && steering == e.steering && followUps == e.followUps
        && Received() == Plus(old(Received()), e.given)
        && started == t.ok && first == t.messages
      ensures LoggedBy(true, log) + RecordedAll(pendingSessionWrites) == Deferred(writeSteps)
      ensures ok || (started && NoneFails(r.final)) ==>
        pendingSessionWrites == [] && LoggedBy(true, log) == Deferred(writeSteps)
      ensures forall q <- Queues() :: Messages(q.taken) + q.messages == Pushed(q.steps)
      ensures Sent(false, nextTurnQueue.taken) == old(Sent(false, nextTurnQueue.taken)) +
        if old(phase) == Idle && r.announced && r.hook.None? then old(nextTurnQueue.messages) else []
    {
      hide WritesAfter, QueuesValid, Deferred, Directly, Pushed, Plus, Execute, StartRun, LoggedBy, RecordedAll, Sent;
      ok, started, first, steering, followUps := false, false, [], [], [];
      NothingHanded(steerQueue.taken);
      Regroup(Sent(false, nextTurnQueue.taken), [], []);
      if phase == Idle {
        phase := Turn;
        ghost var s := State();
        ok, started, first, steering, followUps := ExecuteTurn(r);
        ExecuteBalances(s, r);
        ExecuteIdle(s, r);
        LostBy(s, r, old(nextTurnQueue.taken));
        if !ok { phase := Idle; }
      }
      Settled();
    }

    lemma Settled()
      requires Valid()
      ensures LoggedBy(true, log) + RecordedAll(pendingSessionWrites) == Deferred(writeSteps)
      ensures pendingSessionWrites == [] ==> LoggedBy(true, log) == Deferred(writeSteps)
      ensures forall q <- Queues() :: Messages(q.taken) + q.messages == Pushed(q.steps)
    {
      hide LoggedBy, Deferred, Directly, Pushed, Messages;
      Accounts();
      steerQueue.Conserves();
      followUpQueue.Conserves();
      nextTurnQueue.Conserves();
    }
  }

  /** What the start of a run adds to the lost messages. */
  lemma LostBy(s: Harness, r: Run, taken: seq<Handed>)
    ensures var t := StartRun(s, r);
      Sent(false, taken + HandedAll(t.sent, true) + HandedAll(t.lost, false)) ==
        Sent(false, taken) + if r.announced && r.hook.None? then s.nextTurn else []
  {
    hide Sent, HandedAll;
    var t := StartRun(s, r);
    SentConcat(taken, t.sent, true);
    SentConcat(taken + HandedAll(t.sent, true), t.lost, false);
    assert t.lost == if r.announced && r.hook.None? then s.nextTurn else [];
  }

  lemma HandedConcat(a: seq<Message>, b: seq<Message>)
    ensures forall taken: seq<Handed> ::
      taken + HandedAll(a + b, true) == taken + HandedAll(a, true) + HandedAll(b, true)
  {
    assert HandedAll(a + b, true) == HandedAll(a, true) + HandedAll(b, true);
  }

  lemma NoneHandled(s: Harness, given: Given, events: seq<RunEvent>)
    ensures HandleAll(s, events[..0]) == Effect(s, true, [], [], NOTHING) && Plus(given, NOTHING) == given
  {
    PlusOne(given, [], []);
  }

  lemma ThenGiven(was: Given, a: Effect, b: Effect)
    ensures Plus(was, Then(a, b).given) == Plus(Plus(was, a.given), b.given)
    ensures Then(a, b) == Effect(b.state, b.ok, a.steering + b.steering, a.followUps + b.followUps, Then(a, b).given)
  {
    PlusThen(was, a.given, b.given);
  }

  lemma FlushPollsNothing(told: Effect, final: seq<Await>)
    ensures var last := HandleFlush(told.state, final, true, false);
      told.steering + last.steering == told.steering && told.followUps + last.followUps == told.followUps
  {
    hide Flush;
  }

  lemma NothingHanded(taken: seq<Handed>)
    ensures forall reached, h: seq<Handed> :: h + HandedAll([], reached) == h
  {
  }

  lemma NoArrivals(done: seq<Write>, script: seq<Await>, r: FlushResult)
    ensures done == done + RecordedAll(Arrivals([]))
    ensures script[..0] == [] && script[0..] == script && After(Arrivals([]), r) == r
  {
  }

  lemma FlushNothing(log: seq<Entry>, script: seq<Await>, arrived: seq<Write>)
    ensures After(arrived, Flush([], log, script)) == FlushResult([], log, arrived, true)
  {
  }

  /** One await more is one arrival more. */
  lemma MoreArrivals(script: seq<Await>, used: nat, done: seq<Write>)
    requires used <= |script|
    ensures var now := NextAwait(script[used..]);
      var later := if used < |script| then used + 1 else used;
      && Arrivals(script[..later]) == Arrivals(script[..used]) + now.meanwhile
      && done + RecordedAll(Arrivals(script[..later])) ==
         done + RecordedAll(Arrivals(script[..used])) + RecordedAll(now.meanwhile)
  {
    hide RecordedAll;
    var now := NextAwait(script[used..]);
    if used < |script| {
      assert script[..used + 1][..used] == script[..used];
    } else {
      assert Arrivals(script[..used]) + [] == Arrivals(script[..used]);
    }
    RecordedConcat(Arrivals(script[..used]), now.meanwhile);
  }

  /** One append of a flush, with what arrived before it. */
  lemma FlushUnrolls(pending: seq<Write>, log: seq<Entry>, script: seq<Await>, used: nat)
    requires pending != [] && used <= |script|
    ensures var now := NextAwait(script[used..]);
      var (arrived, more) := (Arrivals(script[..used]), Arrivals(script[..used]) + now.meanwhile);
      After(arrived, Flush(pending, log, script[used..])) ==
        if !now.ok then FlushResult(pending + now.meanwhile, log, more, false)
        else After(more, Flush(pending[1..] + now.meanwhile, log + [Flushed(Recorded(pending[0]))],
          if used < |script| then script[used + 1..] else script[used..]))
  {
    hide Arrivals;
    var now := NextAwait(script[used..]);
    if used < |script| { assert script[used..][1..] == script[used + 1..]; }
    var rest := Flush(pending[1..] + now.meanwhile, log + [Flushed(Recorded(pending[0]))], LaterAwaits(script[used..]));
    Regroup(Arrivals(script[..used]), now.meanwhile, rest.arrived);
  }
}

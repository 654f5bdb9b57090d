/**
 * The agent and one run of its loop. The model's replies, the tools and the messages that arrive while a
 * run waits come from a script, one entry a turn; when the script ends, the run is still waiting.
 */
module AgentLoop {
  import opened Wrappers
  import opened AgentTypes
  import opened ToolBatch
  import opened ToolBatchProofs
  import opened RunTrace
  import opened EventTrace

  datatype QueueMode = All | OneAtATime

  /** What one drain takes off a queue. */
  function Taken(mode: QueueMode, messages: seq<Message>): seq<Message> {
    if mode.All? || messages == [] then messages else messages[..1]
  }

  class PendingMessageQueue {
    var messages: seq<Message>
    var mode: QueueMode

    constructor (mode: QueueMode)
      ensures messages == [] && this.mode == mode
    {
      messages := [];
      this.mode := mode;
    }

    method Enqueue(message: Message)
      modifies this`messages
      ensures messages == old(messages) + [message]
    {
      messages := messages + [message];
    }

    /** Takes everything or the first message from the front, and leaves the rest. */
    method Drain() returns (drained: seq<Message>)
      modifies this`messages
      ensures old(messages) == drained + messages
      ensures drained == Taken(mode, old(messages))
      ensures if mode == All then messages == [] else |drained| <= 1 && (drained == [] ==> messages == [])
    {
      if mode == All {
        drained := messages;
        messages := [];
        return;
      }
      if messages == [] { return []; }
      drained := [messages[0]];
      messages := messages[1..];
    }
  }

  /* ---------- The agent ---------- */

  /** Everything passed to `steer` and `followUp`, and everything taken off the two queues. */
  datatype Account = Account(
    steered: seq<Message>, steeringTaken: seq<Message>, followed: seq<Message>, followUpsTaken: seq<Message>)

  /** The account once the steps of a run have let messages in and drained others. */
  function AfterSteps(a: Account, first: Arrivals, steps: seq<Step>): Account {
    var passed := Passed(first, steps);
    Account(a.steered + passed.steering, a.steeringTaken + SteeringDrained(steps),
            a.followed + passed.followUps, a.followUpsTaken + FollowUpsDrained(steps))
  }

  lemma AccountAsked(a: Account, first: Arrivals, steps: seq<Step>, s: Step)
    requires !s.Took?
    ensures var (x, now) := (AfterSteps(a, first, steps), Arriving(first, Turns(steps), s));
      AfterSteps(a, first, steps + [s]) == Account(
        x.steered + now.steering, x.steeringTaken + (if s.AskedSteering? then s.drained else []),
        x.followed + now.followUps, x.followUpsTaken + (if s.AskedSteering? then [] else s.drained))
  {
    hide Passed, Arriving, Turns, SteeringDrained, FollowUpsDrained;
    PassedSnoc(first, steps, s);
    AskedSnoc(steps, s);
    var (passed, now) := (Passed(first, steps), Arriving(first, Turns(steps), s));
    Append(a.steered, passed.steering, now.steering);
    Append(a.followed, passed.followUps, now.followUps);
    Append(a.steeringTaken, SteeringDrained(steps), if s.AskedSteering? then s.drained else []);
    Append(a.followUpsTaken, FollowUpsDrained(steps), if s.AskedSteering? then [] else s.drained);
  }

  lemma AccountTook(a: Account, first: Arrivals, steps: seq<Step>, turn: Turn, injected: seq<Message>)
    ensures AfterSteps(a, first, steps + [Took(turn, injected)]) == AfterSteps(a, first, steps)
  {
    hide Passed, Turns, SteeringDrained, FollowUpsDrained;
    PassedSnoc(first, steps, Took(turn, injected));
    TookSnoc(steps, turn, injected);
    var passed := Passed(first, steps);
    assert passed.steering + [] == passed.steering && passed.followUps + [] == passed.followUps;
  }

  lemma AccountNone(a: Account, first: Arrivals)
    ensures AfterSteps(a, first, []) == a
  {
    assert a.steered + [] == a.steered && a.steeringTaken + [] == a.steeringTaken;
    assert a.followed + [] == a.followed && a.followUpsTaken + [] == a.followUpsTaken;
  }

  lemma Append(a: seq<Message>, b: seq<Message>, c: seq<Message>)
    ensures a + (b + c) == a + b + c
  {
  }

  class Agent {
    var messages: seq<Message>
    var streamingMessage: Option<Message>
    var pendingToolCalls: set<nat>
    var isStreaming: bool
    var activeRun: bool
    const steeringQueue: PendingMessageQueue
    const followUpQueue: PendingMessageQueue

    // Everything ever passed to `steer`; what of it has been injected into a transcript; and what a run
    // has drained but not injected yet. The same for `followUp`.
    ghost var steered: seq<Message>
    ghost var steeringDelivered: seq<Message>
    ghost var steeringHeld: seq<Message>
    ghost var followed: seq<Message>
    ghost var followUpsDelivered: seq<Message>
    ghost var followUpsHeld: seq<Message>

    /** Nothing passed to `steer` or `followUp` is lost, repeated or reordered. */
    ghost predicate Conserves()
      reads this`steered, this`steeringDelivered, this`steeringHeld, this`followed, this`followUpsDelivered,
        this`followUpsHeld, steeringQueue`messages, followUpQueue`messages
    {
      && steeringQueue != followUpQueue
      && steered == steeringDelivered + steeringHeld + steeringQueue.messages
      && followed == followUpsDelivered + followUpsHeld + followUpQueue.messages
    }

    ghost function AccountNow(): Account
      reads this`steered, this`steeringDelivered, this`steeringHeld, this`followed, this`followUpsDelivered,
        this`followUpsHeld
    {
      Account(steered, steeringDelivered + steeringHeld, followed, followUpsDelivered + followUpsHeld)
    }

    /** Between runs nothing is held, streamed or executed. */
    ghost predicate Idle()
      reads this
    {
      && !activeRun && !isStreaming && streamingMessage == None && pendingToolCalls == {}
      && steeringHeld == [] && followUpsHeld == []
    }

    constructor (messages: seq<Message>, steeringMode: QueueMode, followUpMode: QueueMode)
      ensures Conserves() && Idle() && fresh(steeringQueue) && fresh(followUpQueue)
      ensures this.messages == messages && steered == [] && followed == []
    {
      this.messages := messages;
      streamingMessage, pendingToolCalls, isStreaming, activeRun := None, {}, false, false;
      steeringQueue := new PendingMessageQueue(steeringMode);
      followUpQueue := new PendingMessageQueue(followUpMode);
      steered, steeringDelivered, steeringHeld := [], [], [];
      followed, followUpsDelivered, followUpsHeld := [], [], [];
    }

    method Steer(message: Message)
      requires Conserves()
      modifies this`steered, steeringQueue`messages
      ensures Conserves() && steered == old(steered) + [message]
      ensures steeringQueue.messages == old(steeringQueue.messages) + [message]
    {
      steeringQueue.Enqueue(message);
      steered := steered + [message];
    }

    method FollowUp(message: Message)
      requires Conserves()
      modifies this`followed, followUpQueue`messages
      ensures Conserves() && followed == old(followed) + [message]
      ensures followUpQueue.messages == old(followUpQueue.messages) + [message]
    {
      followUpQueue.Enqueue(message);
      followed := followed + [message];
    }

    /** The messages that users pass in while the run waits. */
    method Arrive(a: Arrivals)
      requires Conserves()
      modifies this`steered, this`followed, steeringQueue`messages, followUpQueue`messages
      ensures Conserves()
      ensures steered == old(steered) + a.steering && followed == old(followed) + a.followUps
      ensures steeringQueue.messages == old(steeringQueue.messages) + a.steering
      ensures followUpQueue.messages == old(followUpQueue.messages) + a.followUps
    {
      for i := 0 to |a.steering|
        invariant Conserves() && steered == old(steered) + a.steering[..i] && followed == old(followed)
        invariant steeringQueue.messages == old(steeringQueue.messages) + a.steering[..i]
        invariant followUpQueue.messages == old(followUpQueue.messages)
      {
        Steer(a.steering[i]);
        assert a.steering[..i + 1] == a.steering[..i] + [a.steering[i]];
      }
      assert a.steering[..|a.steering|] == a.steering;
      for i := 0 to |a.followUps|
        invariant Conserves() && steered == old(steered) + a.steering && followed == old(followed) + a.followUps[..i]
        invariant steeringQueue.messages == old(steeringQueue.messages) + a.steering
        invariant followUpQueue.messages == old(followUpQueue.messages) + a.followUps[..i]
      {
        FollowUp(a.followUps[i]);
        assert a.followUps[..i + 1] == a.followUps[..i] + [a.followUps[i]];
      }
      assert a.followUps[..|a.followUps|] == a.followUps;
    }

    method DrainSteering() returns (drained: seq<Message>)
      requires Conserves() && steeringHeld == []
      modifies this`steeringHeld, steeringQueue`messages
      ensures Conserves() && steeringHeld == drained
      ensures drained + steeringQueue.messages == old(steeringQueue.messages)
      ensures drained == Taken(steeringQueue.mode, old(steeringQueue.messages))
    {
      drained := steeringQueue.Drain();
      steeringHeld := drained;
      assert steeringDelivered + [] + old(steeringQueue.messages) == steeringDelivered + drained + steeringQueue.messages;
    }

    method DrainFollowUps() returns (drained: seq<Message>)
      requires Conserves() && followUpsHeld == []
      modifies this`followUpsHeld, followUpQueue`messages
      ensures Conserves() && followUpsHeld == drained
      ensures drained + followUpQueue.messages == old(followUpQueue.messages)
      ensures drained == Taken(followUpQueue.mode, old(followUpQueue.messages))
    {
      drained := followUpQueue.Drain();
      followUpsHeld := drained;
      assert followUpsDelivered + [] + old(followUpQueue.messages) == followUpsDelivered + drained + followUpQueue.messages;
    }

    /** The first held message, of whichever kind is held, becomes a delivered one. */
    ghost method Deliver()
      requires Conserves() && (steeringHeld == [] <==> followUpsHeld != [])
      modifies this`steeringHeld, this`steeringDelivered, this`followUpsHeld, this`followUpsDelivered
      ensures Conserves()
      ensures steeringHeld + followUpsHeld == (old(steeringHeld) + old(followUpsHeld))[1..]
      ensures steeringHeld == [] || followUpsHeld == []
      ensures steeringDelivered + steeringHeld == old(steeringDelivered) + old(steeringHeld)
      ensures followUpsDelivered + followUpsHeld == old(followUpsDelivered) + old(followUpsHeld)
    {
      if steeringHeld != [] {
        assert steeringDelivered + steeringHeld == (steeringDelivered + [steeringHeld[0]]) + steeringHeld[1..];
        steeringDelivered := steeringDelivered + [steeringHeld[0]];
        steeringHeld := steeringHeld[1..];
      } else {
        assert followUpsDelivered + followUpsHeld == (followUpsDelivered + [followUpsHeld[0]]) + followUpsHeld[1..];
        followUpsDelivered := followUpsDelivered + [followUpsHeld[0]];
        followUpsHeld := followUpsHeld[1..];
      }
    }

    /** What a run's events mean for the state: it shows the message being sent and the tools running. */
    ghost predicate Mirrors(p: Protocol)
      reads this`pendingToolCalls, this`streamingMessage
    {
      && (p.NotStarted? ==> pendingToolCalls == {} && streamingMessage == None)
      && (p.Open? ==> p.running == multiset(pendingToolCalls) && (p.sending <==> streamingMessage.Some?))
    }

    method ProcessEvent(e: Event)
      requires activeRun
      modifies this`messages, this`streamingMessage, this`pendingToolCalls
      ensures messages == old(messages) + if e.MessageEnd? then [e.message] else []
      ensures forall p: Protocol :: old(Mirrors(p)) ==> Mirrors(Advance(p, e))
      ensures e.AgentEnd? ==> streamingMessage == None && pendingToolCalls == old(pendingToolCalls)
      ensures e.MessageStart? || e.MessageUpdate? ==> streamingMessage == Some(e.message)
    {
      match e {
        case MessageStart(m) => streamingMessage := Some(m);
        case MessageUpdate(m) => streamingMessage := Some(m);
        case MessageEnd(m) =>
          streamingMessage := None;
          messages := messages + [m];
        case ToolStart(i, _) => pendingToolCalls := pendingToolCalls + {i};
        case ToolEnd(i, _) => pendingToolCalls := pendingToolCalls - {i};
        case AgentEnd(_) => streamingMessage := None;
        case _ =>
      }
      forall p: Protocol | old(Mirrors(p)) ensures Mirrors(Advance(p, e)) {
        MirrorStep(p, e, old(pendingToolCalls), pendingToolCalls);
      }
    }
  }

  /** The tools running by the protocol are those of the agent's set, before and after. */
  lemma MirrorStep(p: Protocol, e: Event, before: set<nat>, after: set<nat>)
    requires p.Open? ==> p.running == multiset(before)
    requires p.NotStarted? ==> before == {}
    requires after == if e.ToolStart? then before + {e.index} else if e.ToolEnd? then before - {e.index} else before
    ensures Advance(p, e).Open? ==> Advance(p, e).running == multiset(after)
  {
    if p.Open? && e.ToolStart? && e.index !in before {
      assert multiset(before + {e.index}) == multiset(before) + multiset{e.index};
    }
    if p.Open? && e.ToolEnd? && e.index in before {
      assert multiset(before - {e.index}) == multiset(before) - multiset{e.index};
    }
    if p.NotStarted? && e.AgentStart? {
      assert multiset(after) == multiset{};
    }
  }

  /* ---------- One run ---------- */

  /**
   * What the fields hold when an event has been handed over; `ended` are the `message_end` payloads up to
   * and including this event.
   */
  datatype Moment = Moment(
    event: Event, ended: seq<Message>, context: seq<Message>, newMessages: seq<Message>, pending: seq<Message>,
    agentMessages: seq<Message>, streaming: Option<Message>)

  /**
   * The agent's transcript always grows by what messages end, and the agent shows the message under way. A
   * partial reply stands at the end of the loop's context. At the end of a turn the context, the list of
   * new messages and the agent's transcript all tell the same; and the run ends with nothing pending.
   */
  ghost predicate Agree(m: Moment, initial: seq<Message>) {
    && m.agentMessages == initial + m.ended
    && (m.event.MessageStart? || m.event.MessageUpdate? ==> m.streaming == Some(m.event.message))
    && (m.event.MessageUpdate? ==> m.context == initial + m.ended + [m.event.message])
    && (m.event.TurnEnd? ==> m.newMessages == m.ended && m.context == initial + m.newMessages)
    && (m.event.AgentEnd? ==>
      m.event.messages == m.newMessages == m.ended && m.pending == [] && m.streaming == None)
  }

  /** One moment for each event, in order. */
  ghost predicate GoodHistory(events: seq<Event>, moments: seq<Moment>, initial: seq<Message>) {
    && |events| == |moments|
    && (events != [] ==>
      var n := |events| - 1;
      && moments[n].event == events[n]
      && moments[n].ended == Ended(events)
      && Agree(moments[n], initial)
      && GoodHistory(events[..n], moments[..n], initial))
  }

  lemma HistorySnoc(events: seq<Event>, moments: seq<Moment>, initial: seq<Message>, m: Moment)
    requires GoodHistory(events, moments, initial)
    requires m.ended == Ended(events + [m.event]) && Agree(m, initial)
    ensures GoodHistory(events + [m.event], moments + [m], initial)
  {
    hide Agree;
    assert (events + [m.event])[..|events|] == events && (moments + [m])[..|events|] == moments;
  }

  lemma {:induction false} HistoryAt(events: seq<Event>, moments: seq<Moment>, initial: seq<Message>, k: nat)
    requires GoodHistory(events, moments, initial) && k < |events|
    ensures moments[k].event == events[k] && moments[k].ended == Ended(events[..k + 1]) && Agree(moments[k], initial)
  {
    hide Agree;
    var n := |events| - 1;
    if k < n {
      HistoryAt(events[..n], moments[..n], initial, k);
      assert events[..n][..k + 1] == events[..k + 1];
    } else {
      assert events[..k + 1] == events;
    }
  }

  const BETWEEN_TURNS := Open(false, false, multiset{}, true)

  class Loop {
    const agent: Agent
    var context: seq<Message>
    var newMessages: seq<Message>
    var pending: seq<Message>

    // What the run starts from: the transcript, the prompts, what had been passed to the agent and taken off
    // its queues until then, held prompts included, and who is quick enough for the first poll.
    ghost const initial: seq<Message>
    ghost const prompts: seq<Message>
    ghost const before: Account
    ghost const first: Arrivals

    ghost var waiting: seq<Message>  // drained from a queue, by this run or for it, and not injected yet
    ghost var events: seq<Event>
    ghost var moments: seq<Moment>
    ghost var steps: seq<Step>

    ghost function Where(): Protocol
      reads this`events
    {
      Follow(NotStarted, events)
    }

    /**
     * The queues are accounted for: what has been passed in is what was before and what the polls so far
     * have let in, and what has been taken off is what was before and what they drained.
     */
    ghost predicate QueuesOk()
      reads this`waiting, this`steps, agent`activeRun,
        agent`steered, agent`steeringDelivered, agent`steeringHeld, agent`followed, agent`followUpsDelivered,
        agent`followUpsHeld, agent.steeringQueue`messages, agent.followUpQueue`messages
    {
      && agent.Conserves() && agent.activeRun
      && waiting == agent.steeringHeld + agent.followUpsHeld
      && (agent.steeringHeld == [] || agent.followUpsHeld == [])
      && agent.AccountNow() == AfterSteps(before, first, steps)
    }

    /** The events so far keep to the protocol, and the agent's state is the one they tell of. */
    ghost predicate EventsOk()
      reads this`events, this`moments, agent`messages, agent`pendingToolCalls, agent`streamingMessage
    {
      && agent.messages == initial + Ended(events)
      && Where() != Broken && agent.Mirrors(Where())
      && GoodHistory(events, moments, initial)
    }

    /** The three transcripts agree. */
    ghost predicate Settled()
      reads this`newMessages, this`context, this`events
    {
      newMessages == Ended(events) && context == initial + newMessages
    }

    /** Start with the agent's transcript and the prompts; these are held steering or follow-ups in `continue()`. */
    constructor (agent: Agent, prompts: seq<Message>, first: Arrivals)
      requires agent.Conserves() && agent.activeRun && agent.streamingMessage == None && agent.pendingToolCalls == {}
      requires agent.steeringHeld == [] || agent.followUpsHeld == []
      ensures this.agent == agent && initial == agent.messages && this.first == first && before == agent.AccountNow()
      ensures events == [] && moments == [] && pending == []
      ensures waiting == agent.steeringHeld + agent.followUpsHeld && steps == []
      ensures context == initial + prompts && newMessages == prompts == this.prompts
      ensures QueuesOk() && EventsOk()
    {
      this.agent := agent;
      context := agent.messages + prompts;
      newMessages := prompts;
      pending := [];
      waiting := agent.steeringHeld + agent.followUpsHeld;
      this.prompts := prompts;
      this.first := first;
      before := agent.AccountNow();
      initial, events, moments, steps := agent.messages, [], [], [];
      AccountNone(agent.AccountNow(), first);
    }

    /** Whether the loop's own fields fit the event it is about to hand over. */
    ghost predicate Fits(e: Event)
      reads this`events, this`context, this`newMessages, this`pending
    {
      && (e.MessageUpdate? ==> context == initial + Ended(events) + [e.message])
      && (e.TurnEnd? ==> newMessages == Ended(events) && context == initial + newMessages)
      && (e.AgentEnd? ==> e.messages == newMessages == Ended(events) && pending == [])
    }

    /** Hand `e` to the agent, and through it to the listeners. */
    method Emit(e: Event)
      requires agent.activeRun && EventsOk() && Advance(Where(), e) != Broken && Fits(e)
      modifies this`events, this`moments, agent`messages, agent`streamingMessage, agent`pendingToolCalls
      ensures EventsOk() && events == old(events) + [e] && Where() == Advance(old(Where()), e)
      ensures Ended(events) == old(Ended(events)) + if e.MessageEnd? then [e.message] else []
    {
      hide Follow, Advance, GoodHistory, Ended;
      FollowSnoc(NotStarted, events, e);
      EndedSnoc(events, e);
      agent.ProcessEvent(e);
      ghost var m := Moment(e, Ended(events + [e]), context, newMessages, pending, agent.messages, agent.streamingMessage);
      HistorySnoc(events, moments, initial, m);
      moments := moments + [m];
      events := events + [e];
    }

    /** Announce `m` and put it into all three transcripts. */
    method Inject(m: Message)
      requires agent.activeRun && EventsOk() && Settled() && Where() == IN_TURN
      modifies this`events, this`moments, this`context, this`newMessages,
        agent`messages, agent`streamingMessage, agent`pendingToolCalls
      ensures EventsOk() && Settled() && Where() == IN_TURN
      ensures newMessages == old(newMessages) + [m] && context == old(context) + [m]
      ensures events == old(events) + SendMessage(m)
    {
      hide Follow, Ended, EventsOk;
      Emit(MessageStart(m));
      Emit(MessageEnd(m));
      context := context + [m];
      newMessages := newMessages + [m];
    }

    /** The first message waiting counts as delivered. */
    ghost method DeliverFirst()
      requires QueuesOk() && waiting != []
      modifies this`waiting,
        agent`steeringHeld, agent`steeringDelivered, agent`followUpsHeld, agent`followUpsDelivered
      ensures QueuesOk() && waiting == old(waiting)[1..]
      ensures agent.AccountNow() == old(agent.AccountNow())
    {
      agent.Deliver();
      waiting := waiting[1..];
    }

    lemma NothingWaiting()
      requires QueuesOk() && waiting == []
      ensures agent.steeringHeld == [] && agent.followUpsHeld == []
    {
    }

    /** Inject the pending messages before the next reply. */
    method InjectPending()
      requires agent.activeRun && QueuesOk() && EventsOk() && Settled() && Where() == IN_TURN && waiting == pending
      modifies this`events, this`moments, this`context, this`newMessages, this`pending, this`waiting,
        agent`messages, agent`streamingMessage, agent`pendingToolCalls,
        agent`steeringHeld, agent`steeringDelivered, agent`followUpsHeld, agent`followUpsDelivered
      ensures QueuesOk() && EventsOk() && Settled() && Where() == IN_TURN
      ensures pending == [] && waiting == [] && newMessages == old(newMessages) + old(pending)
      ensures events == old(events) + SendMessages(old(pending))
      ensures agent.steeringDelivered == old(agent.steeringDelivered) + old(agent.steeringHeld)
      ensures agent.followUpsDelivered == old(agent.followUpsDelivered) + old(agent.followUpsHeld)
    {
      hide Follow, Ended, EventsOk, QueuesOk, SendMessages, SendMessage;
      SendNone(events);
      assert pending[..0] == [];
      var i := 0;
      while i < |pending|
        invariant i <= |pending| && pending == old(pending) && waiting == pending[i..]
        invariant QueuesOk() && EventsOk() && Settled() && Where() == IN_TURN
        invariant newMessages == old(newMessages) + pending[..i] && events == old(events) + SendMessages(pending[..i])
        invariant agent.AccountNow() == old(agent.AccountNow())
      {
        Inject(pending[i]);
        DeliverFirst();
        assert pending[..i + 1] == pending[..i] + [pending[i]];
        SendSnoc(pending, i);
        i := i + 1;
      }
      NothingWaiting();
      assert pending[..i] == pending;
      pending := [];
    }
  
    /**
     * Pass on what streams in. A partial message takes the last place of the context; `addedPartial` says
     * whether there is one.
     */
    method StreamPartials(stream: seq<StreamEvent>) returns (addedPartial: bool)
      requires agent.activeRun && EventsOk() && Settled() && Where() == IN_TURN
      requires StartsOnce(stream[..StreamEnd(stream, 0)])
      modifies this`events, this`moments, this`context, agent`messages, agent`streamingMessage, agent`pendingToolCalls
      ensures EventsOk() && Ended(events) == newMessages && Where() == IN_TURN.(sending := addedPartial)
      ensures var n := StreamEnd(stream, 0);
        events == old(events) + Streaming(stream, n) && addedPartial == Started(stream, n)
      ensures if addedPartial then |context| > 0 && context[..|context| - 1] == old(context) else context == old(context)
    {
      hide Follow, Ended, EventsOk, StartsOnce, Started;
      ghost var end := StreamEnd(stream, 0);
      NoStart(stream);
      addedPartial := false;
      var i := 0;
      while i < |stream| && !stream[i].Finish?
        invariant i <= |stream| && StreamEnd(stream, i) == end
        invariant EventsOk() && Ended(events) == newMessages && events == old(events) + Streaming(stream, i)
        invariant Where() == IN_TURN.(sending := addedPartial)
        invariant if addedPartial then |context| > 0 && context[..|context| - 1] == old(context) else context == old(context)
        invariant addedPartial == Started(stream, i)
        decreases |stream| - i
      {
        StartedOnce(stream, i, end);
        match stream[i] {
          case Start(partial) =>
            context := context + [partial];
            addedPartial := true;
            Emit(MessageStart(partial));
          case Delta(partial) =>
            if addedPartial {
              context := context[|context| - 1 := partial];
              Emit(MessageUpdate(partial));
            }
        }
        i := i + 1;
      }
    }

    /** Stream one reply into the context; the list of new messages is left to the caller. */
    method StreamAssistantResponse(stream: seq<StreamEvent>, reply: Message)
      requires agent.activeRun && EventsOk() && Settled() && Where() == IN_TURN
      requires reply.Assistant? && StartsOnce(stream[..StreamEnd(stream, 0)])
      modifies this`events, this`moments, this`context, agent`messages, agent`streamingMessage, agent`pendingToolCalls
      ensures EventsOk() && Where() == IN_TURN
      ensures context == old(context) + [reply] && Ended(events) == newMessages + [reply]
      ensures events == old(events) + StreamEvents(stream, reply)
    {
      hide Follow, Ended, EventsOk, StartsOnce, Started, Streaming, StreamEnd;
      var addedPartial := StreamPartials(stream);
      if addedPartial {
        context := context[|context| - 1 := reply];
      } else {
        context := context + [reply];
        Emit(MessageStart(reply));
      }
      Emit(MessageEnd(reply));
    }

    method EmitMessage(m: Message)
      requires agent.activeRun && EventsOk() && Where() == IN_TURN
      modifies this`events, this`moments, agent`messages, agent`streamingMessage, agent`pendingToolCalls
      ensures EventsOk() && Where() == IN_TURN && events == old(events) + SendMessage(m)
    {
      hide Follow, Ended, EventsOk;
      Emit(MessageStart(m));
      Emit(MessageEnd(m));
    }

    /** Report the partial results of call `i`. */
    method EmitUpdates(i: nat, partials: seq<nat>)
      requires agent.activeRun && EventsOk() && Where() == IN_TURN.(running := multiset{i})
      modifies this`events, this`moments, agent`messages, agent`streamingMessage, agent`pendingToolCalls
      ensures EventsOk() && Where() == IN_TURN.(running := multiset{i}) && events == old(events) + Updates(i, partials)
    {
      hide Follow, Ended, EventsOk;
      for k := 0 to |partials|
        invariant EventsOk() && Where() == IN_TURN.(running := multiset{i})
        invariant events == old(events) + Updates(i, partials[..k])
      {
        Emit(ToolUpdate(i, partials[k]));
        StepUpdates(i, partials, k);
      }
      assert partials[..|partials|] == partials;
    }

    /** One call, from its start to its result message. */
    method ExecuteOne(call: Call, i: nat, aborted: bool) returns (outcome: Outcome)
      requires agent.activeRun && EventsOk() && Where() == IN_TURN
      modifies this`events, this`moments, agent`messages, agent`streamingMessage, agent`pendingToolCalls
      ensures EventsOk() && Where() == IN_TURN
      ensures var p := Prepare(call, aborted);
        && outcome == p.outcome
        && events == old(events) + (Life(call, i, p) + SendMessage(ResultMessage(call, outcome)))
    {
      hide Follow, Ended, EventsOk;
      AdvanceStart(call, i);
      Emit(ToolStart(i, call));
      var preparation := Prepare(call, aborted);
      if preparation.Prepared? { EmitUpdates(i, preparation.partials); }
      outcome := preparation.outcome;
      AdvanceEnd(i, outcome);
      Emit(ToolEnd(i, outcome));
      EmitMessage(ResultMessage(call, outcome));
    }

    method ExecuteToolCallsSequential(calls: seq<Call>, abortAt: nat) returns (outcomes: seq<Outcome>)
      requires agent.activeRun && EventsOk() && Where() == IN_TURN
      modifies this`events, this`moments, agent`messages, agent`streamingMessage, agent`pendingToolCalls
      ensures EventsOk() && Where() == IN_TURN
      ensures var b := Sequential(calls, abortAt, |calls|); outcomes == b.outcomes && events == old(events) + b.events
    {
      hide Follow, Ended, EventsOk, Life, Prepare, Sequential, SendMessage, ResultMessage;
      outcomes := [];
      var i := 0;
      NoneExecuted(calls, abortAt, events);
      while i < |calls|
        invariant i <= |calls| && EventsOk() && Where() == IN_TURN
        invariant events == old(events) + Sequential(calls, abortAt, i).events
        invariant outcomes == Sequential(calls, abortAt, i).outcomes
        invariant i > 0 ==> !IsAborted(abortAt, 2 * i - 1)
      {
        var outcome := ExecuteOne(calls[i], i, IsAborted(abortAt, 2 * i));
        outcomes := outcomes + [outcome];
        SequentialStep(calls, abortAt, i + 1);
        i := i + 1;
        if IsAborted(abortAt, 2 * i - 1) { break; }
      }
      SequentialStops(calls, abortAt, i, |calls|);
    }

    /** Prepare call `i`, after those before it. */
    method PrepareOne(calls: seq<Call>, abortAt: nat, i: nat, prepared: seq<Entry>, ghost at: nat)
      returns (entries: seq<Entry>)
      requires i < |calls| && at <= |events| && agent.activeRun && EventsOk() && Follow(NotStarted, events[..at]) == IN_TURN
      requires PrepareAll(calls, abortAt, i) == Preparing(events[at..], prepared)
      requires i > 0 ==> !IsAborted(abortAt, 2 * i - 1)
      modifies this`events, this`moments, agent`messages, agent`streamingMessage, agent`pendingToolCalls
      ensures EventsOk() && |events| >= at && events[..at] == old(events[..at])
      ensures PrepareAll(calls, abortAt, i + 1) == Preparing(events[at..], entries)
    {
      hide Follow, Ended, EventsOk, Execute, Underway;
      entries := prepared;
      PrepareUnderway(calls, abortAt, i);
      PrepareCount(calls, abortAt, i);
      assert |entries| == i;
      ghost var before := Preparing(events[at..], entries);
      InTurnFollow(events[..at], events[at..]);
      assert events == events[..at] + events[at..];
      StartAllowed(calls, abortAt, before);
      Emit(ToolStart(i, calls[i]));
      var preparation := Execute(calls, i, abortAt);
      if preparation.Immediate? {
        EndAllowed(calls, abortAt, before);
        Emit(ToolEnd(i, preparation.outcome));
        entries := entries + [Decided(preparation.outcome)];
      } else {
        entries := entries + [Running(preparation.partials, preparation.outcome)];
      }
    }

    /** The first phase of a concurrent batch: prepare the calls in order. */
    method PrepareCalls(calls: seq<Call>, abortAt: nat) returns (entries: seq<Entry>)
      requires agent.activeRun && EventsOk() && Where() == IN_TURN
      modifies this`events, this`moments, agent`messages, agent`streamingMessage, agent`pendingToolCalls
      ensures EventsOk() && |events| >= |old(events)| && events[..|old(events)|] == old(events)
      ensures PrepareAll(calls, abortAt, |calls|) == Preparing(events[|old(events)|..], entries)
    {
      hide Follow, Ended, EventsOk, Execute, Underway;
      entries := [];
      var i := 0;
      ghost var at := |events|;
      assert events[..at] == events;
      while i < |calls|
        invariant i <= |calls|
        invariant EventsOk() && |events| >= at && events[..at] == old(events)
        invariant PrepareAll(calls, abortAt, i) == Preparing(events[at..], entries)
        invariant i > 0 ==> !IsAborted(abortAt, 2 * i - 1)
      {
        entries := PrepareOne(calls, abortAt, i, entries, at);
        i := i + 1;
        if IsAborted(abortAt, 2 * i - 1) { break; }
      }
      PrepareStops(calls, abortAt, i, |calls|);
    }

    /** The second phase: the running calls report and end in the order the schedule gives. */
    method RunCalls(calls: seq<Call>, abortAt: nat, ghost start: nat, prepared: seq<Entry>, schedule: seq<nat>)
      returns (entries: seq<Entry>)
      requires start <= |events| && agent.activeRun && EventsOk()
      requires Follow(NotStarted, events[..start]) == IN_TURN
      requires Underway(calls, abortAt, Preparing(events[start..], prepared))
      modifies this`events, this`moments, agent`messages, agent`streamingMessage, agent`pendingToolCalls
      ensures EventsOk() && |events| >= |old(events)| && events[..start] == old(events[..start])
      ensures Interleave(Preparing(old(events[start..]), prepared), schedule) == Preparing(events[start..], entries)
    {
      hide Follow, Ended, EventsOk, Underway;
      entries := prepared;
      ghost var first := Preparing(events[start..], prepared);
      for k := 0 to |schedule|
        invariant EventsOk() && |events| >= |old(events)| && events[..start] == old(events[..start])
        invariant Interleave(first, schedule[..k]) == Preparing(events[start..], entries)
      {
        var i := schedule[k];
        ghost var now := Preparing(events[start..], entries);
        InterleaveUnderway(calls, abortAt, first, schedule[..k]);
        assert schedule[..k + 1][..k] == schedule[..k];
        if i < |entries| && entries[i].Running? {
          InTurnFollow(events[..start], events[start..]);
          assert events[..start] + events[start..] == events;
          StepAllowed(calls, abortAt, now, i);
          if entries[i].left == [] {
            Emit(ToolEnd(i, entries[i].outcome));
            entries := entries[i := Decided(entries[i].outcome)];
          } else {
            Emit(ToolUpdate(i, entries[i].left[0]));
            entries := entries[i := Running(entries[i].left[1..], entries[i].outcome)];
          }
        }
      }
      assert schedule[..|schedule|] == schedule;
    }

    /** The third phase: the result messages, in the order of the calls. */
    method SendAll(calls: seq<Call>, outcomes: seq<Outcome>)
      requires agent.activeRun && EventsOk() && Where() == IN_TURN && |outcomes| <= |calls|
      modifies this`events, this`moments, agent`messages, agent`streamingMessage, agent`pendingToolCalls
      ensures EventsOk() && Where() == IN_TURN
      ensures events == old(events) + SendResults(calls, outcomes, |outcomes|)
    {
      hide Follow, Ended, EventsOk;
      for i := 0 to |outcomes|
        invariant EventsOk() && Where() == IN_TURN
        invariant events == old(events) + SendResults(calls, outcomes, i)
      {
        EmitMessage(ResultMessage(calls[i], outcomes[i]));
      }
    }

    method ExecuteToolCallsParallel(calls: seq<Call>, abortAt: nat, schedule: seq<nat>) returns (outcomes: seq<Outcome>)
      requires agent.activeRun && EventsOk() && Where() == IN_TURN
      requires Complete(calls, abortAt, schedule)
      modifies this`events, this`moments, agent`messages, agent`streamingMessage, agent`pendingToolCalls
      ensures EventsOk() && Where() == IN_TURN
      ensures var b := Parallel(calls, abortAt, schedule); outcomes == b.outcomes && events == old(events) + b.events
    {
      hide Follow, Ended, EventsOk, Underway, Interleave, PrepareAll;
      ghost var start := |events|;
      var prepared := PrepareCalls(calls, abortAt);
      PrepareUnderway(calls, abortAt, |calls|);
      var entries := RunCalls(calls, abortAt, start, prepared, schedule);
      outcomes := Outcomes(entries);
      ghost var s := Preparing(events[start..], entries);
      assert events == events[..start] + events[start..];
      InTurnFollow(events[..start], events[start..]);
      AllEnded(calls, abortAt, schedule);
      EntriesBound(calls, abortAt, |calls|);
      InterleaveKeepsCount(PrepareAll(calls, abortAt, |calls|), schedule);
      SendAll(calls, outcomes);
    }

    /** Either executor; the results do not depend on which. */
    method ExecuteToolCalls(turn: Turn) returns (results: seq<Message>, terminate: bool)
      requires agent.activeRun && EventsOk() && Where() == IN_TURN && LegalTurn(turn)
      modifies this`events, this`moments, agent`messages, agent`streamingMessage, agent`pendingToolCalls
      ensures EventsOk() && Where() == IN_TURN
      ensures events == old(events) + BatchOf(turn).events && Ended(events) == old(Ended(events)) + results
      ensures var outcomes := Sequential(turn.reply.calls, turn.abortAt, |turn.reply.calls|).outcomes;
        && |outcomes| <= |turn.reply.calls|
        && results == ResultMessages(turn.reply.calls, outcomes)
        && (terminate <==> outcomes != [] && forall i :: 0 <= i < |outcomes| ==> outcomes[i].terminate)
    {
      hide Follow, Ended, EventsOk, Sequential, Parallel, Complete, Of;
      var calls := turn.reply.calls;
      SequentialProtocol(calls, turn.abortAt, |calls|);
      var outcomes;
      match turn.executor {
        case OneByOne =>
          outcomes := ExecuteToolCallsSequential(calls, turn.abortAt);
          EndedConcat(old(events), Sequential(calls, turn.abortAt, |calls|).events);
        case Concurrent(schedule) =>
          ParallelRefinesSequential(calls, turn.abortAt, schedule, 0);
          outcomes := ExecuteToolCallsParallel(calls, turn.abortAt, schedule);
          EndedConcat(old(events), Parallel(calls, turn.abortAt, schedule).events);
      }
      results := ResultMessages(calls, outcomes);
      terminate := ShouldTerminate(outcomes);
    }
  
    /** What every method of a run keeps, between turns and within. */
    ghost predicate RunOk()
      reads this`events, this`moments, this`waiting, this`steps, agent
      reads agent.steeringQueue`messages, agent.followUpQueue`messages
    {
      agent.activeRun && QueuesOk() && EventsOk()
    }

    /** The new messages are the prompts and what the steps so far have added. */
    ghost predicate Told()
      reads this`newMessages, this`steps
    {
      newMessages == prompts + Transcript(steps)
    }

    /** The events are those of the steps so far, and of the end of the run when it is over. */
    ghost predicate Shown(over: bool)
      reads this`events, this`newMessages, this`steps
    {
      events == RunEvents(prompts, steps) + if over then [AgentEnd(newMessages)] else []
    }

    /** Messages arrive, and the steering queue is asked, unless this is the first poll of `continue()`. */
    method PollSteering(a: Arrivals, skip: bool)
      requires QueuesOk() && Told() && Shown(false) && waiting == [] && pending == []
      requires a == Arriving(first, Turns(steps), AskedSteering([]))
      modifies this`pending, this`waiting, this`steps, agent`steered, agent`followed, agent`steeringHeld,
        agent.steeringQueue`messages, agent.followUpQueue`messages
      ensures QueuesOk() && Told() && Shown(false) && waiting == pending && agent.followUpsHeld == []
      ensures steps == old(steps) + [AskedSteering(pending)] && Turns(steps) == old(Turns(steps))
      ensures Trail(steps) == Move(old(Trail(steps)), AskedSteering(pending))
      ensures agent.steered == old(agent.steered) + a.steering && agent.followed == old(agent.followed) + a.followUps
      ensures pending ==
        if skip then [] else Taken(agent.steeringQueue.mode, old(agent.steeringQueue.messages) + a.steering)
    {
      hide Trail, Move, Transcript, Turns, AfterSteps, Taken, RunEvents;
      agent.Arrive(a);
      if !skip { pending := agent.DrainSteering(); }
      waiting := pending;
      NoteAsked(AskedSteering(pending));
    }

    /** Messages arrive, and the follow-up queue is asked. */
    method PollFollowUps(a: Arrivals)
      requires QueuesOk() && Told() && Shown(false) && waiting == [] && pending == []
      requires a == Arriving(first, Turns(steps), AskedFollowUps([]))
      modifies this`pending, this`waiting, this`steps, agent`steered, agent`followed, agent`followUpsHeld,
        agent.steeringQueue`messages, agent.followUpQueue`messages
      ensures QueuesOk() && Told() && Shown(false) && waiting == pending && agent.steeringHeld == []
      ensures steps == old(steps) + [AskedFollowUps(pending)] && Turns(steps) == old(Turns(steps))
      ensures Trail(steps) == Move(old(Trail(steps)), AskedFollowUps(pending))
      ensures agent.steered == old(agent.steered) + a.steering && agent.followed == old(agent.followed) + a.followUps
      ensures pending == Taken(agent.followUpQueue.mode, old(agent.followUpQueue.messages) + a.followUps)
    {
      hide Trail, Move, Transcript, Turns, AfterSteps, Taken, RunEvents;
      agent.Arrive(a);
      pending := agent.DrainFollowUps();
      waiting := pending;
      NoteAsked(AskedFollowUps(pending));
    }

    /** What a poll has done to the agent's account becomes a step. */
    ghost method NoteAsked(s: Step)
      requires !s.Took? && agent.Conserves() && agent.activeRun && waiting == agent.steeringHeld + agent.followUpsHeld
      requires agent.steeringHeld == [] || agent.followUpsHeld == []
      requires var (x, now) := (AfterSteps(before, first, steps), Arriving(first, Turns(steps), s));
        agent.AccountNow() == Account(
          x.steered + now.steering, x.steeringTaken + (if s.AskedSteering? then s.drained else []),
          x.followed + now.followUps, x.followUpsTaken + (if s.AskedSteering? then [] else s.drained))
      requires Told() && Shown(false)
      modifies this`steps
      ensures QueuesOk() && Told() && Shown(false) && steps == old(steps) + [s]
      ensures Turns(steps) == old(Turns(steps)) && Trail(steps) == Move(old(Trail(steps)), s)
    {
      hide Trail, Move, Transcript, Turns, AfterSteps, Arriving, RunEvents;
      AskedSnoc(steps, s);
      AccountAsked(before, first, steps, s);
      AskedShowsNothing(prompts, steps, s);
      steps := steps + [s];
    }

    /** A turn has been taken: it injected `injected`, added what it says, and showed its events. */
    ghost method NoteTurn(turn: Turn, injected: seq<Message>, over: bool)
      requires QueuesOk() && newMessages == prompts + Transcript(steps) + Said(Took(turn, injected))
      requires events == RunEvents(prompts, steps) + TurnEvents(turn, injected, Turns(steps) == [])
        + if over then [AgentEnd(newMessages)] else []
      modifies this`steps
      ensures QueuesOk() && Told() && Shown(over)
      ensures Turns(steps) == old(Turns(steps)) + [turn] && Trail(steps) == Move(old(Trail(steps)), Took(turn, injected))
    {
      hide Trail, Move, Transcript, Turns, AfterSteps, Said, RunEvents, TurnEvents;
      TookSnoc(steps, turn, injected);
      AccountTook(before, first, steps, turn, injected);
      TookShows(prompts, steps, turn, injected);
      assert prompts + (Transcript(steps) + Said(Took(turn, injected)))
        == prompts + Transcript(steps) + Said(Took(turn, injected));
      steps := steps + [Took(turn, injected)];
    }

    /** Execute the reply's tool calls, if any, and put their results into the transcripts. */
    method AnswerCalls(turn: Turn) returns (results: seq<Message>, more: bool)
      requires agent.activeRun && EventsOk() && Settled() && Where() == IN_TURN && LegalTurn(turn) && !Fails(turn)
      modifies this`events, this`moments, this`context, this`newMessages,
        agent`messages, agent`streamingMessage, agent`pendingToolCalls
      ensures EventsOk() && Settled() && Where() == IN_TURN
      ensures events == old(events) + BatchEvents(turn)
      ensures newMessages == old(newMessages) + results
      ensures results == Results(turn) && more == ToolsLeft(turn)
    {
      hide Follow, Ended, EventsOk, Sequential, Complete, ResultMessages, BatchOf;
      results, more := [], false;
      if |turn.reply.calls| > 0 {
        var terminate;
        results, terminate := ExecuteToolCalls(turn);
        more := !terminate;
        context := context + results;
        newMessages := newMessages + results;
      }
    }

    /** The first half of a turn: what is pending, then the model's reply. */
    method Reply(turn: Turn, firstTurn: bool)
      requires RunOk() && Settled() && waiting == pending && LegalTurn(turn)
      requires Where() == if firstTurn then IN_TURN else BETWEEN_TURNS
      modifies this`events, this`moments, this`context, this`newMessages, this`pending, this`waiting,
        agent`messages, agent`streamingMessage, agent`pendingToolCalls,
        agent`steeringHeld, agent`steeringDelivered, agent`followUpsHeld, agent`followUpsDelivered
      ensures RunOk() && Settled() && waiting == pending == [] && Where() == IN_TURN
      ensures newMessages == old(newMessages) + old(pending) + [turn.reply]
      ensures events == old(events) + HeadEvents(turn, old(pending), firstTurn)
    {
      hide Follow, Ended, EventsOk, QueuesOk, Complete, StartsOnce, SendMessages, StreamEvents, StreamEnd;
      ghost var sent := SendMessages(pending);
      if !firstTurn { Emit(TurnStart); }
      InjectPending();
      StreamAssistantResponse(turn.stream, turn.reply);
      newMessages := newMessages + [turn.reply];
      Chain(old(events), if firstTurn then [] else [TurnStart], sent, StreamEvents(turn.stream, turn.reply));
    }

    /** Close the turn, and the run with it if `stop`. */
    method CloseTurn(reply: Message, results: seq<Message>, stop: bool)
      requires agent.activeRun && EventsOk() && Settled() && pending == [] && Where() == IN_TURN
      modifies this`events, this`moments, agent`messages, agent`streamingMessage, agent`pendingToolCalls
      ensures EventsOk() && Settled() && Where() == if stop then Finished else BETWEEN_TURNS
      ensures events == old(events) + [TurnEnd(reply, results)] + if stop then [AgentEnd(newMessages)] else []
    {
      hide Follow, Ended, EventsOk;
      Emit(TurnEnd(reply, results));
      if stop { EndRun(); }
    }

    /** A turn is due: tool calls are left, or messages are pending. */
    ghost predicate Due(more: bool)
      reads this`steps, this`pending
    {
      Trail(steps) == Ready(pending, more) && (more || pending != [])
    }

    /** Close a turn whose reply failed, and with it the run. */
    method FailTurn(turn: Turn, ghost injected: seq<Message>)
      requires RunOk() && Settled() && pending == waiting == [] && Where() == IN_TURN && Fails(turn)
      requires newMessages == prompts + Transcript(steps) + injected + [turn.reply]
      requires events == RunEvents(prompts, steps) + HeadEvents(turn, injected, Turns(steps) == [])
      modifies this`events, this`moments, this`steps, agent`messages, agent`streamingMessage, agent`pendingToolCalls
      ensures RunOk() && Settled() && Told() && Shown(true) && Where() == Finished
      ensures Turns(steps) == old(Turns(steps)) + [turn]
      ensures Trail(steps) == Move(old(Trail(steps)), Took(turn, injected))
    {
      hide Follow, Ended, EventsOk, QueuesOk, Trail, Move, Transcript, Turns, Results, RunEvents, HeadEvents, BatchEvents;
      CloseTurn(turn.reply, [], true);
      FailsSaysNothing(turn);
      Regroup(prompts, Transcript(steps), injected, [turn.reply], []);
      Closed(RunEvents(prompts, steps), turn, injected, Turns(steps) == []);
      NoteTurn(turn, injected, true);
    }

    /** Execute the tool calls and close the turn; the stop hook may close the run. */
    method FinishTurn(turn: Turn, ghost injected: seq<Message>) returns (more: bool)
      requires RunOk() && Settled() && pending == waiting == [] && Where() == IN_TURN && LegalTurn(turn) && !Fails(turn)
      requires newMessages == prompts + Transcript(steps) + injected + [turn.reply]
      requires events == RunEvents(prompts, steps) + HeadEvents(turn, injected, Turns(steps) == [])
      modifies this`events, this`moments, this`context, this`newMessages, this`steps,
        agent`messages, agent`streamingMessage, agent`pendingToolCalls
      ensures RunOk() && Settled() && Told() && Shown(turn.stopAfter)
      ensures Where() == if turn.stopAfter then Finished else BETWEEN_TURNS
      ensures Turns(steps) == old(Turns(steps)) + [turn] && more == ToolsLeft(turn)
      ensures Trail(steps) == Move(old(Trail(steps)), Took(turn, injected))
    {
      hide Follow, Ended, EventsOk, QueuesOk, Trail, Move, Transcript, Turns, Results, ToolsLeft, LegalTurn, Fails;
      hide RunEvents, HeadEvents, BatchEvents;
      var results;
      results, more := AnswerCalls(turn);
      CloseTurn(turn.reply, results, turn.stopAfter);
      Regroup(prompts, Transcript(steps), injected, [turn.reply], results);
      Closed(RunEvents(prompts, steps), turn, injected, Turns(steps) == []);
      NoteTurn(turn, injected, turn.stopAfter);
    }

    /**
     * The body of the inner loop: one turn. `stop` says that the run has ended; otherwise `more` says
     * whether tool calls are left.
     */
    method RunTurn(turn: Turn, firstTurn: bool, ghost toolsLeft: bool) returns (stop: bool, more: bool)
      requires RunOk() && Settled() && Told() && Shown(false) && waiting == pending && LegalTurn(turn) && Due(toolsLeft)
      requires Where() == (if firstTurn then IN_TURN else BETWEEN_TURNS) && (firstTurn <==> Turns(steps) == [])
      modifies this, agent, agent.steeringQueue`messages, agent.followUpQueue`messages
      ensures RunOk() && Settled() && Told() && Shown(stop) && waiting == pending
      ensures Turns(steps) == old(Turns(steps)) + [turn]
      ensures stop ==> Where() == Finished && pending == [] && Trail(steps) == Done
      ensures !stop ==> Where() == BETWEEN_TURNS && Trail(steps) == Ready(pending, more)
    {
      hide Follow, Ended, EventsOk, QueuesOk, Complete, StartsOnce, Trail, Transcript, Turns, Results, ToolsLeft;
      hide RunEvents, HeadEvents, StreamEnd;
      ghost var injected := pending;
      Reply(turn, firstTurn);
      if turn.reply.stopReason == Error || turn.reply.stopReason == Aborted {
        FailTurn(turn, injected);
        return true, false;
      }
      more := FinishTurn(turn, injected);
      if turn.stopAfter { return true, false; }
      PollSteering(turn.beforeSteering, false);
      stop := false;
    }

    /** Between turns, or at the first one: where the run stands after the turns `taken`. */
    ghost predicate InLoop(taken: seq<Turn>, firstTurn: bool, more: bool)
      reads this, agent, agent.steeringQueue`messages, agent.followUpQueue`messages
    {
      && RunOk() && Settled() && Told() && Shown(false) && waiting == pending
      && Where() == (if firstTurn then IN_TURN else BETWEEN_TURNS) && (firstTurn <==> taken == [])
      && Turns(steps) == taken && Trail(steps) == Ready(pending, more)
    }

    /**
     * The inner loop: turns as long as tool calls are left or messages are pending. `stop` says that the
     * run has ended, `idle` that there is nothing left to take a turn for; otherwise the script has ended.
     */
    method TakeTurns(script: seq<Turn>, from: nat, first: bool) returns (t: nat, stop: bool, idle: bool)
      requires from <= |script| && InLoop(script[..from], first, true)
      requires forall t :: 0 <= t < |script| ==> LegalTurn(script[t])
      modifies this, agent, agent.steeringQueue`messages, agent.followUpQueue`messages
      ensures from <= t <= |script|
      ensures stop ==> RunOk() && Settled() && Told() && Shown(true) && Where() == Finished && waiting == []
      ensures stop ==> Trail(steps) == Done && Turns(steps) == script[..t]
      ensures !stop && idle ==> t > from && pending == [] && InLoop(script[..t], false, false)
      ensures !stop && !idle ==> t == |script| && exists first, more :: InLoop(script[..t], first, more) && Due(more)
    {
      hide Follow, Ended, EventsOk, QueuesOk, LegalTurn, Told, Shown, ToolsLeft, Trail, Turns, Settled, Move;
      var firstTurn := first;
      var hasMoreToolCalls := true;
      t := from;
      while hasMoreToolCalls || |pending| > 0
        invariant from <= t <= |script| && InLoop(script[..t], firstTurn, hasMoreToolCalls)
        invariant t == from ==> hasMoreToolCalls
        invariant t > from ==> !firstTurn
        decreases |script| - t
      {
        if t == |script| {
          assert Due(hasMoreToolCalls) && InLoop(script[..t], firstTurn, hasMoreToolCalls);
          return t, false, false;
        }
        stop, hasMoreToolCalls := RunTurn(script[t], firstTurn, hasMoreToolCalls);
        firstTurn := false;
        assert script[..t] + [script[t]] == script[..t + 1];
        t := t + 1;
        if stop { return t, true, false; }
      }
      return t, false, true;
    }

    /**
     * `runLoop`: turns until no work is left, a reply fails, or the stop hook asks to stop. The result
     * says whether the run ended; otherwise the script did, and the run waits for a reply that is due.
     */
    method RunLoop(script: seq<Turn>, first: Arrivals, skipInitialPoll: bool) returns (ended: bool)
      requires RunOk() && Settled() && Told() && Shown(false) && Where() == IN_TURN && first == this.first
      requires waiting == [] && pending == [] && steps == []
      requires forall t :: 0 <= t < |script| ==> LegalTurn(script[t])
      modifies this, agent, agent.steeringQueue`messages, agent.followUpQueue`messages
      ensures RunOk() && Settled() && Told() && Shown(ended)
      ensures ended ==> Where() == Finished && waiting == [] && Trail(steps) == Done && Turns(steps) <= script
      ensures !ended ==> (Where() == IN_TURN || Where() == BETWEEN_TURNS) && Turns(steps) == script
      ensures !ended ==> waiting == pending && exists more :: Due(more)
    {
      hide Follow, Ended, EventsOk, QueuesOk, LegalTurn, Told, ToolsLeft, Trail, Turns, Settled, Shown;
      var firstTurn := true;
      FirstPoll(first, skipInitialPoll);
      var t := 0;
      assert script[..t] == [];
      while true
        invariant t <= |script| && InLoop(script[..t], firstTurn, true)
        decreases |script| - t
      {
        var stop, idle;
        t, stop, idle := TakeTurns(script, t, firstTurn);
        firstTurn := false;
        if stop { return true; }
        if !idle {
          assert script[..t] == script;
          return false;
        }
        AskForMore(script, t);
        if |pending| > 0 { continue; }
        break;
      }
      EndLoop();
      return true;
    }

    /** The first poll, before any turn. */
    method FirstPoll(a: Arrivals, skip: bool)
      requires RunOk() && Settled() && Told() && Shown(false) && Where() == IN_TURN && a == first
      requires waiting == [] && pending == [] && steps == []
      modifies this, agent, agent.steeringQueue`messages, agent.followUpQueue`messages
      ensures InLoop([], true, true)
    {
      hide Follow, Ended, EventsOk, QueuesOk, Told, Shown, Settled;
      NothingTold(prompts);
      PollSteering(a, skip);
    }

    /** No turn is due after `t` of them: ask for follow-ups. If there are none, the run is over. */
    method AskForMore(script: seq<Turn>, t: nat)
      requires 0 < t <= |script| && InLoop(script[..t], false, false) && pending == []
      modifies this, agent, agent.steeringQueue`messages, agent.followUpQueue`messages
      ensures pending != [] ==> InLoop(script[..t], false, true)
      ensures RunOk() && Settled() && Told() && Shown(false) && waiting == pending && Where() == BETWEEN_TURNS
      ensures Turns(steps) == script[..t] && (pending == [] ==> Trail(steps) == Done)
    {
      hide Follow, Ended, EventsOk, QueuesOk, Told, Shown, Settled, Trail, Turns;
      PollFollowUps(script[t - 1].beforeFollowUps);
    }

    /** Close the run between turns. */
    method EndLoop()
      requires RunOk() && Settled() && Told() && Shown(false) && pending == [] && Where() == BETWEEN_TURNS
      modifies this`events, this`moments, agent`messages, agent`streamingMessage, agent`pendingToolCalls
      ensures RunOk() && Settled() && Told() && Shown(true) && Where() == Finished
    {
      hide Follow, Ended, EventsOk, QueuesOk, RunEvents, Transcript, Settled;
      EndRun();
    }

    method EndRun()
      requires agent.activeRun && EventsOk() && Settled() && pending == [] && Where() == BETWEEN_TURNS
      modifies this`events, this`moments, agent`messages, agent`streamingMessage, agent`pendingToolCalls
      ensures EventsOk() && Settled() && Where() == Finished && events == old(events) + [AgentEnd(newMessages)]
    {
      hide Follow, Ended, EventsOk;
      Emit(AgentEnd(newMessages));
    }

    /** `runAgentLoop`: announce the prompts, then loop. */
    method RunAgentLoop(prompts: seq<Message>, script: seq<Turn>, first: Arrivals, skipInitialPoll: bool)
      returns (ended: bool)
      requires RunOk() && events == [] && moments == [] && steps == [] && pending == [] && prompts == this.prompts
      requires newMessages == prompts && context == initial + prompts && (waiting == prompts || waiting == [])
      requires first == this.first
      requires forall t :: 0 <= t < |script| ==> LegalTurn(script[t])
      modifies this, agent, agent.steeringQueue`messages, agent.followUpQueue`messages
      ensures RunOk() && Settled() && Told() && Shown(ended)
      ensures ended ==> Where() == Finished && waiting == [] && Trail(steps) == Done && Turns(steps) <= script
      ensures !ended ==> (Where() == IN_TURN || Where() == BETWEEN_TURNS) && Turns(steps) == script
      ensures !ended ==> waiting == pending && exists more :: Due(more)
    {
      hide Follow, Ended, EventsOk, QueuesOk, LegalTurn, Trail, Turns, RunEvents, SendMessages;
      NothingTold(prompts);
      FollowNone(NotStarted);
      Emit(AgentStart);
      Emit(TurnStart);
      AnnouncePrompts(prompts);
      ended := RunLoop(script, first, skipInitialPoll);
    }

    method AnnounceOne(prompt: Message)
      requires RunOk() && Where() == IN_TURN
      modifies this`events, this`moments, agent`messages, agent`streamingMessage, agent`pendingToolCalls
      ensures RunOk() && Where() == IN_TURN && events == old(events) + SendMessage(prompt)
      ensures Ended(events) == old(Ended(events)) + [prompt]
    {
      hide Follow, Ended, EventsOk, QueuesOk;
      Emit(MessageStart(prompt));
      Emit(MessageEnd(prompt));
    }

    method AnnouncePrompts(prompts: seq<Message>)
      requires RunOk() && Where() == IN_TURN && Ended(events) == [] && (waiting == prompts || waiting == [])
      modifies this`events, this`moments, this`waiting,
        agent`messages, agent`streamingMessage, agent`pendingToolCalls,
        agent`steeringHeld, agent`steeringDelivered, agent`followUpsHeld, agent`followUpsDelivered
      ensures RunOk() && Where() == IN_TURN && Ended(events) == prompts && waiting == []
      ensures events == old(events) + SendMessages(prompts)
      ensures agent.steeringDelivered == old(agent.steeringDelivered) + old(agent.steeringHeld)
      ensures agent.followUpsDelivered == old(agent.followUpsDelivered) + old(agent.followUpsHeld)
    {
      hide Follow, Ended, EventsOk, QueuesOk;
      ghost var queued := waiting != [];
      var i := 0;
      while i < |prompts|
        invariant i <= |prompts| && RunOk() && Where() == IN_TURN && Ended(events) == prompts[..i]
        invariant waiting == if queued then prompts[i..] else []
        invariant events == old(events) + SendMessages(prompts[..i])
        invariant agent.AccountNow() == old(agent.AccountNow())
      {
        AnnounceOne(prompts[i]);
        assert prompts[..i + 1] == prompts[..i] + [prompts[i]];
        SendSnoc(prompts, i);
        if queued { DeliverFirst(); }
        i := i + 1;
      }
      NothingWaiting();
      assert prompts[..i] == prompts;
    }
  }

  lemma Regroup(prompts: seq<Message>, told: seq<Message>, injected: seq<Message>, reply: seq<Message>, results: seq<Message>)
    ensures prompts + told + injected + reply + results == prompts + told + (injected + reply + results)
  {
  }

  lemma Closed(before: seq<Event>, turn: Turn, injected: seq<Message>, firstTurn: bool)
    ensures before + TurnEvents(turn, injected, firstTurn) ==
      before + HeadEvents(turn, injected, firstTurn) + BatchEvents(turn) + [TurnEnd(turn.reply, Results(turn))]
  {
    hide HeadEvents, BatchEvents, Results;
  }

  lemma Chain(before: seq<Event>, a: seq<Event>, b: seq<Event>, c: seq<Event>)
    ensures before + (a + b + c) == before + a + b + c && before + [] == before
  {
  }

  lemma FailsSaysNothing(turn: Turn)
    requires Fails(turn)
    ensures Results(turn) == [] && Ends(turn) && BatchEvents(turn) == []
  {
  }

  lemma NothingTold(prompts: seq<Message>)
    ensures Transcript([]) == [] && prompts + [] == prompts && Trail([]) == AtStart && Turns([]) == []
    ensures RunEvents(prompts, []) == [] + [AgentStart] + [TurnStart] + SendMessages(prompts)
    ensures Follow(NotStarted, []) == NotStarted
  {
  }

  lemma StepAllowed(calls: seq<Call>, abortAt: nat, s: Preparing, i: nat)
    requires Underway(calls, abortAt, s) && i < |s.entries| && s.entries[i].Running?
    ensures forall n: nat :: Advance(Follow(IN_TURN, s.events), ToolUpdate(i, n)) != Broken
    ensures forall o: Outcome :: Advance(Follow(IN_TURN, s.events), ToolEnd(i, o)) != Broken
  {
    hide Of, Ended, Follow, LifeSoFar;
    assert i in Live(s.entries);
  }

  lemma AllEnded(calls: seq<Call>, abortAt: nat, schedule: seq<nat>)
    requires Complete(calls, abortAt, schedule)
    ensures Follow(IN_TURN, Interleave(PrepareAll(calls, abortAt, |calls|), schedule).events) == IN_TURN
  {
    hide Of, Ended, Follow, LifeSoFar, Interleave, PrepareAll;
    var prepared := PrepareAll(calls, abortAt, |calls|);
    PrepareUnderway(calls, abortAt, |calls|);
    InterleaveUnderway(calls, abortAt, prepared, schedule);
    var ran := Interleave(prepared, schedule);
    assert Live(ran.entries) == {};
    assert multiset(Live(ran.entries)) == multiset{};
  }

  lemma NoneExecuted(calls: seq<Call>, abortAt: nat, events: seq<Event>)
    ensures Sequential(calls, abortAt, 0) == Batch([], []) && events + [] == events
  {
  }

  lemma {:induction false} SequentialStops(calls: seq<Call>, abortAt: nat, i: nat, n: nat)
    requires i <= n <= |calls| && (i < n ==> i > 0 && IsAborted(abortAt, 2 * i - 1))
    ensures Sequential(calls, abortAt, n) == Sequential(calls, abortAt, i)
  {
    if i < n { SequentialStops(calls, abortAt, i, n - 1); }
  }

  lemma {:induction false} PrepareStops(calls: seq<Call>, abortAt: nat, i: nat, n: nat)
    requires i <= n <= |calls| && (i < n ==> i > 0 && IsAborted(abortAt, 2 * i - 1))
    ensures PrepareAll(calls, abortAt, n) == PrepareAll(calls, abortAt, i)
  {
    if i < n { PrepareStops(calls, abortAt, i, n - 1); }
  }

  lemma InTurnFollow(before: seq<Event>, after: seq<Event>)
    requires Follow(NotStarted, before) == IN_TURN
    ensures Follow(NotStarted, before + after) == Follow(IN_TURN, after)
  {
    FollowConcat(NotStarted, before, after);
  }

  lemma StartAllowed(calls: seq<Call>, abortAt: nat, s: Preparing)
    requires Underway(calls, abortAt, s) && |s.entries| < |calls|
    ensures Advance(Follow(IN_TURN, s.events), ToolStart(|s.entries|, calls[|s.entries|])) != Broken
  {
    hide Of, Ended, Follow, LifeSoFar;
    assert |s.entries| !in Live(s.entries);
  }

  lemma EndAllowed(calls: seq<Call>, abortAt: nat, s: Preparing)
    requires Underway(calls, abortAt, s) && |s.entries| < |calls|
    ensures var p := Advance(Follow(IN_TURN, s.events), ToolStart(|s.entries|, calls[|s.entries|]));
      forall o: Outcome :: Advance(p, ToolEnd(|s.entries|, o)) != Broken
  {
    hide Of, Ended, Follow, LifeSoFar;
    assert |s.entries| !in Live(s.entries);
  }

  /* ---------- Prompt and continue ---------- */

  datatype Refusal = AlreadyProcessing | NoMessages | LastIsAssistant

  /** What a run leaves for the record. */
  datatype Record = Record(
    events: seq<Event>, moments: seq<Moment>, steps: seq<Step>, prompts: seq<Message>, newMessages: seq<Message>)

  /**
   * A run that started from the transcript `before` and ended with `after`: one protocol run whose
   * `message_end` payloads are its new messages and its addition to the transcript. These are the prompts
   * and then, turn by turn, what was injected, the reply and the tool results; the turns are those of the
   * script, and the decisions between them follow the rules to the end. Its events are exactly those that
   * prompts and turns call for.
   */
  ghost predicate GoodRun(r: Record, before: seq<Message>, after: seq<Message>, script: seq<Turn>, ended: bool) {
    && GoodHistory(r.events, r.moments, before)
    && Follow(NotStarted, r.events) != Broken
    && (ended <==> Follow(NotStarted, r.events) == Finished)
    && r.events == RunEvents(r.prompts, r.steps) + (if ended then [AgentEnd(r.newMessages)] else [])
    && r.newMessages == Ended(r.events)
    && after == before + r.newMessages
    && r.newMessages == r.prompts + Transcript(r.steps)
    && Turns(r.steps) <= script
    && (ended ==> Trail(r.steps) == Done)
    && (!ended ==>
      && Turns(r.steps) == script
      && Trail(r.steps).Ready? && (Trail(r.steps).toolsLeft || Trail(r.steps).pending != []))
  }

  /** Own the run: open it, loop, and close it when it has ended. */
  method RunPromptMessages(agent: Agent, prompts: seq<Message>, script: seq<Turn>, first: Arrivals, skipInitialPoll: bool)
    returns (ended: bool, ghost record: Record)
    requires agent.Conserves() && !agent.activeRun && agent.pendingToolCalls == {}
    requires prompts == agent.steeringHeld + agent.followUpsHeld || (agent.steeringHeld == [] && agent.followUpsHeld == [])
    requires agent.steeringHeld == [] || agent.followUpsHeld == []
    requires forall t :: 0 <= t < |script| ==> LegalTurn(script[t])
    modifies agent, agent.steeringQueue`messages, agent.followUpQueue`messages
    ensures agent.Conserves()
    ensures GoodRun(record, old(agent.messages), agent.messages, script, ended) && record.prompts == prompts
    ensures if ended then agent.Idle() else agent.activeRun
    ensures agent.AccountNow() == AfterSteps(old(agent.AccountNow()), first, record.steps)
  {
    hide Follow, Ended, GoodHistory, LegalTurn, Trail, Turns, Transcript, AfterSteps, Move, Taken, RunEvents;
    agent.activeRun := true;
    agent.isStreaming := true;
    agent.streamingMessage := None;
    var loop := new Loop(agent, prompts, first);
    ended := loop.RunAgentLoop(prompts, script, first, skipInitialPoll);
    record := Record(loop.events, loop.moments, loop.steps, prompts, loop.newMessages);
    if ended { Close(agent); }
  }

  /** The run is over: nothing is streamed, executed or held. */
  method Close(agent: Agent)
    modifies agent`isStreaming, agent`streamingMessage, agent`pendingToolCalls, agent`activeRun
    ensures !agent.activeRun && !agent.isStreaming && agent.streamingMessage == None && agent.pendingToolCalls == {}
  {
    agent.isStreaming := false;
    agent.streamingMessage := None;
    agent.pendingToolCalls := {};
    agent.activeRun := false;
  }

  /** `prompt()`: refused while a run is active. What is passed in during the run is accounted for like what was before. */
  method Prompt(agent: Agent, prompts: seq<Message>, script: seq<Turn>, first: Arrivals)
    returns (refused: Option<Refusal>, ended: bool, ghost record: Record)
    requires agent.Conserves() && (agent.Idle() || agent.activeRun)
    requires forall t :: 0 <= t < |script| ==> LegalTurn(script[t])
    modifies agent, agent.steeringQueue`messages, agent.followUpQueue`messages
    ensures agent.Conserves()
    ensures refused.Some? <==> old(agent.activeRun)
    ensures refused.Some? ==>
      && refused.value == AlreadyProcessing
      && unchanged(agent) && unchanged(agent.steeringQueue) && unchanged(agent.followUpQueue)
    ensures refused.None? ==>
      && GoodRun(record, old(agent.messages), agent.messages, script, ended)
      && record.prompts == prompts
      && (if ended then agent.Idle() else agent.activeRun)
      && agent.AccountNow() == AfterSteps(old(agent.AccountNow()), first, record.steps)
  {
    hide LegalTurn, GoodRun, AfterSteps;
    refused, ended, record := None, false, Record([], [], [], [], []);
    if agent.activeRun { return Some(AlreadyProcessing), false, record; }
    ended, record := RunPromptMessages(agent, prompts, script, first, false);
  }

  /** The messages `continue()` starts a run with, given what one drain would take off each queue. */
  function Resumed(messages: seq<Message>, steering: seq<Message>, followUps: seq<Message>): seq<Message> {
    if messages == [] || !messages[|messages| - 1].Assistant? then []
    else if steering != [] then steering
    else followUps
  }

  /** The account once those prompts have been taken off their queue. */
  function TakenUp(a: Account, messages: seq<Message>, steering: seq<Message>, followUps: seq<Message>): Account {
    if messages == [] || !messages[|messages| - 1].Assistant? then a
    else if steering != [] then a.(steeringTaken := a.steeringTaken + steering)
    else a.(followUpsTaken := a.followUpsTaken + followUps)
  }

  /**
   * `continue()`: after an assistant message, queued steering messages are the prompts, or else queued
   * follow-ups; drained here, they are not asked for again by the run.
   */
  method Continue(agent: Agent, script: seq<Turn>, first: Arrivals)
    returns (refused: Option<Refusal>, ended: bool, ghost record: Record)
    requires agent.Conserves() && (agent.Idle() || agent.activeRun)
    requires forall t :: 0 <= t < |script| ==> LegalTurn(script[t])
    modifies agent, agent.steeringQueue`messages, agent.followUpQueue`messages
    ensures agent.Conserves()
    ensures refused == (
      if old(agent.activeRun) then Some(AlreadyProcessing)
      else if old(agent.messages) == [] then Some(NoMessages)
      else if old(agent.messages)[|old(agent.messages)| - 1].Assistant?
        && old(agent.steeringQueue.messages) == [] && old(agent.followUpQueue.messages) == [] then Some(LastIsAssistant)
      else None)
    ensures refused.Some? ==>
      unchanged(agent) && unchanged(agent.steeringQueue) && unchanged(agent.followUpQueue)
    ensures refused.None? ==>
      var steering := Taken(agent.steeringQueue.mode, old(agent.steeringQueue.messages));
      var followUps := Taken(agent.followUpQueue.mode, old(agent.followUpQueue.messages));
      && GoodRun(record, old(agent.messages), agent.messages, script, ended)
      && (if ended then agent.Idle() else agent.activeRun)
      && record.prompts == Resumed(old(agent.messages), steering, followUps)
      && agent.AccountNow() ==
         AfterSteps(TakenUp(old(agent.AccountNow()), old(agent.messages), steering, followUps), first, record.steps)
  {
    hide LegalTurn, GoodRun, AfterSteps, Taken;
    refused, ended, record := None, false, Record([], [], [], [], []);
    if agent.activeRun { return Some(AlreadyProcessing), false, record; }
    if agent.messages == [] { return Some(NoMessages), false, record; }
    var queued, skip := [], false;
    if agent.messages[|agent.messages| - 1].Assistant? {
      queued, skip := TakeQueued(agent);
      if |queued| == 0 { return Some(LastIsAssistant), false, record; }
    }
    ended, record := RunPromptMessages(agent, queued, script, first, skip);
  }

  /** Queued steering messages, or else queued follow-ups; the former leave out the run's first poll. */
  method TakeQueued(agent: Agent) returns (queued: seq<Message>, skip: bool)
    requires agent.Conserves() && agent.Idle()
    modifies agent`steeringHeld, agent`followUpsHeld, agent.steeringQueue`messages, agent.followUpQueue`messages
    ensures agent.Conserves() && queued == agent.steeringHeld + agent.followUpsHeld
    ensures agent.steeringHeld == [] || agent.followUpsHeld == []
    ensures var steering := Taken(agent.steeringQueue.mode, old(agent.steeringQueue.messages));
      var followUps := Taken(agent.followUpQueue.mode, old(agent.followUpQueue.messages));
      var was := old(agent.AccountNow());
      && skip == (steering != []) && queued == (if skip then steering else followUps)
      && agent.AccountNow() == if skip then was.(steeringTaken := was.steeringTaken + steering)
                               else was.(followUpsTaken := was.followUpsTaken + followUps)
    ensures queued == [] <==> old(agent.steeringQueue.messages) == [] && old(agent.followUpQueue.messages) == []
    ensures queued == [] ==> agent.steeringQueue.messages == [] && agent.followUpQueue.messages == []
  {
    ghost var was := agent.AccountNow();
    assert was.steeringTaken == agent.steeringDelivered + [] && was.followUpsTaken == agent.followUpsDelivered + [];
    queued := agent.DrainSteering();
    skip := |queued| > 0;
    if !skip { queued := agent.DrainFollowUps(); }
  }

  /**
   * What a good run means. At the end of every turn the loop's context, its list of new messages and the
   * agent's transcript agree; `agent_end` carries all new messages, with nothing pending; and that list
   * is, at every moment, what the `message_end` events so far have announced.
   */
  lemma GoodRunMeans(r: Record, before: seq<Message>, after: seq<Message>, script: seq<Turn>, ended: bool, k: nat)
    requires GoodRun(r, before, after, script, ended) && k < |r.events|
    ensures k < |r.moments|
    ensures var m := r.moments[k]; var so_far := Ended(r.events[..k + 1]);
      && m.event == r.events[k]
      && m.agentMessages == before + so_far
      && (m.event.MessageStart? || m.event.MessageUpdate? ==> m.streaming == Some(m.event.message))
      && (m.event.TurnEnd? ==> m.newMessages == so_far && m.context == before + so_far)
      && (m.event.AgentEnd? ==> m.event.messages == so_far && m.pending == [])
  {
    hide GoodHistory, Trail, Turns, Transcript;
    HistoryAt(r.events, r.moments, before, k);
    HistoryLength(r.events, r.moments, before);
  }

  lemma HistoryLength(events: seq<Event>, moments: seq<Moment>, initial: seq<Message>)
    requires GoodHistory(events, moments, initial)
    ensures |events| == |moments|
  {
  }

  /**
   * In a good run nothing drained is lost, repeated or reordered: the prompts and, turn by turn, what was
   * injected are all the transcript gains besides replies and tool results, and what was injected is what
   * was drained from the queues, all of it once the run has ended.
   */
  lemma NothingDrainedIsLost(r: Record, before: seq<Message>, after: seq<Message>, script: seq<Turn>, ended: bool)
    requires GoodRun(r, before, after, script, ended)
    ensures after == before + r.prompts + Transcript(r.steps)
    ensures Drained(r.steps) == Injected(r.steps) + Waiting(Trail(r.steps))
    ensures ended ==> Drained(r.steps) == Injected(r.steps)
  {
    hide GoodHistory, Turns, Transcript, Follow;
    DrainedIsInjected(r.steps);
    assert before + (r.prompts + Transcript(r.steps)) == before + r.prompts + Transcript(r.steps);
  }
}

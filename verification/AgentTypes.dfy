/** Messages, tool calls and lifecycle events of the agent. Contents are opaque numbers. */
module AgentTypes {

  datatype StopReason = EndTurn | ToolUse | Length | Error | Aborted

  datatype Message =
    | User(id: nat)
    | Assistant(id: nat, stopReason: StopReason, calls: seq<Call>)
    | ToolResult(call: Call, content: nat, isError: bool)

  /** A finalized result, after any hook has had its say. */
  datatype Outcome = Outcome(content: nat, isError: bool, terminate: bool)

  /**
   * What will happen to a call: its tool is missing; its arguments are rejected; a hook blocks it; or it
   * runs, reporting some partial results and then its outcome.
   */
  datatype Call =
    | Missing(name: string)
    | Rejected(name: string, error: nat)
    | Blocked(name: string, reason: nat)
    | Runs(name: string, partials: seq<nat>, outcome: Outcome)

  datatype Event =
    | AgentStart
    | TurnStart
    | MessageStart(message: Message)
    | MessageUpdate(message: Message)
    | MessageEnd(message: Message)
    | ToolStart(index: nat, call: Call)
    | ToolUpdate(index: nat, partial: nat)
    | ToolEnd(index: nat, outcome: Outcome)
    | TurnEnd(message: Message, results: seq<Message>)
    | AgentEnd(messages: seq<Message>)

  /** The payloads of the `message_end` events, in order. */
  function Ended(events: seq<Event>): seq<Message> {
    if events == [] then []
    else
      var rest := Ended(events[..|events| - 1]);
      var last := events[|events| - 1];
      if last.MessageEnd? then rest + [last.message] else rest
  }

  lemma EndedSnoc(events: seq<Event>, e: Event)
    ensures Ended(events + [e]) == Ended(events) + if e.MessageEnd? then [e.message] else []
  {
    assert (events + [e])[..|events|] == events;
  }

  lemma {:induction false} EndedConcat(a: seq<Event>, b: seq<Event>)
    ensures Ended(a + b) == Ended(a) + Ended(b)
  {
    if b == [] {
      assert a + b == a;
    } else {
      var front := b[..|b| - 1];
      EndedConcat(a, front);
      assert a + b == (a + front) + [b[|b| - 1]];
      EndedSnoc(a + front, b[|b| - 1]);
      var last: seq<Message> := if b[|b| - 1].MessageEnd? then [b[|b| - 1].message] else [];
      assert Ended(b) == Ended(front) + last;
      assert (Ended(a) + Ended(front)) + last == Ended(a) + Ended(b);
    }
  }

  /* ---------- The event protocol ---------- */

  /**
   * Where a trace stands: whether a run and a turn are open, whether a message is being sent, the tools
   * running, and whether the run has had a turn at all.
   */
  datatype Protocol =
    | NotStarted
    | Open(turn: bool, sending: bool, running: multiset<nat>, begun: bool)
    | Finished
    | Broken

  /** One run: a start, one or more turns that do not overlap, in them messages that do not nest and tools that end, an end. */
  function Advance(p: Protocol, e: Event): Protocol {
    match p
    case NotStarted => if e.AgentStart? then Open(false, false, multiset{}, false) else Broken
    case Finished => Broken
    case Broken => Broken
    case Open(turn, sending, running, begun) =>
      (match e
       case AgentStart => Broken
       case TurnStart => if turn then Broken else p.(turn := true, begun := true)
       case MessageStart(_) => if turn && !sending && running == multiset{} then p.(sending := true) else Broken
       case MessageUpdate(_) => if sending then p else Broken
       case MessageEnd(_) => if sending then p.(sending := false) else Broken
       case ToolStart(i, _) => if turn && !sending && i !in running then p.(running := running + multiset{i}) else Broken
       case ToolUpdate(i, _) => if i in running then p else Broken
       case ToolEnd(i, _) => if i in running then p.(running := running - multiset{i}) else Broken
       case TurnEnd(_, _) => if turn && !sending && running == multiset{} then p.(turn := false) else Broken
       case AgentEnd(_) => if turn || !begun then Broken else Finished)
  }

  function Follow(p: Protocol, events: seq<Event>): Protocol {
    if events == [] then p else Advance(Follow(p, events[..|events| - 1]), events[|events| - 1])
  }

  lemma FollowSnoc(p: Protocol, events: seq<Event>, e: Event)
    ensures Follow(p, events + [e]) == Advance(Follow(p, events), e)
  {
    assert (events + [e])[..|events|] == events;
  }

  lemma {:induction false} FollowConcat(p: Protocol, a: seq<Event>, b: seq<Event>)
    ensures Follow(p, a + b) == Follow(Follow(p, a), b)
  {
    hide Advance;
    if b == [] {
      assert a + b == a;
    } else {
      var front := b[..|b| - 1];
      FollowConcat(p, a, front);
      assert a + b == (a + front) + [b[|b| - 1]];
      FollowSnoc(p, a + front, b[|b| - 1]);
      assert Follow(p, a + b) == Advance(Follow(p, a + front), b[|b| - 1]);
    }
  }
}

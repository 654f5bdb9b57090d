/** The events of a run, all of them, as a function of its prompts and the steps it takes. */
module EventTrace {
  import opened AgentTypes
  import opened ToolBatch
  import opened ToolBatchProofs
  import opened RunTrace

  function SendMessages(ms: seq<Message>): seq<Event> {
    if ms == [] then [] else SendMessages(ms[..|ms| - 1]) + SendMessage(ms[|ms| - 1])
  }

  lemma SendNone(before: seq<Event>)
    ensures before + SendMessages([]) == before
  {
  }

  lemma SendSnoc(ms: seq<Message>, i: nat)
    requires i < |ms|
    ensures SendMessages(ms[..i + 1]) == SendMessages(ms[..i]) + SendMessage(ms[i])
  {
    assert ms[..i + 1][..i] == ms[..i];
  }

  /* ---------- A reply ---------- */

  predicate Started(stream: seq<StreamEvent>, n: nat)
    requires n <= |stream|
  {
    exists k :: 0 <= k < n && stream[k].Start?
  }

  /** What the first `n` stream events are passed on as: nothing before the message has started. */
  function Streaming(stream: seq<StreamEvent>, n: nat): seq<Event>
    requires n <= |stream|
  {
    if n == 0 then []
    else
      Streaming(stream, n - 1) +
      match stream[n - 1]
      case Start(partial) => [MessageStart(partial)]
      case Delta(partial) => if Started(stream, n - 1) then [MessageUpdate(partial)] else []
      case Finish => []
  }

  /** A reply is announced as it streams, or else when it is complete, and then ended. */
  function StreamEvents(stream: seq<StreamEvent>, reply: Message): seq<Event> {
    var n := StreamEnd(stream, 0);
    Streaming(stream, n) + (if Started(stream, n) then [] else [MessageStart(reply)]) + [MessageEnd(reply)]
  }

  /* ---------- A turn, and a run ---------- */

  /** What the executor of a turn does with the calls of its reply. */
  function BatchOf(t: Turn): Batch {
    match t.executor
    case OneByOne => Sequential(Calls(t), t.abortAt, |Calls(t)|)
    case Concurrent(schedule) => Parallel(Calls(t), t.abortAt, schedule)
  }

  function BatchEvents(t: Turn): seq<Event> {
    if Fails(t) || Calls(t) == [] then [] else BatchOf(t).events
  }

  /** A turn up to its reply; the first one has been opened for the prompts. */
  function HeadEvents(t: Turn, injected: seq<Message>, firstTurn: bool): seq<Event> {
    (if firstTurn then [] else [TurnStart]) + SendMessages(injected) + StreamEvents(t.stream, t.reply)
  }

  function TurnEvents(t: Turn, injected: seq<Message>, firstTurn: bool): seq<Event> {
    HeadEvents(t, injected, firstTurn) + BatchEvents(t) + [TurnEnd(t.reply, Results(t))]
  }

  function StepsEvents(steps: seq<Step>): seq<Event> {
    if steps == [] then []
    else
      var n := |steps| - 1;
      StepsEvents(steps[..n]) +
      match steps[n]
      case Took(turn, injected) => TurnEvents(turn, injected, Turns(steps[..n]) == [])
      case _ => []
  }

  /** Everything up to the last step, the `agent_end` of a run that is over excepted. */
  function RunEvents(prompts: seq<Message>, steps: seq<Step>): seq<Event> {
    [AgentStart, TurnStart] + SendMessages(prompts) + StepsEvents(steps)
  }

  lemma AskedShowsNothing(prompts: seq<Message>, steps: seq<Step>, s: Step)
    requires !s.Took?
    ensures RunEvents(prompts, steps + [s]) == RunEvents(prompts, steps)
  {
    assert (steps + [s])[..|steps|] == steps;
  }

  lemma TookShows(prompts: seq<Message>, steps: seq<Step>, turn: Turn, injected: seq<Message>)
    ensures RunEvents(prompts, steps + [Took(turn, injected)]) ==
      RunEvents(prompts, steps) + TurnEvents(turn, injected, Turns(steps) == [])
  {
    hide TurnEvents, Turns;
    assert (steps + [Took(turn, injected)])[..|steps|] == steps;
    var opening := [AgentStart, TurnStart] + SendMessages(prompts);
    assert opening + (StepsEvents(steps) + TurnEvents(turn, injected, Turns(steps) == []))
      == opening + StepsEvents(steps) + TurnEvents(turn, injected, Turns(steps) == []);
  }

  /* ---------- Streams and the protocol ---------- */

  /** Where the protocol stands after a start: under way, or broken by a second one. */
  function AfterStarts(once: bool, started: bool): Protocol {
    if once then IN_TURN.(sending := started) else Broken
  }

  lemma {:induction false} StreamingFollows(stream: seq<StreamEvent>, n: nat)
    requires n <= |stream|
    ensures Follow(IN_TURN, Streaming(stream, n)) == AfterStarts(StartsOnce(stream[..n]), Started(stream, n))
  {
    hide Started, StartsOnce, Follow;
    if n > 0 {
      var before := Streaming(stream, n - 1);
      StreamingFollows(stream, n - 1);
      StartsSnoc(stream, n - 1);
      FollowMore(before, stream[n - 1], Started(stream, n - 1));
    } else {
      NoStart(stream);
    }
  }

  lemma FollowMore(before: seq<Event>, e: StreamEvent, started: bool)
    ensures var p := Follow(IN_TURN, before);
      && (e.Start? ==> Follow(IN_TURN, before + [MessageStart(e.partial)]) == Advance(p, MessageStart(e.partial)))
      && (e.Delta? ==> Follow(IN_TURN, before + [MessageUpdate(e.partial)]) == Advance(p, MessageUpdate(e.partial)))
      && before + [] == before
  {
    hide Follow, Advance;
    if e.Start? { FollowSnoc(IN_TURN, before, MessageStart(e.partial)); }
    if e.Delta? { FollowSnoc(IN_TURN, before, MessageUpdate(e.partial)); }
  }

  lemma NoStart(stream: seq<StreamEvent>)
    ensures !Started(stream, 0) && StartsOnce(stream[..0]) && Follow(IN_TURN, Streaming(stream, 0)) == IN_TURN
  {
  }

  lemma StartsSnoc(stream: seq<StreamEvent>, n: nat)
    requires n < |stream|
    ensures Started(stream, n + 1) <==> Started(stream, n) || stream[n].Start?
    ensures StartsOnce(stream[..n + 1]) <==> StartsOnce(stream[..n]) && !(Started(stream, n) && stream[n].Start?)
  {
    var (a, b) := (stream[..n], stream[..n + 1]);
    assert forall i :: 0 <= i < n ==> b[i] == a[i] == stream[i];
    assert b[n] == stream[n];
  }

  /** Within the part of a stream that starts at most once, nothing starts after a start. */
  lemma StartedOnce(stream: seq<StreamEvent>, i: nat, n: nat)
    requires i < n <= |stream| && StartsOnce(stream[..n])
    ensures Started(stream, i + 1) <==> Started(stream, i) || stream[i].Start?
    ensures Started(stream, i) ==> !stream[i].Start?
  {
    StartsSnoc(stream, i);
    if Started(stream, i) {
      var k :| 0 <= k < i && stream[k].Start?;
      assert stream[..n][k] == stream[k] && stream[..n][i] == stream[i];
    }
  }

  /** A reply keeps the event protocol if and only if its stream starts at most once before it finishes. */
  lemma StreamKeepsProtocol(stream: seq<StreamEvent>, reply: Message)
    ensures Follow(IN_TURN, StreamEvents(stream, reply)) == IN_TURN <==> StartsOnce(stream[..StreamEnd(stream, 0)])
    ensures Follow(IN_TURN, StreamEvents(stream, reply)) != IN_TURN ==> Follow(IN_TURN, StreamEvents(stream, reply)) == Broken
  {
    hide Started, StartsOnce, Follow, Streaming;
    var n := StreamEnd(stream, 0);
    var shown := Streaming(stream, n);
    StreamingFollows(stream, n);
    var begun := if Started(stream, n) then shown else shown + [MessageStart(reply)];
    FollowSnoc(IN_TURN, shown, MessageStart(reply));
    FollowSnoc(IN_TURN, begun, MessageEnd(reply));
    NotStartedIsOnce(stream, n);
    assert StreamEvents(stream, reply) == begun + [MessageEnd(reply)];
  }

  lemma NotStartedIsOnce(stream: seq<StreamEvent>, n: nat)
    requires n <= |stream|
    ensures !Started(stream, n) ==> StartsOnce(stream[..n])
  {
  }
}

/**
 * The decisions of a run: when queues are asked, what is injected before which reply, and when the run
 * ends, as a trace of steps and the rules it must follow.
 */
module RunTrace {
  import opened AgentTypes
  import opened ToolBatch
  import opened ToolBatchProofs

  /* ---------- The script of a run ---------- */

  datatype StreamEvent = Start(partial: Message) | Delta(partial: Message) | Finish

  datatype Arrivals = Arrivals(steering: seq<Message>, followUps: seq<Message>)

  datatype Executor = OneByOne | Concurrent(schedule: seq<nat>)

  /** One reply of the model, the execution of its tool calls, and what arrives before the polls after it. */
  datatype Turn = Turn(
    stream: seq<StreamEvent>,
    reply: Message,
    executor: Executor,
    abortAt: nat,
    stopAfter: bool,
    beforeSteering: Arrivals,
    beforeFollowUps: Arrivals)

  /** A provider starts its message at most once. */
  predicate StartsOnce(stream: seq<StreamEvent>) {
    forall i, j :: 0 <= i < j < |stream| && stream[i].Start? ==> !stream[j].Start?
  }

  /** Where the stream is over: at its first `Finish`, or at its end. */
  function StreamEnd(stream: seq<StreamEvent>, i: nat): (n: nat)
    requires i <= |stream|
    ensures i <= n <= |stream| && (n < |stream| ==> stream[n].Finish?)
    ensures forall k :: i <= k < n ==> !stream[k].Finish?
    decreases |stream| - i
  {
    if i < |stream| && !stream[i].Finish? then StreamEnd(stream, i + 1) else i
  }

  predicate LegalTurn(t: Turn) {
    && t.reply.Assistant?
    && StartsOnce(t.stream[..StreamEnd(t.stream, 0)])
    && (t.executor.Concurrent? ==> Complete(t.reply.calls, t.abortAt, t.executor.schedule))
  }

  predicate Fails(t: Turn) {
    t.reply.Assistant? && (t.reply.stopReason == Error || t.reply.stopReason == Aborted)
  }

  function Calls(t: Turn): seq<Call> {
    if t.reply.Assistant? then t.reply.calls else []
  }

  function TurnOutcomes(t: Turn): (outcomes: seq<Outcome>)
    ensures |outcomes| <= |Calls(t)|
  {
    SequentialCount(Calls(t), t.abortAt, |Calls(t)|);
    Sequential(Calls(t), t.abortAt, |Calls(t)|).outcomes
  }

  /** The results of a reply's tool calls; a reply that fails has none executed. */
  function Results(t: Turn): seq<Message> {
    if Fails(t) then [] else ResultMessages(Calls(t), TurnOutcomes(t))
  }

  /** Whether the model has to be asked again because of its tool calls. */
  predicate ToolsLeft(t: Turn) {
    !Fails(t) && Calls(t) != [] && !ShouldTerminate(TurnOutcomes(t))
  }

  /** Whether the run ends with this turn, whatever is queued. */
  predicate Ends(t: Turn) {
    Fails(t) || t.stopAfter
  }

  /* ---------- Steps and rules ---------- */

  datatype Step =
    | AskedSteering(drained: seq<Message>)
    | AskedFollowUps(drained: seq<Message>)
    | Took(turn: Turn, injected: seq<Message>)

  /** Where a run stands: what the next turn must inject, and whether tool calls ask for one. */
  datatype Control =
    | AtStart
    | Ready(pending: seq<Message>, toolsLeft: bool)
    | Turned(toolsLeft: bool)
    | Done
    | Astray

  /**
   * A turn is taken exactly when tool calls are left or messages are pending, and injects all of those.
   * Otherwise the follow-up queue is asked, and the run ends if it is empty.
   */
  function Move(c: Control, s: Step): Control {
    match c
    case AtStart => if s.AskedSteering? then Ready(s.drained, true) else Astray
    case Ready(pending, toolsLeft) =>
      if toolsLeft || pending != [] then
        if !s.Took? || s.injected != pending then Astray
        else if Ends(s.turn) then Done
        else Turned(ToolsLeft(s.turn))
      else if !s.AskedFollowUps? then Astray
      else if s.drained == [] then Done
      else Ready(s.drained, true)
    case Turned(toolsLeft) => if s.AskedSteering? then Ready(s.drained, toolsLeft) else Astray
    case Done => Astray
    case Astray => Astray
  }

  function Trail(steps: seq<Step>): Control {
    if steps == [] then AtStart else Move(Trail(steps[..|steps| - 1]), steps[|steps| - 1])
  }

  /** What a step adds to the transcript. */
  function Said(s: Step): seq<Message> {
    if s.Took? then s.injected + [s.turn.reply] + Results(s.turn) else []
  }

  function Transcript(steps: seq<Step>): seq<Message> {
    if steps == [] then [] else Transcript(steps[..|steps| - 1]) + Said(steps[|steps| - 1])
  }

  function Turns(steps: seq<Step>): seq<Turn> {
    if steps == [] then []
    else
      var last := steps[|steps| - 1];
      Turns(steps[..|steps| - 1]) + if last.Took? then [last.turn] else []
  }

  function SteeringDrained(steps: seq<Step>): seq<Message> {
    if steps == [] then []
    else
      var last := steps[|steps| - 1];
      SteeringDrained(steps[..|steps| - 1]) + if last.AskedSteering? then last.drained else []
  }

  function FollowUpsDrained(steps: seq<Step>): seq<Message> {
    if steps == [] then []
    else
      var last := steps[|steps| - 1];
      FollowUpsDrained(steps[..|steps| - 1]) + if last.AskedFollowUps? then last.drained else []
  }

  const NOBODY := Arrivals([], [])

  /** The messages passed in just before a step, after the turns `taken`: none but before a poll. */
  function Arriving(first: Arrivals, taken: seq<Turn>, s: Step): Arrivals {
    if s.Took? then NOBODY
    else if taken == [] then if s.AskedSteering? then first else NOBODY
    else if s.AskedSteering? then taken[|taken| - 1].beforeSteering
    else taken[|taken| - 1].beforeFollowUps
  }

  /** All messages passed in during a run so far, when `first` come before its first poll. */
  function Passed(first: Arrivals, steps: seq<Step>): Arrivals {
    if steps == [] then NOBODY
    else
      var n := |steps| - 1;
      var (before, now) := (Passed(first, steps[..n]), Arriving(first, Turns(steps[..n]), steps[n]));
      Arrivals(before.steering + now.steering, before.followUps + now.followUps)
  }

  lemma PassedSnoc(first: Arrivals, steps: seq<Step>, s: Step)
    ensures var (before, now) := (Passed(first, steps), Arriving(first, Turns(steps), s));
      Passed(first, steps + [s]) == Arrivals(before.steering + now.steering, before.followUps + now.followUps)
  {
    hide Arriving, Turns;
    assert (steps + [s])[..|steps|] == steps;
  }

  /** Everything drained from either queue, in the order it was. */
  function Drained(steps: seq<Step>): seq<Message> {
    if steps == [] then []
    else
      var last := steps[|steps| - 1];
      Drained(steps[..|steps| - 1]) + if last.Took? then [] else last.drained
  }

  /** Everything injected into the transcript, in order. */
  function Injected(steps: seq<Step>): seq<Message> {
    if steps == [] then []
    else
      var last := steps[|steps| - 1];
      Injected(steps[..|steps| - 1]) + if last.Took? then last.injected else []
  }

  function Waiting(c: Control): seq<Message> {
    if c.Ready? then c.pending else []
  }

  lemma StepsSnoc(steps: seq<Step>, s: Step)
    ensures var t := steps + [s];
      && Trail(t) == Move(Trail(steps), s)
      && Transcript(t) == Transcript(steps) + Said(s)
      && Turns(t) == Turns(steps) + (if s.Took? then [s.turn] else [])
      && SteeringDrained(t) == SteeringDrained(steps) + (if s.AskedSteering? then s.drained else [])
      && FollowUpsDrained(t) == FollowUpsDrained(steps) + (if s.AskedFollowUps? then s.drained else [])
  {
    hide Move, Said;
    assert (steps + [s])[..|steps|] == steps;
  }

  /** Asking a queue adds to what was drained from it, and to nothing else. */
  lemma AskedSnoc(steps: seq<Step>, s: Step)
    requires !s.Took?
    ensures var t := steps + [s];
      && Trail(t) == Move(Trail(steps), s)
      && Transcript(t) == Transcript(steps) && Turns(t) == Turns(steps)
      && SteeringDrained(t) == SteeringDrained(steps) + (if s.AskedSteering? then s.drained else [])
      && FollowUpsDrained(t) == FollowUpsDrained(steps) + (if s.AskedSteering? then [] else s.drained)
  {
    hide Move, Trail, Transcript, Turns, SteeringDrained, FollowUpsDrained;
    StepsSnoc(steps, s);
    assert Transcript(steps) + [] == Transcript(steps);
    assert Turns(steps) + [] == Turns(steps);
  }

  /** Taking a turn drains nothing. */
  lemma TookSnoc(steps: seq<Step>, turn: Turn, injected: seq<Message>)
    ensures var t := steps + [Took(turn, injected)];
      && Trail(t) == Move(Trail(steps), Took(turn, injected))
      && Transcript(t) == Transcript(steps) + Said(Took(turn, injected)) && Turns(t) == Turns(steps) + [turn]
      && SteeringDrained(t) == SteeringDrained(steps) && FollowUpsDrained(t) == FollowUpsDrained(steps)
  {
    hide Move, Trail, Transcript, Turns, SteeringDrained, FollowUpsDrained, Said;
    StepsSnoc(steps, Took(turn, injected));
    assert SteeringDrained(steps) + [] == SteeringDrained(steps);
    assert FollowUpsDrained(steps) + [] == FollowUpsDrained(steps);
  }

  /* ---------- What a turn decides ---------- */

  /** The model is asked again because of its tools exactly if some executed call does not ask to terminate. */
  lemma ToolsLeftMeans(t: Turn)
    requires t.reply.Assistant? && t.reply.stopReason != Error && t.reply.stopReason != Aborted
    ensures ToolsLeft(t) <==>
      t.reply.calls != [] && exists i :: 0 <= i < |TurnOutcomes(t)| && !TurnOutcomes(t)[i].terminate
    ensures t.reply.calls != [] ==> TurnOutcomes(t) != []
  {
    SequentialCount(Calls(t), t.abortAt, |Calls(t)|);
  }

  /** A reply that failed or was aborted has no tool executed, and ends the run. */
  lemma FailureEnds(t: Turn)
    requires t.reply.Assistant? && (t.reply.stopReason == Error || t.reply.stopReason == Aborted)
    ensures !ToolsLeft(t) && Results(t) == [] && Ends(t)
  {
  }

  /** Otherwise every executed call has its result, in the order of the calls. */
  lemma ResultsMean(t: Turn)
    requires t.reply.Assistant? && t.reply.stopReason != Error && t.reply.stopReason != Aborted
    ensures |Results(t)| == |TurnOutcomes(t)| <= |t.reply.calls|
    ensures forall i :: 0 <= i < |Results(t)| ==>
      var o := TurnOutcomes(t)[i];
      Results(t)[i] == ToolResult(t.reply.calls[i], o.content, o.isError)
  {
    hide Sequential;
  }

  /* ---------- What following the rules means ---------- */

  /** Whatever was drained has been injected, in the order it was drained and once, but for what is pending. */
  lemma {:induction false} DrainedIsInjected(steps: seq<Step>)
    requires Trail(steps) != Astray
    ensures Drained(steps) == Injected(steps) + Waiting(Trail(steps))
  {
    hide ToolsLeft, Ends;
    if steps != [] { DrainedIsInjected(steps[..|steps| - 1]); }
  }

  lemma {:induction false} PrefixFollows(steps: seq<Step>, k: nat)
    requires Trail(steps) != Astray && k <= |steps|
    ensures Trail(steps[..k]) != Astray
    ensures k < |steps| ==> Trail(steps[..k + 1]) == Move(Trail(steps[..k]), steps[k]) != Astray
    decreases |steps| - k
  {
    hide ToolsLeft, Ends;
    if k < |steps| {
      assert steps[..k + 1][..k] == steps[..k];
      PrefixFollows(steps, k + 1);
    } else {
      assert steps[..k] == steps;
    }
  }

  /** Follow-ups are asked for only right after a steering poll found nothing, and with no tool calls left. */
  lemma FollowUpsComeLast(steps: seq<Step>, k: nat)
    requires Trail(steps) != Astray && k < |steps| && steps[k].AskedFollowUps?
    ensures k >= 2 && steps[k - 1] == AskedSteering([]) && steps[k - 2].Took? && !ToolsLeft(steps[k - 2].turn)
  {
    hide ToolsLeft, Ends, Trail;
    TrailStart();
    assert steps[..0] == [];
    PrefixFollows(steps, k);
    if k >= 1 { PrefixFollows(steps, k - 1); }
    if k >= 2 { PrefixFollows(steps, k - 2); }
  }

  lemma TrailStart()
    ensures Trail([]) == AtStart
  {
  }

  /** While tool calls are left, the model is asked again, whatever the steering queue holds. */
  lemma ToolCallsAreFollowed(steps: seq<Step>, k: nat)
    requires Trail(steps) != Astray && k + 1 < |steps| && steps[k].Took? && ToolsLeft(steps[k].turn)
    ensures steps[k + 1].AskedSteering? && (k + 2 < |steps| ==> steps[k + 2].Took?)
    ensures k + 2 == |steps| ==> Trail(steps) == Ready(steps[k + 1].drained, true)
  {
    hide ToolsLeft, Ends, Trail;
    PrefixFollows(steps, k);
    PrefixFollows(steps, k + 1);
    if k + 2 < |steps| { PrefixFollows(steps, k + 2); } else { assert steps[..k + 2] == steps; }
  }

  /** A run ends because a reply fails or the stop hook asks for it, or with no tool calls left and both queues found empty. */
  lemma EndsForAReason(steps: seq<Step>)
    requires Trail(steps) == Done
    ensures var n := |steps|;
      || (n >= 1 && steps[n - 1].Took? && Ends(steps[n - 1].turn))
      || (n >= 3 && steps[n - 1] == AskedFollowUps([]) && steps[n - 2] == AskedSteering([])
          && steps[n - 3].Took? && !ToolsLeft(steps[n - 3].turn))
  {
    hide ToolsLeft, Ends;
    var n := |steps|;
    if steps[n - 1].AskedFollowUps? { FollowUpsComeLast(steps, n - 1); }
  }
}

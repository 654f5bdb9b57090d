/**
 * Executing the tool calls of one assistant message, one at a time or concurrently. In a concurrent batch
 * the calls are prepared in order, then run in whatever interleaving the scheduler picks.
 */
module ToolBatch {
  import opened AgentTypes

  const NOT_FOUND: nat := 0
  const ABORTED: nat := 1

  function ErrorOutcome(content: nat): Outcome {
    Outcome(content, true, false)
  }

  datatype Preparation = Immediate(outcome: Outcome) | Prepared(partials: seq<nat>, outcome: Outcome)

  /** A missing tool or rejected arguments are reported before the abort signal is looked at. */
  function Prepare(call: Call, aborted: bool): Preparation {
    match call
    case Missing(_) => Immediate(ErrorOutcome(NOT_FOUND))
    case Rejected(_, error) => Immediate(ErrorOutcome(error))
    case Blocked(_, reason) => Immediate(ErrorOutcome(if aborted then ABORTED else reason))
    case Runs(_, partials, outcome) =>
      if aborted then Immediate(ErrorOutcome(ABORTED)) else Prepared(partials, outcome)
  }

  function ResultMessage(call: Call, outcome: Outcome): Message {
    ToolResult(call, outcome.content, outcome.isError)
  }

  function ResultMessages(calls: seq<Call>, outcomes: seq<Outcome>): (ms: seq<Message>)
    requires |outcomes| <= |calls|
    ensures |ms| == |outcomes|
  {
    seq(|outcomes|, i requires 0 <= i < |outcomes| => ResultMessage(calls[i], outcomes[i]))
  }

  /** The batch ends the tool loop only if every result asks for it. */
  predicate ShouldTerminate(outcomes: seq<Outcome>) {
    outcomes != [] && forall i :: 0 <= i < |outcomes| ==> outcomes[i].terminate
  }

  function Updates(index: nat, partials: seq<nat>): (es: seq<Event>)
    ensures |es| == |partials|
  {
    seq(|partials|, k requires 0 <= k < |partials| => ToolUpdate(index, partials[k]))
  }

  function SendMessage(m: Message): seq<Event> {
    [MessageStart(m), MessageEnd(m)]
  }

  /** `outcomes` are the finalized results, in the order of the calls. */
  datatype Batch = Batch(events: seq<Event>, outcomes: seq<Outcome>)

  /**
   * When the run is aborted, counted in looks at the signal: preparing call `i` looks at time `2 i`, and
   * the executor looks at time `2 i + 1` to decide whether to go on.
   */
  predicate IsAborted(abortAt: nat, time: nat) {
    abortAt <= time
  }

  /* ---------- One at a time ---------- */

  function Execute(calls: seq<Call>, i: nat, abortAt: nat): Preparation
    requires i < |calls|
  {
    Prepare(calls[i], IsAborted(abortAt, 2 * i))
  }

  function Partials(p: Preparation): seq<nat> {
    if p.Prepared? then p.partials else []
  }

  /** The batch after `n` calls. */
  function Sequential(calls: seq<Call>, abortAt: nat, n: nat): Batch
    requires n <= |calls|
  {
    if n == 0 then Batch([], [])
    else
      var b := Sequential(calls, abortAt, n - 1);
      var i := n - 1;
      if i > 0 && IsAborted(abortAt, 2 * i - 1) then b
      else
        var p := Execute(calls, i, abortAt);
        Batch(
          b.events + [ToolStart(i, calls[i])] + Updates(i, Partials(p)) + [ToolEnd(i, p.outcome)]
          + SendMessage(ResultMessage(calls[i], p.outcome)),
          b.outcomes + [p.outcome])
  }

  /* ---------- Concurrently ---------- */

  /** A call that has been prepared: decided at once, or running with some partial results still to report. */
  datatype Entry = Decided(outcome: Outcome) | Running(left: seq<nat>, outcome: Outcome)

  datatype Preparing = Preparing(events: seq<Event>, entries: seq<Entry>)

  /** The first phase, after `n` calls. */
  function PrepareAll(calls: seq<Call>, abortAt: nat, n: nat): Preparing
    requires n <= |calls|
  {
    if n == 0 then Preparing([], [])
    else
      var b := PrepareAll(calls, abortAt, n - 1);
      var i := n - 1;
      if i > 0 && IsAborted(abortAt, 2 * i - 1) then b
      else
        match Execute(calls, i, abortAt)
        case Immediate(outcome) =>
          Preparing(b.events + [ToolStart(i, calls[i])] + [ToolEnd(i, outcome)], b.entries + [Decided(outcome)])
        case Prepared(partials, outcome) =>
          Preparing(b.events + [ToolStart(i, calls[i])], b.entries + [Running(partials, outcome)])
  }

  predicate AllDecided(entries: seq<Entry>) {
    forall i :: 0 <= i < |entries| ==> entries[i].Decided?
  }

  /** The running call `i` reports its next partial result, or ends. */
  function Step(s: Preparing, i: nat): Preparing {
    if i >= |s.entries| || s.entries[i].Decided? then s
    else
      var e := s.entries[i];
      if e.left == [] then
        Preparing(s.events + [ToolEnd(i, e.outcome)], s.entries[i := Decided(e.outcome)])
      else
        Preparing(s.events + [ToolUpdate(i, e.left[0])], s.entries[i := Running(e.left[1..], e.outcome)])
  }

  /** The second phase: `schedule` says whose turn it is. */
  function Interleave(s: Preparing, schedule: seq<nat>): Preparing {
    if schedule == [] then s
    else Step(Interleave(s, schedule[..|schedule| - 1]), schedule[|schedule| - 1])
  }

  function Outcomes(entries: seq<Entry>): (r: seq<Outcome>)
    ensures |r| == |entries|
    ensures forall i :: 0 <= i < |r| ==> r[i] == entries[i].outcome
  {
    seq(|entries|, i requires 0 <= i < |entries| => entries[i].outcome)
  }

  /** The third phase: the result messages, in the order of the calls. */
  function SendResults(calls: seq<Call>, outcomes: seq<Outcome>, n: nat): seq<Event>
    requires n <= |outcomes| <= |calls|
  {
    if n == 0 then []
    else SendResults(calls, outcomes, n - 1) + SendMessage(ResultMessage(calls[n - 1], outcomes[n - 1]))
  }

  /** A schedule under which every call has ended. */
  predicate Complete(calls: seq<Call>, abortAt: nat, schedule: seq<nat>) {
    AllDecided(Interleave(PrepareAll(calls, abortAt, |calls|), schedule).entries)
  }

  lemma {:induction false} EntriesBound(calls: seq<Call>, abortAt: nat, n: nat)
    requires n <= |calls|
    ensures |PrepareAll(calls, abortAt, n).entries| <= n
  {
    if n > 0 { EntriesBound(calls, abortAt, n - 1); }
  }

  lemma {:induction false} InterleaveKeepsCount(s: Preparing, schedule: seq<nat>)
    ensures |Interleave(s, schedule).entries| == |s.entries|
  {
    if schedule != [] { InterleaveKeepsCount(s, schedule[..|schedule| - 1]); }
  }

  function Parallel(calls: seq<Call>, abortAt: nat, schedule: seq<nat>): (b: Batch)
    ensures |b.outcomes| <= |calls|
  {
    var prepared := PrepareAll(calls, abortAt, |calls|);
    var ran := Interleave(prepared, schedule);
    EntriesBound(calls, abortAt, |calls|);
    InterleaveKeepsCount(prepared, schedule);
    var outcomes := Outcomes(ran.entries);
    Batch(ran.events + SendResults(calls, outcomes, |outcomes|), outcomes)
  }
}

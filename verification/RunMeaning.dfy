/**
 * What the steps and events of a run come to, said step by step and event by event: which steps may follow
 * which, what each adds to the transcript, and what a turn shows.
 */
module RunMeaning {
  import opened AgentTypes
  import opened ToolBatch
  import opened ToolBatchProofs
  import opened RunTrace
  import opened EventTrace

  /* ---------- Which steps may follow which ---------- */

  /** The run is over after step `k`. */
  predicate Last(steps: seq<Step>, k: nat)
    requires k < |steps|
  {
    (steps[k].Took? && Ends(steps[k].turn)) || steps[k] == AskedFollowUps([])
  }

  /** The turn taken right before step `k` left tool calls. */
  predicate CallsBefore(steps: seq<Step>, k: nat)
    requires k <= |steps|
  {
    k > 0 && steps[k - 1].Took? && ToolsLeft(steps[k - 1].turn)
  }

  /**
   * Step `k` is in place. The steering queue is asked first, and after every turn. A turn is taken after a poll,
   * and injects just what that brought: after a steering poll it takes messages, tool calls that the turn before
   * left, or the very beginning. Follow-ups are asked for when a steering poll after a turn leaves neither.
   */
  predicate InPlace(steps: seq<Step>, k: nat)
    requires k < |steps|
  {
    && (k > 0 ==> !Last(steps, k - 1))
    && match steps[k]
      case AskedSteering(_) => k == 0 || steps[k - 1].Took?
      case Took(_, injected) =>
        && k > 0 && !steps[k - 1].Took? && injected == steps[k - 1].drained
        && (steps[k - 1].AskedSteering? ==> injected != [] || k == 1 || CallsBefore(steps, k - 1))
      case AskedFollowUps(_) =>
        k > 1 && steps[k - 1] == AskedSteering([]) && !CallsBefore(steps, k - 1)
  }

  /** Where the rules stand after `n` steps, by the last two of them. */
  ghost predicate Stands(steps: seq<Step>, n: nat, c: Control)
    requires n <= |steps|
  {
    if n == 0 then c == AtStart
    else if Last(steps, n - 1) then c == Done
    else
      match steps[n - 1]
      case AskedSteering(drained) => c == Ready(drained, n == 1 || CallsBefore(steps, n - 1))
      case AskedFollowUps(drained) => c == Ready(drained, true)
      case Took(turn, _) => c == Turned(ToolsLeft(turn))
  }

  lemma SameBefore(steps: seq<Step>, n: nat, k: nat)
    requires n <= |steps|
    ensures k < n ==> (InPlace(steps[..n], k) <==> InPlace(steps, k)) && (Last(steps[..n], k) <==> Last(steps, k))
    ensures k <= n ==> (CallsBefore(steps[..n], k) <==> CallsBefore(steps, k))
  {
    hide Ends, ToolsLeft;
  }

  /** A list of steps follows the rules exactly if every step is in place, and is over exactly at a last one. */
  lemma {:induction false} RulesExactly(steps: seq<Step>)
    ensures Trail(steps) != Astray <==> forall k :: 0 <= k < |steps| ==> InPlace(steps, k)
    ensures Trail(steps) != Astray ==> Stands(steps, |steps|, Trail(steps))
  {
    hide Ends, ToolsLeft, InPlace, Stands, Move;
    if steps == [] {
      NothingStands();
    } else {
      var n := |steps| - 1;
      RulesExactly(steps[..n]);
      forall k | 0 <= k < n ensures InPlace(steps[..n], k) <==> InPlace(steps, k) { SameBefore(steps, n, k); }
      if Trail(steps[..n]) != Astray {
        StandsBefore(steps, n, Trail(steps[..n]));
        OneMoreStep(steps, n, Trail(steps[..n]));
      } else {
        StaysAstray(steps[n]);
      }
    }
  }

  lemma NothingStands()
    ensures Stands([], 0, AtStart)
  {
  }

  lemma StaysAstray(s: Step)
    ensures Move(Astray, s) == Astray
  {
  }

  lemma StandsBefore(steps: seq<Step>, n: nat, c: Control)
    requires n <= |steps| && Stands(steps[..n], n, c)
    ensures Stands(steps, n, c)
  {
    hide Ends, ToolsLeft;
  }

  lemma OneMoreStep(steps: seq<Step>, n: nat, c: Control)
    requires n < |steps| && Stands(steps, n, c) && c != Astray
    requires n > 0 ==> InPlace(steps, n - 1)
    ensures Move(c, steps[n]) != Astray <==> InPlace(steps, n)
    ensures Move(c, steps[n]) != Astray ==> Stands(steps, n + 1, Move(c, steps[n]))
  {
    hide Ends, ToolsLeft;
  }

  /** A turn ends the run when its reply failed or was aborted, or the stop hook asks for it. */
  lemma EndsMean(t: Turn)
    requires t.reply.Assistant?
    ensures Ends(t) <==> t.reply.stopReason == Error || t.reply.stopReason == Aborted || t.stopAfter
  {
  }

  /* ---------- What steps add ---------- */

  /** A turn adds what it injects, its reply and its results to the transcript, in that order; polls add nothing. */
  lemma TranscriptMeans(steps: seq<Step>, t: Turn, injected: seq<Message>, drained: seq<Message>)
    ensures Transcript(steps + [Took(t, injected)]) == Transcript(steps) + injected + [t.reply] + Results(t)
    ensures Transcript(steps + [AskedSteering(drained)]) == Transcript(steps)
    ensures Transcript(steps + [AskedFollowUps(drained)]) == Transcript(steps)
    ensures Turns(steps + [Took(t, injected)]) == Turns(steps) + [t]
  {
    hide Results, Transcript, Turns, Trail, Move;
    TookSnoc(steps, t, injected);
    AskedSnoc(steps, AskedSteering(drained));
    AskedSnoc(steps, AskedFollowUps(drained));
    var before := Transcript(steps);
    assert before + (injected + [t.reply] + Results(t)) == before + injected + [t.reply] + Results(t);
  }

  /**
   * What is passed in during a run: `first` before its first poll, and then what each turn's script has before the
   * steering poll and before the follow-up poll after it.
   */
  lemma PassedMeans(first: Arrivals, steps: seq<Step>, s: Step)
    requires Turns(steps) == [] ==> !s.AskedFollowUps?
    ensures var (before, after) := (Passed(first, steps), Passed(first, steps + [s]));
      var now := if s.Took? then Arrivals([], [])
        else if Turns(steps) == [] then first
        else if s.AskedSteering? then Turns(steps)[|Turns(steps)| - 1].beforeSteering
        else Turns(steps)[|Turns(steps)| - 1].beforeFollowUps;
      after.steering == before.steering + now.steering && after.followUps == before.followUps + now.followUps
  {
    hide Turns, Passed;
    PassedSnoc(first, steps, s);
  }

  /* ---------- The events of a reply ---------- */

  /** The updates of a stream from `i` up to `n`, in order. */
  function UpdatesFrom(stream: seq<StreamEvent>, i: nat, n: nat): seq<Event>
    requires i <= n <= |stream|
    decreases n - i
  {
    if i == n then []
    else UpdateOf(stream[i]) + UpdatesFrom(stream, i + 1, n)
  }

  function UpdateOf(e: StreamEvent): seq<Event> {
    if e.Delta? then [MessageUpdate(e.partial)] else []
  }

  lemma UpdatesCons(stream: seq<StreamEvent>, i: nat, n: nat)
    requires i <= n <= |stream|
    ensures UpdatesFrom(stream, i, n) == if i == n then [] else UpdateOf(stream[i]) + UpdatesFrom(stream, i + 1, n)
  {
  }

  lemma {:induction false} UpdatesSnoc(stream: seq<StreamEvent>, i: nat, n: nat)
    requires i <= n < |stream|
    ensures UpdatesFrom(stream, i, n + 1) == UpdatesFrom(stream, i, n) + UpdateOf(stream[n])
    decreases n - i
  {
    hide UpdatesFrom, UpdateOf;
    UpdatesCons(stream, i, n);
    UpdatesCons(stream, i, n + 1);
    if i < n {
      UpdatesSnoc(stream, i + 1, n);
      var rest := UpdatesFrom(stream, i + 1, n);
      assert UpdateOf(stream[i]) + (rest + UpdateOf(stream[n])) == UpdateOf(stream[i]) + rest + UpdateOf(stream[n]);
    } else {
      UpdatesCons(stream, n + 1, n + 1);
      assert UpdateOf(stream[n]) + [] == [] + UpdateOf(stream[n]);
    }
  }

  lemma {:induction false} StreamingShows(stream: seq<StreamEvent>, k: nat, n: nat)
    requires k <= n <= |stream| && (forall j :: 0 <= j < k ==> !stream[j].Start?)
    requires k < n ==> stream[k].Start?
    requires forall j :: k < j < n ==> !stream[j].Start?
    ensures Streaming(stream, n) ==
      if k < n then [MessageStart(stream[k].partial)] + UpdatesFrom(stream, k + 1, n) else []
    decreases n
  {
    hide UpdatesFrom;
    if n > 0 {
      if k == n {
        StreamingShows(stream, n - 1, n - 1);
      } else if k == n - 1 {
        StreamingShows(stream, k, k);
        NoUpdates(stream, n);
        var start := [MessageStart(stream[k].partial)];
        assert Streaming(stream, k) == [] && [] + start == start + [];
      } else {
        StreamingShows(stream, k, n - 1);
        UpdatesSnoc(stream, k + 1, n - 1);
      }
    }
  }

  lemma NoUpdates(stream: seq<StreamEvent>, n: nat)
    requires n <= |stream|
    ensures UpdatesFrom(stream, n, n) == []
  {
  }

  /**
   * A reply that starts while it streams is announced with its first form, updated with every later one, and ended
   * with the final one; a reply that does not is announced and ended with that. What comes after the stream has
   * finished, and updates before the start, are not shown.
   */
  lemma StreamShows(stream: seq<StreamEvent>, reply: Message, k: nat)
    requires StartsOnce(stream[..StreamEnd(stream, 0)]) && k <= StreamEnd(stream, 0)
    requires forall j :: 0 <= j < k ==> !stream[j].Start?
    requires k < StreamEnd(stream, 0) ==> stream[k].Start?
    ensures var n := StreamEnd(stream, 0);
      StreamEvents(stream, reply) ==
        (if k < n then [MessageStart(stream[k].partial)] + UpdatesFrom(stream, k + 1, n) else [MessageStart(reply)])
        + [MessageEnd(reply)]
  {
    hide UpdatesFrom, Streaming;
    var n := StreamEnd(stream, 0);
    var shown := stream[..n];
    forall j | k < j < n ensures !stream[j].Start? {
      assert shown[k] == stream[k] && shown[j] == stream[j];
    }
    StreamingShows(stream, k, n);
    if k < n { assert Started(stream, n); }
  }

  /* ---------- The events of a turn and of a run ---------- */

  /** Between two turns of a run. */
  const CLOSED := Open(false, false, multiset{}, true)

  lemma {:induction false} SendMessagesMean(ms: seq<Message>, i: nat)
    ensures Follow(IN_TURN, SendMessages(ms)) == IN_TURN
    ensures Ended(SendMessages(ms)) == ms && Of(SendMessages(ms), i) == []
  {
    hide Follow, Ended, Of;
    if ms == [] {
      FollowNone(IN_TURN);
      OfNone([], i);
    } else {
      var (front, m) := (ms[..|ms| - 1], ms[|ms| - 1]);
      SendMessagesMean(front, i);
      FollowConcat(IN_TURN, SendMessages(front), SendMessage(m));
      FollowSend(m);
      EndedConcat(SendMessages(front), SendMessage(m));
      SendEnds(m);
      OfConcat(SendMessages(front), SendMessage(m), i);
      OfNone(SendMessage(m), i);
      assert ms == front + [m];
    }
  }

  lemma StreamMeans(stream: seq<StreamEvent>, reply: Message, i: nat)
    ensures Ended(StreamEvents(stream, reply)) == [reply] && Of(StreamEvents(stream, reply), i) == []
  {
    hide Ended, Of, Started;
    var shown := Streaming(stream, StreamEnd(stream, 0));
    StreamingEndsNothing(stream, StreamEnd(stream, 0));
    var begun := shown + if Started(stream, StreamEnd(stream, 0)) then [] else [MessageStart(reply)];
    assert StreamEvents(stream, reply) == begun + [MessageEnd(reply)];
    EndsNothing(begun);
    EndedSnoc(begun, MessageEnd(reply));
    OfNone(StreamEvents(stream, reply), i);
    assert [] + [reply] == [reply];
  }

  lemma {:induction false} StreamingEndsNothing(stream: seq<StreamEvent>, n: nat)
    requires n <= |stream|
    ensures forall k :: 0 <= k < |Streaming(stream, n)| ==>
      Streaming(stream, n)[k].MessageStart? || Streaming(stream, n)[k].MessageUpdate?
  {
    if n > 0 { StreamingEndsNothing(stream, n - 1); }
  }

  /** The events of call `i` in a turn: its start, its updates and its end if it is executed, and nothing if not. */
  function CallShows(t: Turn, i: nat): seq<Event> {
    if !Fails(t) && i < |TurnOutcomes(t)| then Life(Calls(t)[i], i, Execute(Calls(t), i, t.abortAt)) else []
  }

  /** Either executor keeps the protocol, ends exactly the results, and shows each executed call's whole life. */
  lemma BatchMeans(t: Turn, i: nat)
    requires LegalTurn(t)
    ensures var batch := BatchEvents(t);
      Follow(IN_TURN, batch) == IN_TURN && Ended(batch) == Results(t) && Of(batch, i) == CallShows(t, i)
  {
    hide Follow, Ended, Of, Execute, Life, Sequential, Parallel, Complete;
    var (calls, n) := (Calls(t), |Calls(t)|);
    SequentialProtocol(calls, t.abortAt, n);
    SequentialLives(calls, t.abortAt, n, i);
    if Fails(t) || calls == [] {
      FollowNone(IN_TURN);
      OfNone([], i);
      SequentialCount(calls, t.abortAt, n);
      assert ResultMessages([], []) == [];
    } else if t.executor.Concurrent? {
      ParallelFacts(calls, t.abortAt, t.executor.schedule, i);
      ParallelRefinesSequential(calls, t.abortAt, t.executor.schedule, i);
    }
  }

  lemma HeadMeans(t: Turn, injected: seq<Message>, first: bool, i: nat)
    requires LegalTurn(t)
    ensures var head := HeadEvents(t, injected, first);
      && Follow(if first then IN_TURN else CLOSED, head) == IN_TURN && Ended(head) == injected + [t.reply]
      && Of(head, i) == []
  {
    hide Follow, Ended, Of, Complete, StreamEvents, StartsOnce;
    var opening: seq<Event> := if first then [] else [TurnStart];
    var from := if first then IN_TURN else CLOSED;
    OpeningMeans(first, i);
    SendMessagesMean(injected, i);
    StreamMeans(t.stream, t.reply, i);
    StreamKeepsProtocol(t.stream, t.reply);
    var sent := SendMessages(injected);
    JoinMeans(from, opening, sent, i);
    JoinMeans(from, opening + sent, StreamEvents(t.stream, t.reply), i);
    assert [] + injected == injected;
  }

  lemma OpeningMeans(first: bool, i: nat)
    ensures var opening: seq<Event> := if first then [] else [TurnStart];
      Follow(if first then IN_TURN else CLOSED, opening) == IN_TURN && Ended(opening) == [] && Of(opening, i) == []
  {
    if first { FollowNone(IN_TURN); } else { FollowOne(CLOSED, TurnStart); }
    EndsNothing(if first then [] else [TurnStart]);
    OfNone(if first then [] else [TurnStart], i);
  }

  /** Events one after the other, seen three ways. */
  lemma JoinMeans(p: Protocol, a: seq<Event>, b: seq<Event>, i: nat)
    ensures Follow(p, a + b) == Follow(Follow(p, a), b)
    ensures Ended(a + b) == Ended(a) + Ended(b) && Of(a + b, i) == Of(a, i) + Of(b, i)
  {
    FollowConcat(p, a, b);
    EndedConcat(a, b);
    OfConcat(a, b, i);
  }

  lemma ClosingMeans(t: Turn, i: nat)
    ensures var closing := [TurnEnd(t.reply, Results(t))];
      Follow(IN_TURN, closing) == CLOSED && Ended(closing) == [] && Of(closing, i) == []
  {
    var closing := [TurnEnd(t.reply, Results(t))];
    FollowOne(IN_TURN, closing[0]);
    EndsNothing(closing);
    OfNone(closing, i);
  }

  /**
   * A turn keeps the protocol and closes with its reply and results; it ends what it injects, the reply and the
   * results, in that order; and each executed call shows its whole life in it, the others nothing.
   */
  lemma TurnMeans(t: Turn, injected: seq<Message>, first: bool, i: nat)
    requires LegalTurn(t)
    ensures var es := TurnEvents(t, injected, first);
      && Follow(if first then IN_TURN else CLOSED, es) == CLOSED
      && Ended(es) == injected + [t.reply] + Results(t)
      && Of(es, i) == CallShows(t, i)
      && es != [] && es[|es| - 1] == TurnEnd(t.reply, Results(t))
  {
    hide Follow, Ended, Of, Complete, HeadEvents, BatchEvents, Results, Life, Execute, TurnOutcomes, StartsOnce;
    HeadMeans(t, injected, first, i);
    BatchMeans(t, i);
    ClosingMeans(t, i);
    var (head, batch, closing) := (HeadEvents(t, injected, first), BatchEvents(t), [TurnEnd(t.reply, Results(t))]);
    JoinMeans(if first then IN_TURN else CLOSED, head, batch, i);
    JoinMeans(if first then IN_TURN else CLOSED, head + batch, closing, i);
    assert [] + CallShows(t, i) + [] == CallShows(t, i);
    assert injected + [t.reply] + Results(t) + [] == injected + [t.reply] + Results(t);
  }

  ghost predicate LegalSteps(steps: seq<Step>) {
    forall k :: 0 <= k < |steps| && steps[k].Took? ==> LegalTurn(steps[k].turn)
  }

  lemma {:induction false} StepsMean(steps: seq<Step>)
    requires LegalSteps(steps)
    ensures Follow(IN_TURN, StepsEvents(steps)) == if Turns(steps) == [] then IN_TURN else CLOSED
    ensures Ended(StepsEvents(steps)) == Transcript(steps)
  {
    hide Follow, Ended, LegalTurn, TurnEvents, Results;
    if steps == [] {
      FollowNone(IN_TURN);
    } else {
      var n := |steps| - 1;
      var (before, es) := (steps[..n], StepsEvents(steps[..n]));
      StepsMean(before);
      if steps[n].Took? {
        var (t, injected, first) := (steps[n].turn, steps[n].injected, Turns(before) == []);
        TurnMeans(t, injected, first, 0);
        FollowConcat(IN_TURN, es, TurnEvents(t, injected, first));
        EndedConcat(es, TurnEvents(t, injected, first));
      } else {
        assert es + [] == es && Transcript(before) + [] == Transcript(before) && Turns(before) + [] == Turns(before);
      }
    }
  }

  /**
   * The events of a run keep the protocol, and what they end is the prompts and then the transcript of its steps.
   * With `agent_end` after a turn the run is over.
   */
  lemma RunMeans(prompts: seq<Message>, steps: seq<Step>, messages: seq<Message>)
    requires LegalSteps(steps)
    ensures var es := RunEvents(prompts, steps);
      && Follow(NotStarted, es) == (if Turns(steps) == [] then IN_TURN else CLOSED)
      && Ended(es) == prompts + Transcript(steps)
      && (Turns(steps) != [] ==> Follow(NotStarted, es + [AgentEnd(messages)]) == Finished)
  {
    hide Follow, Ended, StepsEvents, Turns, Transcript, LegalSteps;
    var (opening, sent, rest) := ([AgentStart, TurnStart], SendMessages(prompts), StepsEvents(steps));
    OpenedMeans();
    SendMessagesMean(prompts, 0);
    StepsMean(steps);
    JoinMeans(NotStarted, opening, sent, 0);
    JoinMeans(NotStarted, opening + sent, rest, 0);
    assert [] + prompts == prompts;
    FollowSnoc(NotStarted, RunEvents(prompts, steps), AgentEnd(messages));
  }

  lemma OpenedMeans()
    ensures Follow(NotStarted, [AgentStart, TurnStart]) == IN_TURN && Ended([AgentStart, TurnStart]) == []
  {
    assert [AgentStart, TurnStart] == [AgentStart] + [TurnStart];
    FollowOne(NotStarted, AgentStart);
    FollowSnoc(NotStarted, [AgentStart], TurnStart);
    EndsNothing([AgentStart, TurnStart]);
  }
}

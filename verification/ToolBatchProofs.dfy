/**
 * Running tool calls concurrently refines running them one at a time: whatever the interleaving, the
 * same results in the same order, and for each call the same start, updates and end.
 */
module ToolBatchProofs {
  import opened AgentTypes
  import opened ToolBatch

  /* ---------- The events of one call ---------- */

  predicate IsOf(e: Event, i: nat) {
    match e
    case ToolStart(j, _) => i == j
    case ToolUpdate(j, _) => i == j
    case ToolEnd(j, _) => i == j
    case _ => false
  }

  /** The events of call `i`, in order. */
  function Of(events: seq<Event>, i: nat): seq<Event> {
    if events == [] then []
    else
      var last := events[|events| - 1];
      Of(events[..|events| - 1], i) + if IsOf(last, i) then [last] else []
  }

  /** What a call must show: one start, its updates strictly between, one end. */
  function Life(call: Call, i: nat, p: Preparation): seq<Event> {
    [ToolStart(i, call)] + Updates(i, Partials(p)) + [ToolEnd(i, p.outcome)]
  }

  lemma OfSnoc(events: seq<Event>, e: Event, i: nat)
    ensures Of(events + [e], i) == Of(events, i) + if IsOf(e, i) then [e] else []
  {
    assert (events + [e])[..|events|] == events;
  }

  lemma {:induction false} OfConcat(a: seq<Event>, b: seq<Event>, i: nat)
    ensures Of(a + b, i) == Of(a, i) + Of(b, i)
  {
    hide IsOf;
    if b == [] {
      assert a + b == a;
    } else {
      var front := b[..|b| - 1];
      var e := b[|b| - 1];
      OfConcat(a, front, i);
      assert a + b == (a + front) + [e];
      OfSnoc(a + front, e, i);
      var last: seq<Event> := if IsOf(e, i) then [e] else [];
      assert (Of(a, i) + Of(front, i)) + last == Of(a, i) + (Of(front, i) + last);
    }
  }

  lemma {:induction false} OfNone(events: seq<Event>, i: nat)
    requires forall k :: 0 <= k < |events| ==> !IsOf(events[k], i)
    ensures Of(events, i) == []
  {
    if events != [] { OfNone(events[..|events| - 1], i); }
  }

  lemma {:induction false} OfAll(events: seq<Event>, i: nat)
    requires forall k :: 0 <= k < |events| ==> IsOf(events[k], i)
    ensures Of(events, i) == events
  {
    if events != [] {
      OfAll(events[..|events| - 1], i);
      assert events == events[..|events| - 1] + [events[|events| - 1]];
    }
  }

  lemma LifeIsOf(call: Call, i: nat, p: Preparation, j: nat)
    ensures Of(Life(call, i, p), j) == if i == j then Life(call, i, p) else []
  {
    var life := Life(call, i, p);
    if i == j { OfAll(life, j); } else { OfNone(life, j); }
  }

  /* ---------- One at a time ---------- */

  /** How many calls are executed: all of them, or those up to the first look that finds the run aborted. */
  ghost predicate Executes(calls: seq<Call>, abortAt: nat, k: nat) {
    && k <= |calls|
    && (calls != [] ==> k > 0)
    && (forall i :: 0 < i < k ==> !IsAborted(abortAt, 2 * i - 1))
    && (k < |calls| ==> IsAborted(abortAt, 2 * k - 1))
  }

  lemma {:induction false} SequentialCount(calls: seq<Call>, abortAt: nat, n: nat)
    requires n <= |calls|
    ensures var k := |Sequential(calls, abortAt, n).outcomes|;
      && k <= n && (n > 0 ==> k > 0)
      && (forall i :: 0 < i < k ==> !IsAborted(abortAt, 2 * i - 1))
      && (k < n ==> IsAborted(abortAt, 2 * k - 1))
  {
    if n > 0 { SequentialCount(calls, abortAt, n - 1); }
  }

  lemma {:induction false} SequentialOutcomes(calls: seq<Call>, abortAt: nat, n: nat)
    requires n <= |calls|
    ensures var b := Sequential(calls, abortAt, n);
      && |b.outcomes| <= n
      && forall i :: 0 <= i < |b.outcomes| ==> b.outcomes[i] == Execute(calls, i, abortAt).outcome
  {
    if n > 0 {
      SequentialCount(calls, abortAt, n - 1);
      SequentialOutcomes(calls, abortAt, n - 1);
    }
  }

  lemma SequentialStep(calls: seq<Call>, abortAt: nat, n: nat)
    requires 0 < n <= |calls| && !(n > 1 && IsAborted(abortAt, 2 * (n - 1) - 1))
    ensures var b := Sequential(calls, abortAt, n - 1); var p := Execute(calls, n - 1, abortAt);
      Sequential(calls, abortAt, n) == Batch(
        b.events + (Life(calls[n - 1], n - 1, p) + SendMessage(ResultMessage(calls[n - 1], p.outcome))),
        b.outcomes + [p.outcome])
  {
    hide Execute, Updates, Partials;
    var b := Sequential(calls, abortAt, n - 1);
    var p := Execute(calls, n - 1, abortAt);
    assert b.events + [ToolStart(n - 1, calls[n - 1])] + Updates(n - 1, Partials(p)) + [ToolEnd(n - 1, p.outcome)]
         + SendMessage(ResultMessage(calls[n - 1], p.outcome))
        == b.events + (Life(calls[n - 1], n - 1, p) + SendMessage(ResultMessage(calls[n - 1], p.outcome)));
  }

  lemma {:induction false} SequentialFull(calls: seq<Call>, abortAt: nat, n: nat)
    requires 0 < n <= |calls| && !(n > 1 && IsAborted(abortAt, 2 * (n - 1) - 1))
    ensures |Sequential(calls, abortAt, n - 1).outcomes| == n - 1
  {
    SequentialCount(calls, abortAt, n - 1);
  }

  /** Executed one at a time, call `i` shows its life if it is executed, and nothing if it is not. */
  lemma {:induction false} SequentialLives(calls: seq<Call>, abortAt: nat, n: nat, i: nat)
    requires n <= |calls|
    ensures |Sequential(calls, abortAt, n).outcomes| <= n
    ensures var b := Sequential(calls, abortAt, n);
      Of(b.events, i) == if i < |b.outcomes| then Life(calls[i], i, Execute(calls, i, abortAt)) else []
  {
    hide Life, Of, Execute;
    SequentialCount(calls, abortAt, n);
    if n == 0 {
      OfNone([], i);
    } else {
      SequentialLives(calls, abortAt, n - 1, i);
      var b := Sequential(calls, abortAt, n - 1);
      if !(n > 1 && IsAborted(abortAt, 2 * (n - 1) - 1)) {
        SequentialFull(calls, abortAt, n);
        SequentialStep(calls, abortAt, n);
        var p := Execute(calls, n - 1, abortAt);
        var sent := SendMessage(ResultMessage(calls[n - 1], p.outcome));
        LifeIsOf(calls[n - 1], n - 1, p, i);
        OfNone(sent, i);
        OfConcat(Life(calls[n - 1], n - 1, p), sent, i);
        OfConcat(b.events, Life(calls[n - 1], n - 1, p) + sent, i);
        assert Of(Life(calls[n - 1], n - 1, p), i) + [] == Of(Life(calls[n - 1], n - 1, p), i);
        assert Of(b.events, i) + [] == Of(b.events, i);
        assert [] + Life(calls[n - 1], n - 1, p) == Life(calls[n - 1], n - 1, p);
      }
    }
  }

  const IN_TURN := Open(true, false, multiset{}, true)

  lemma {:induction false} UpdatesFollow(p: Protocol, i: nat, partials: seq<nat>)
    requires p.Open? && i in p.running
    ensures Follow(p, Updates(i, partials)) == p
    decreases |partials|
  {
    hide Follow, Advance;
    if partials == [] {
      FollowNone(p);
      assert Updates(i, partials) == [];
    } else {
      var n := |partials| - 1;
      UpdatesFollow(p, i, partials[..n]);
      assert Updates(i, partials) == Updates(i, partials[..n]) + [ToolUpdate(i, partials[n])];
      FollowSnoc(p, Updates(i, partials[..n]), ToolUpdate(i, partials[n]));
      AdvanceUpdate(p, i, partials[n]);
    }
  }

  lemma AdvanceUpdate(p: Protocol, i: nat, partial: nat)
    requires p.Open? && i in p.running
    ensures Advance(p, ToolUpdate(i, partial)) == p
  {
  }

  lemma FollowOne(p: Protocol, e: Event)
    ensures Follow(p, [e]) == Advance(p, e)
  {
    hide Advance;
    assert [e][..0] == [];
  }

  lemma FollowSend(m: Message)
    ensures Follow(IN_TURN, SendMessage(m)) == IN_TURN
  {
    assert SendMessage(m) == [MessageStart(m)] + [MessageEnd(m)];
    FollowSnoc(IN_TURN, [MessageStart(m)], MessageEnd(m));
    FollowOne(IN_TURN, MessageStart(m));
  }

  lemma FollowLife(call: Call, i: nat, p: Preparation)
    ensures Follow(IN_TURN, Life(call, i, p)) == IN_TURN
  {
    hide Advance, Execute;
    var start := [ToolStart(i, call)];
    var open := IN_TURN.(running := multiset{i});
    FollowOne(IN_TURN, ToolStart(i, call));
    AdvanceStart(call, i);
    FollowConcat(IN_TURN, start, Updates(i, Partials(p)));
    UpdatesFollow(open, i, Partials(p));
    FollowSnoc(IN_TURN, start + Updates(i, Partials(p)), ToolEnd(i, p.outcome));
    AdvanceEnd(i, p.outcome);
  }

  lemma AdvanceStart(call: Call, i: nat)
    ensures Advance(IN_TURN, ToolStart(i, call)) == IN_TURN.(running := multiset{i})
  {
  }

  lemma AdvanceEnd(i: nat, o: Outcome)
    ensures Advance(IN_TURN.(running := multiset{i}), ToolEnd(i, o)) == IN_TURN
  {
  }

  /** The sequential executor keeps to the event protocol, and its `message_end` payloads are its results. */
  lemma {:induction false} SequentialProtocol(calls: seq<Call>, abortAt: nat, n: nat)
    requires n <= |calls|
    ensures var b := Sequential(calls, abortAt, n);
      && |b.outcomes| <= n
      && Follow(IN_TURN, b.events) == IN_TURN
      && Ended(b.events) == ResultMessages(calls, b.outcomes)
  {
    hide Life, Follow, Execute, Ended, ResultMessage;
    SequentialCount(calls, abortAt, n);
    if n == 0 {
      FollowNone(IN_TURN);
    } else {
      SequentialProtocol(calls, abortAt, n - 1);
      var b := Sequential(calls, abortAt, n - 1);
      if !(n > 1 && IsAborted(abortAt, 2 * (n - 1) - 1)) {
        SequentialFull(calls, abortAt, n);
        SequentialStep(calls, abortAt, n);
        var p := Execute(calls, n - 1, abortAt);
        var life := Life(calls[n - 1], n - 1, p);
        var m := ResultMessage(calls[n - 1], p.outcome);
        FollowLife(calls[n - 1], n - 1, p);
        FollowSend(m);
        FollowConcat(IN_TURN, life, SendMessage(m));
        FollowConcat(IN_TURN, b.events, life + SendMessage(m));
        EndedConcat(life, SendMessage(m));
        EndedConcat(b.events, life + SendMessage(m));
        LifeEndsNothing(calls[n - 1], n - 1, p);
        SendEnds(m);
        assert ResultMessages(calls, b.outcomes + [p.outcome]) == ResultMessages(calls, b.outcomes) + [m];
        assert [] + [m] == [m];
      }
    }
  }

  lemma FollowNone(p: Protocol)
    ensures Follow(p, []) == p && Ended([]) == []
  {
  }

  lemma {:induction false} EndsNothing(events: seq<Event>)
    requires forall k :: 0 <= k < |events| ==> !events[k].MessageEnd?
    ensures Ended(events) == []
  {
    if events != [] { EndsNothing(events[..|events| - 1]); }
  }

  lemma LifeEndsNothing(call: Call, i: nat, p: Preparation)
    ensures Ended(Life(call, i, p)) == []
  {
    EndsNothing(Life(call, i, p));
  }

  lemma SendEnds(m: Message)
    ensures Ended(SendMessage(m)) == [m]
  {
    assert SendMessage(m) == [MessageStart(m)] + [MessageEnd(m)];
    EndedSnoc([MessageStart(m)], MessageEnd(m));
    EndsNothing([MessageStart(m)]);
    assert [] + [m] == [m];
  }

  /* ---------- Concurrently ---------- */

  /** What the events of call `i` are while it is being executed. */
  ghost predicate LifeSoFar(calls: seq<Call>, abortAt: nat, s: Preparing, i: nat)
    requires |s.entries| <= |calls|
  {
    if i >= |s.entries| then Of(s.events, i) == []
    else
      var p := Execute(calls, i, abortAt);
      match s.entries[i]
      case Decided(outcome) => outcome == p.outcome && Of(s.events, i) == Life(calls[i], i, p)
      case Running(left, outcome) =>
        && p.Prepared? && outcome == p.outcome
        && |left| <= |p.partials| && left == p.partials[|p.partials| - |left|..]
        && Of(s.events, i) == [ToolStart(i, calls[i])] + Updates(i, p.partials[..|p.partials| - |left|])
  }

  /** The calls still running. */
  function Live(entries: seq<Entry>): set<nat> {
    set i: nat | 0 <= i < |entries| && entries[i].Running?
  }

  /** What holds at every moment of a concurrent batch. */
  ghost predicate Underway(calls: seq<Call>, abortAt: nat, s: Preparing) {
    && |s.entries| <= |calls|
    && (forall i: nat :: LifeSoFar(calls, abortAt, s, i))
    && Follow(IN_TURN, s.events) == IN_TURN.(running := multiset(Live(s.entries)))
    && Ended(s.events) == []
  }

  lemma {:induction false} PrepareCount(calls: seq<Call>, abortAt: nat, n: nat)
    requires n <= |calls|
    ensures var k := |PrepareAll(calls, abortAt, n).entries|;
      && k <= n && (n > 0 ==> k > 0)
      && (forall i :: 0 < i < k ==> !IsAborted(abortAt, 2 * i - 1))
      && (k < n ==> IsAborted(abortAt, 2 * k - 1))
  {
    if n > 0 { PrepareCount(calls, abortAt, n - 1); }
  }

  /** Starting call `n` and leaving it running. */
  lemma StartKeeps(calls: seq<Call>, abortAt: nat, s: Preparing)
    requires Underway(calls, abortAt, s) && |s.entries| < |calls| && Execute(calls, |s.entries|, abortAt).Prepared?
    ensures var n := |s.entries|; var p := Execute(calls, n, abortAt);
      Underway(calls, abortAt, Preparing(s.events + [ToolStart(n, calls[n])], s.entries + [Running(p.partials, p.outcome)]))
  {
    hide Of, Follow, Ended, Execute;
    var n := |s.entries|;
    var p := Execute(calls, n, abortAt);
    var e := ToolStart(n, calls[n]);
    var r := Preparing(s.events + [e], s.entries + [Running(p.partials, p.outcome)]);
    forall i: nat ensures LifeSoFar(calls, abortAt, r, i) {
      assert LifeSoFar(calls, abortAt, s, i);
      OfSnoc(s.events, e, i);
      if i != n {
        assert Of(s.events, i) + [] == Of(s.events, i);
      } else {
        assert [] + [e] == [e] + Updates(n, p.partials[..0]);
      }
    }
    FollowSnoc(IN_TURN, s.events, e);
    assert Live(r.entries) == Live(s.entries) + {n};
    assert n !in Live(s.entries);
    assert multiset(Live(s.entries) + {n}) == multiset(Live(s.entries)) + multiset{n};
    EndedSnoc(s.events, e);
  }

  /** Starting call `n` and deciding it at once. */
  lemma DecideKeeps(calls: seq<Call>, abortAt: nat, s: Preparing)
    requires Underway(calls, abortAt, s) && |s.entries| < |calls| && Execute(calls, |s.entries|, abortAt).Immediate?
    ensures var n := |s.entries|; var p := Execute(calls, n, abortAt);
      Underway(calls, abortAt,
        Preparing(s.events + [ToolStart(n, calls[n])] + [ToolEnd(n, p.outcome)], s.entries + [Decided(p.outcome)]))
  {
    hide Of, Follow, Ended, Execute;
    var n := |s.entries|;
    var p := Execute(calls, n, abortAt);
    var e := ToolStart(n, calls[n]);
    var f := ToolEnd(n, p.outcome);
    var r := Preparing(s.events + [e] + [f], s.entries + [Decided(p.outcome)]);
    forall i: nat ensures LifeSoFar(calls, abortAt, r, i) {
      assert LifeSoFar(calls, abortAt, s, i);
      OfSnoc(s.events, e, i);
      OfSnoc(s.events + [e], f, i);
      if i != n {
        assert Of(s.events, i) + [] + [] == Of(s.events, i);
      } else {
        assert Updates(n, []) == [];
        assert [] + [e] + [f] == Life(calls[n], n, p);
      }
    }
    FollowSnoc(IN_TURN, s.events, e);
    FollowSnoc(IN_TURN, s.events + [e], f);
    assert Live(r.entries) == Live(s.entries);
    assert n !in Live(s.entries);
    assert multiset(Live(s.entries)) + multiset{n} - multiset{n} == multiset(Live(s.entries));
    EndedSnoc(s.events, e);
    EndedSnoc(s.events + [e], f);
  }

  /** The first phase keeps all of it. */
  lemma {:induction false} PrepareUnderway(calls: seq<Call>, abortAt: nat, n: nat)
    requires n <= |calls|
    ensures Underway(calls, abortAt, PrepareAll(calls, abortAt, n))
  {
    hide Underway, Execute;
    if n == 0 {
      NothingUnderway(calls, abortAt);
    } else {
      PrepareUnderway(calls, abortAt, n - 1);
      PrepareCount(calls, abortAt, n - 1);
      var s := PrepareAll(calls, abortAt, n - 1);
      if !(n > 1 && IsAborted(abortAt, 2 * (n - 1) - 1)) {
        assert |s.entries| == n - 1;
        if Execute(calls, n - 1, abortAt).Prepared? { StartKeeps(calls, abortAt, s); } else { DecideKeeps(calls, abortAt, s); }
      }
    }
  }

  lemma NothingUnderway(calls: seq<Call>, abortAt: nat)
    ensures Underway(calls, abortAt, Preparing([], []))
  {
    assert Live([]) == {};
    assert multiset(Live([])) == multiset{};
    forall i: nat ensures LifeSoFar(calls, abortAt, Preparing([], []), i) { OfNone([], i); }
  }

  /** One step of a running call. */
  lemma StepKeeps(calls: seq<Call>, abortAt: nat, s: Preparing, i: nat)
    requires Underway(calls, abortAt, s)
    ensures Underway(calls, abortAt, Step(s, i))
  {
    hide Of, Follow, Ended, Execute;
    if i < |s.entries| && s.entries[i].Running? {
      var e := s.entries[i];
      var r := Step(s, i);
      var event := r.events[|s.events|];
      assert LifeSoFar(calls, abortAt, s, i);
      var p := Execute(calls, i, abortAt);
      var done := |p.partials| - |e.left|;
      forall j: nat ensures LifeSoFar(calls, abortAt, r, j) {
        assert LifeSoFar(calls, abortAt, s, j);
        OfSnoc(s.events, event, j);
        if j != i {
          assert Of(s.events, j) + [] == Of(s.events, j);
        } else if e.left == [] {
          assert p.partials[..done] == p.partials;
        } else {
          StepUpdates(i, p.partials, done);
          assert e.left[1..] == p.partials[done + 1..];
        }
      }
      StepFollows(s, i);
      EndedSnoc(s.events, event);
    }
  }

  lemma StepUpdates(i: nat, partials: seq<nat>, done: nat)
    requires done < |partials|
    ensures Updates(i, partials[..done + 1]) == Updates(i, partials[..done]) + [ToolUpdate(i, partials[done])]
  {
  }

  lemma StepFollows(s: Preparing, i: nat)
    requires i < |s.entries| && s.entries[i].Running?
    requires Follow(IN_TURN, s.events) == IN_TURN.(running := multiset(Live(s.entries)))
    ensures Follow(IN_TURN, Step(s, i).events) == IN_TURN.(running := multiset(Live(Step(s, i).entries)))
  {
    hide Follow;
    var r := Step(s, i);
    FollowSnoc(IN_TURN, s.events, r.events[|s.events|]);
    assert i in Live(s.entries);
    if s.entries[i].left == [] {
      assert Live(r.entries) == Live(s.entries) - {i};
      assert multiset(Live(s.entries) - {i}) == multiset(Live(s.entries)) - multiset{i};
    } else {
      assert Live(r.entries) == Live(s.entries);
    }
  }

  lemma {:induction false} InterleaveUnderway(calls: seq<Call>, abortAt: nat, s: Preparing, schedule: seq<nat>)
    requires Underway(calls, abortAt, s)
    ensures Underway(calls, abortAt, Interleave(s, schedule))
  {
    hide Underway, Step;
    if schedule != [] {
      InterleaveUnderway(calls, abortAt, s, schedule[..|schedule| - 1]);
      StepKeeps(calls, abortAt, Interleave(s, schedule[..|schedule| - 1]), schedule[|schedule| - 1]);
    }
  }

  lemma {:induction false} SendResultsFacts(calls: seq<Call>, outcomes: seq<Outcome>, n: nat, i: nat)
    requires n <= |outcomes| <= |calls|
    ensures var es := SendResults(calls, outcomes, n);
      && Follow(IN_TURN, es) == IN_TURN
      && Ended(es) == ResultMessages(calls, outcomes[..n])
      && Of(es, i) == []
  {
    hide Follow, Ended, Of, ResultMessage;
    if n == 0 {
      FollowNone(IN_TURN);
      OfNone([], i);
    } else {
      SendResultsFacts(calls, outcomes, n - 1, i);
      var m := ResultMessage(calls[n - 1], outcomes[n - 1]);
      var es := SendResults(calls, outcomes, n - 1);
      FollowSend(m);
      FollowConcat(IN_TURN, es, SendMessage(m));
      SendEnds(m);
      EndedConcat(es, SendMessage(m));
      OfNone(SendMessage(m), i);
      OfConcat(es, SendMessage(m), i);
      assert ResultMessages(calls, outcomes[..n]) == ResultMessages(calls, outcomes[..n - 1]) + [m];
    }
  }

  /** Executed concurrently, call `i` shows the same life; the protocol is kept; results come in call order. */
  lemma ParallelFacts(calls: seq<Call>, abortAt: nat, schedule: seq<nat>, i: nat)
    requires Complete(calls, abortAt, schedule)
    ensures var b := Parallel(calls, abortAt, schedule);
      && Of(b.events, i) == (if i < |b.outcomes| then Life(calls[i], i, Execute(calls, i, abortAt)) else [])
      && Follow(IN_TURN, b.events) == IN_TURN
      && Ended(b.events) == ResultMessages(calls, b.outcomes)
      && (i < |b.outcomes| ==> b.outcomes[i] == Execute(calls, i, abortAt).outcome)
  {
    hide Of, Follow, Ended, Execute, Life, Interleave, PrepareAll;
    var prepared := PrepareAll(calls, abortAt, |calls|);
    PrepareUnderway(calls, abortAt, |calls|);
    InterleaveUnderway(calls, abortAt, prepared, schedule);
    var ran := Interleave(prepared, schedule);
    var b := Parallel(calls, abortAt, schedule);
    SendResultsFacts(calls, b.outcomes, |b.outcomes|, i);
    assert b.outcomes[..|b.outcomes|] == b.outcomes;
    assert LifeSoFar(calls, abortAt, ran, i);
    var sent := SendResults(calls, b.outcomes, |b.outcomes|);
    OfConcat(ran.events, sent, i);
    FollowConcat(IN_TURN, ran.events, sent);
    EndedConcat(ran.events, sent);
    assert Live(ran.entries) == {};
    assert multiset(Live(ran.entries)) == multiset{};
    assert Of(ran.events, i) + [] == Of(ran.events, i);
    assert [] + Ended(sent) == Ended(sent);
  }

  /** Either way the same number of calls is executed. */
  lemma CountsAgree(calls: seq<Call>, abortAt: nat, schedule: seq<nat>)
    ensures |Parallel(calls, abortAt, schedule).outcomes| == |Sequential(calls, abortAt, |calls|).outcomes|
    ensures Executes(calls, abortAt, |Parallel(calls, abortAt, schedule).outcomes|)
  {
    hide PrepareAll, Sequential;
    var prepared := PrepareAll(calls, abortAt, |calls|);
    PrepareCount(calls, abortAt, |calls|);
    SequentialCount(calls, abortAt, |calls|);
    InterleaveKeepsCount(prepared, schedule);
    var k := |prepared.entries|;
    var m := |Sequential(calls, abortAt, |calls|).outcomes|;
    if k < m { assert false; }
    if m < k { assert false; }
  }

  /**
   * Every interleaving of a concurrent batch gives what the sequential executor gives: the same results
   * in the order of the calls, the same decision to terminate, and for each call the same events in the
   * same order. When the run is aborted at the same look at the signal, this still holds.
   */
  lemma ParallelRefinesSequential(calls: seq<Call>, abortAt: nat, schedule: seq<nat>, i: nat)
    requires Complete(calls, abortAt, schedule)
    ensures var par := Parallel(calls, abortAt, schedule); var one := Sequential(calls, abortAt, |calls|);
      && par.outcomes == one.outcomes
      && Ended(par.events) == Ended(one.events) == ResultMessages(calls, one.outcomes)
      && ShouldTerminate(par.outcomes) == ShouldTerminate(one.outcomes)
      && Of(par.events, i) == Of(one.events, i)
  {
    hide Of, Follow, Ended, Execute, Life, Interleave, PrepareAll, Sequential, Parallel, Complete;
    var par := Parallel(calls, abortAt, schedule);
    var one := Sequential(calls, abortAt, |calls|);
    CountsAgree(calls, abortAt, schedule);
    SequentialOutcomes(calls, abortAt, |calls|);
    SequentialProtocol(calls, abortAt, |calls|);
    SequentialLives(calls, abortAt, |calls|, i);
    forall j | 0 <= j < |par.outcomes| ensures par.outcomes[j] == one.outcomes[j] {
      ParallelFacts(calls, abortAt, schedule, j);
    }
    ParallelFacts(calls, abortAt, schedule, i);
  }

  /** Without an abort, every call is executed and its result is its own: no other call has a say in it. */
  lemma EveryCallAnswered(calls: seq<Call>, abortAt: nat, schedule: seq<nat>)
    requires abortAt >= 2 * |calls| && Complete(calls, abortAt, schedule)
    ensures Parallel(calls, abortAt, schedule).outcomes
         == seq(|calls|, i requires 0 <= i < |calls| => Prepare(calls[i], false).outcome)
  {
    hide Of, Follow, Ended, Life, Interleave, PrepareAll, Parallel, Complete;
    var b := Parallel(calls, abortAt, schedule);
    CountsAgree(calls, abortAt, schedule);
    var k := |b.outcomes|;
    if k < |calls| { assert false; }
    forall j | 0 <= j < k ensures b.outcomes[j] == Prepare(calls[j], false).outcome {
      ParallelFacts(calls, abortAt, schedule, j);
    }
  }

  /**
   * What executing calls comes to. A call that runs before the abort gives its own outcome; any other gives an
   * error that does not ask to terminate. Calls are executed in order, until all are or the run is found aborted.
   */
  lemma OutcomesMean(calls: seq<Call>, abortAt: nat)
    ensures var outcomes := Sequential(calls, abortAt, |calls|).outcomes;
      var k := |outcomes|;
      && k <= |calls| && (calls != [] ==> k > 0)
      && (forall i :: 0 < i < k ==> 2 * i - 1 < abortAt) && (k < |calls| ==> abortAt <= 2 * k - 1)
      && forall i :: 0 <= i < k ==> outcomes[i] == OutcomeOf(calls[i], 2 * i < abortAt)
  {
    hide Sequential;
    SequentialCount(calls, abortAt, |calls|);
    SequentialOutcomes(calls, abortAt, |calls|);
  }

  function OutcomeOf(call: Call, alive: bool): Outcome {
    if call.Runs? && alive then call.outcome
    else
      var content := if call.Missing? then 0 else if call.Rejected? then call.error
        else if call.Blocked? && alive then call.reason else 1;
      Outcome(content, true, false)
  }

  /* ---------- Which schedules are complete ---------- */

  lemma {:induction false} EntriesAre(calls: seq<Call>, abortAt: nat, n: nat, i: nat)
    requires n <= |calls| && i < |PrepareAll(calls, abortAt, n).entries|
    ensures i < |calls|
    ensures PrepareAll(calls, abortAt, n).entries[i] ==
      match Execute(calls, i, abortAt)
      case Immediate(outcome) => Decided(outcome)
      case Prepared(partials, outcome) => Running(partials, outcome)
  {
    hide Execute;
    PrepareCount(calls, abortAt, n);
    PrepareCount(calls, abortAt, n - 1);
    if i < |PrepareAll(calls, abortAt, n - 1).entries| { EntriesAre(calls, abortAt, n - 1, i); }
  }

  /** A call that has had `c` turns. */
  function AfterTurns(e: Entry, c: nat): Entry {
    if e.Decided? then e else if c > |e.left| then Decided(e.outcome) else Running(e.left[c..], e.outcome)
  }

  lemma TurnTaken(s: Preparing, j: nat, i: nat, e: Entry, c: nat)
    requires i < |s.entries| && s.entries[i] == AfterTurns(e, c)
    ensures |Step(s, j).entries| == |s.entries|
    ensures Step(s, j).entries[i] == AfterTurns(e, if i == j then c + 1 else c)
  {
    if i == j && e.Running? && c < |e.left| { assert e.left[c..][1..] == e.left[c + 1..]; }
  }

  lemma CountSnoc(schedule: seq<nat>, i: nat)
    requires schedule != []
    ensures var n := |schedule| - 1;
      multiset(schedule)[i] == multiset(schedule[..n])[i] + if schedule[n] == i then 1 else 0
  {
    var n := |schedule| - 1;
    assert schedule == schedule[..n] + [schedule[n]];
  }

  lemma {:induction false} EntryAfter(s: Preparing, schedule: seq<nat>, i: nat)
    requires i < |s.entries|
    ensures |Interleave(s, schedule).entries| == |s.entries|
    ensures Interleave(s, schedule).entries[i] == AfterTurns(s.entries[i], multiset(schedule)[i])
  {
    hide Step, AfterTurns;
    if schedule == [] {
      NoTurns(s.entries[i]);
    } else {
      var n := |schedule| - 1;
      EntryAfter(s, schedule[..n], i);
      CountSnoc(schedule, i);
      TurnTaken(Interleave(s, schedule[..n]), schedule[n], i, s.entries[i], multiset(schedule[..n])[i]);
    }
  }

  lemma NoTurns(e: Entry)
    ensures AfterTurns(e, 0) == e
  {
  }

  /** Every call has ended exactly if each that runs has had a turn for each of its partial results and one to end. */
  lemma CompleteExactly(calls: seq<Call>, abortAt: nat, schedule: seq<nat>)
    ensures var k := |Sequential(calls, abortAt, |calls|).outcomes|;
      && k <= |calls|
      && (Complete(calls, abortAt, schedule) <==>
        forall i :: 0 <= i < k && calls[i].Runs? && 2 * i < abortAt ==>
          multiset(schedule)[i] > |calls[i].partials|)
  {
    hide Interleave, PrepareAll, Sequential;
    var s := PrepareAll(calls, abortAt, |calls|);
    CountsAgree(calls, abortAt, schedule);
    InterleaveKeepsCount(s, schedule);
    forall i | 0 <= i < |s.entries|
      ensures Interleave(s, schedule).entries[i].Decided? <==>
        (calls[i].Runs? && 2 * i < abortAt ==> multiset(schedule)[i] > |calls[i].partials|)
    {
      EntriesAre(calls, abortAt, |calls|, i);
      EntryAfter(s, schedule, i);
    }
  }
}

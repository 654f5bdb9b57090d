/** What each thing that may happen in a run does, field by field, and how far a flush gets. */
module HarnessEvents {
  import opened Wrappers
  import opened HarnessQueues
  import opened HarnessRun

  /* ---------- A flush ---------- */

  function FlushedAll(ws: seq<Write>): (r: seq<Entry>)
    ensures |r| == |ws|
  {
    seq(|ws|, i requires 0 <= i < |ws| => Flushed(Recorded(ws[i])))
  }

  lemma {:induction false} ArrivalsCons(script: seq<Await>, n: nat)
    requires 0 < n <= |script|
    ensures Arrivals(script[..n]) == script[0].meanwhile + Arrivals(script[1..][..n - 1])
  {
    if n == 1 {
      assert script[..1][..0] == [] && script[1..][..0] == [];
    } else {
      ArrivalsCons(script, n - 1);
      assert script[..n][..n - 1] == script[..n - 1];
      assert script[1..][..n - 1][..n - 2] == script[1..][..n - 2];
      RegroupWrites(script[0].meanwhile, Arrivals(script[1..][..n - 2]), script[n - 1].meanwhile);
    }
  }

  lemma RegroupWrites(a: seq<Write>, b: seq<Write>, c: seq<Write>)
    ensures (a + b) + c == a + (b + c)
  {
  }

  /** Of what waited and what arrived, `n` writes are in the log now and the rest waits. */
  ghost predicate Written(pending: seq<Write>, log: seq<Entry>, r: FlushResult, n: nat) {
    var all := pending + r.arrived;
    n <= |all| && r.log == log + FlushedAll(all[..n]) && r.pending == all[n..] && (r.ok ==> r.pending == [])
  }

  /** `n` appends have succeeded and, if the flush failed, one more has not; what arrived came during those. */
  ghost predicate Awaited(script: seq<Await>, r: FlushResult, n: nat) {
    && r.arrived == Arrivals(script[..Min(|script|, if r.ok then n else n + 1)])
    && (forall i :: 0 <= i < n && i < |script| ==> script[i].ok)
    && (!r.ok ==> n < |script| && !script[n].ok)
  }

  ghost predicate FlushRan(pending: seq<Write>, log: seq<Entry>, script: seq<Await>, r: FlushResult, n: nat) {
    Written(pending, log, r, n) && Awaited(script, r, n)
  }

  /**
   * A flush writes what waits and what arrives meanwhile in order, each once and as it is recorded, up to the
   * first append that fails; that write and all after it stay.
   */
  lemma {:induction false} FlushExactly(pending: seq<Write>, log: seq<Entry>, script: seq<Await>) returns (n: nat)
    ensures FlushRan(pending, log, script, Flush(pending, log, script), n)
    decreases |script|, |pending|
  {
    hide FlushRan, Flush, Recorded, Arrivals;
    if pending == [] {
      n := 0;
      NothingToFlush(log, script);
    } else if NextAwait(script).ok {
      var now := NextAwait(script);
      n := FlushExactly(pending[1..] + now.meanwhile, log + [Flushed(Recorded(pending[0]))], LaterAwaits(script));
      FlushOne(pending, log, script, n);
      n := n + 1;
    } else {
      n := 0;
      FlushFails(pending, log, script);
    }
  }

  lemma NothingToFlush(log: seq<Entry>, script: seq<Await>)
    ensures FlushRan([], log, script, Flush([], log, script), 0)
  {
    assert script[..0] == [] && [] + Arrivals([]) == [] && FlushedAll([]) == [] && log + [] == log;
  }

  lemma FlushFails(pending: seq<Write>, log: seq<Entry>, script: seq<Await>)
    requires pending != [] && !NextAwait(script).ok
    ensures FlushRan(pending, log, script, Flush(pending, log, script), 0)
  {
    ArrivalsCons(script, 1);
    assert script[1..][..0] == [] && Arrivals([]) == [];
    assert script[0].meanwhile + [] == script[0].meanwhile;
    assert FlushedAll((pending + script[0].meanwhile)[..0]) == [] && log + [] == log;
  }

  lemma FlushedCons(w: Write, ws: seq<Write>)
    ensures FlushedAll([w] + ws) == [Flushed(Recorded(w))] + FlushedAll(ws)
  {
    hide Recorded;
  }

  /** With one write off the front, `n` of the rest are `n + 1` of all. */
  lemma OneOffTheFront(pending: seq<Write>, meanwhile: seq<Write>, arrived: seq<Write>, n: nat)
    requires pending != [] && n <= |pending[1..] + meanwhile + arrived|
    ensures var (all, rest) := (pending + (meanwhile + arrived), pending[1..] + meanwhile + arrived);
      n + 1 <= |all| && all[..n + 1] == [pending[0]] + rest[..n] && all[n + 1..] == rest[n..]
  {
    assert pending + (meanwhile + arrived) == [pending[0]] + (pending[1..] + meanwhile + arrived);
  }

  lemma LogRegroups(log: seq<Entry>, e: Entry, es: seq<Entry>)
    ensures log + [e] + es == log + ([e] + es)
  {
  }

  lemma AwaitedMore(script: seq<Await>, awaited: nat)
    requires awaited <= |LaterAwaits(script)|
    ensures NextAwait(script).meanwhile + Arrivals(LaterAwaits(script)[..awaited])
      == Arrivals(script[..Min(|script|, awaited + 1)])
  {
    if script == [] {
      assert LaterAwaits(script)[..awaited] == [] && script[..0] == [] && [] + Arrivals([]) == Arrivals([]);
    } else {
      ArrivalsCons(script, awaited + 1);
    }
  }

  lemma WrittenOne(pending: seq<Write>, log: seq<Entry>, meanwhile: seq<Write>, r: FlushResult, n: nat)
    requires pending != []
    requires Written(pending[1..] + meanwhile, log + [Flushed(Recorded(pending[0]))], r, n)
    ensures Written(pending, log, r.(arrived := meanwhile + r.arrived), n + 1)
  {
    hide Recorded, FlushedAll;
    var rest := pending[1..] + meanwhile + r.arrived;
    OneOffTheFront(pending, meanwhile, r.arrived, n);
    FlushedCons(pending[0], rest[..n]);
    LogRegroups(log, Flushed(Recorded(pending[0])), FlushedAll(rest[..n]));
  }

  lemma AwaitedOne(script: seq<Await>, r: FlushResult, n: nat)
    requires NextAwait(script).ok && Awaited(LaterAwaits(script), r, n)
    ensures Awaited(script, r.(arrived := NextAwait(script).meanwhile + r.arrived), n + 1)
  {
    hide Arrivals;
    var later := LaterAwaits(script);
    AwaitedMore(script, Min(|later|, if r.ok then n else n + 1));
    forall i | 0 <= i < n + 1 && i < |script| ensures script[i].ok { if i > 0 { assert script[i] == later[i - 1]; } }
  }

  lemma FlushOne(pending: seq<Write>, log: seq<Entry>, script: seq<Await>, n: nat)
    requires pending != [] && NextAwait(script).ok
    requires var (rest, done) := (pending[1..] + NextAwait(script).meanwhile, log + [Flushed(Recorded(pending[0]))]);
      FlushRan(rest, done, LaterAwaits(script), Flush(rest, done, LaterAwaits(script)), n)
    ensures FlushRan(pending, log, script, Flush(pending, log, script), n + 1)
  {
    hide Written, Awaited, Recorded, NextAwait, LaterAwaits;
    var (now, later) := (NextAwait(script), LaterAwaits(script));
    var r := Flush(pending[1..] + now.meanwhile, log + [Flushed(Recorded(pending[0]))], later);
    WrittenOne(pending, log, now.meanwhile, r, n);
    AwaitedOne(script, r, n);
    assert Flush(pending, log, script) == r.(arrived := now.meanwhile + r.arrived);
  }

  /* ---------- Single events ---------- */

  /** Queueing: steering and follow-ups are refused while idle, next-turn messages never; what is taken comes last. */
  lemma QueueingMeans(s: Harness, which: Which, m: Message)
    ensures var r := Handle(s, Queueing(which, m));
      var taken := which.NextTurn? || s.phase != Idle;
      && r.ok && r.steering == r.followUps == []
      && r.state == s.(
        steering := if which.Steer? && taken then s.steering + [m] else s.steering,
        followUps := if which.FollowUp? && taken then s.followUps + [m] else s.followUps,
        nextTurn := if which.NextTurn? then s.nextTurn + [m] else s.nextTurn)
      && r.given == Given(
        if which.Steer? && taken then [m] else [], if which.FollowUp? && taken then [m] else [],
        if which.NextTurn? then [m] else [], [], [])
  {
  }

  /** What a poll takes off one queue: all of it or at most one message, if it can be announced. */
  ghost predicate Polled(before: seq<Message>, after: seq<Message>, got: seq<Message>, arrived: seq<Message>,
    all: bool, announced: bool, meanwhile: seq<Message>)
  {
    && got + after == before + arrived
    && arrived == (if before == [] then [] else meanwhile)
    && (!announced ==> got == [])
    && (announced && before != [] ==> got != [] && (if all then got == before else |got| == 1))
  }

  /** A poll concerns its own queue, fails exactly if there was something to announce and that failed. */
  lemma PollMeans(s: Harness, followUps: bool, all: bool, announced: bool, meanwhile: seq<Message>)
    ensures var r := Handle(s, Poll(followUps, all, announced, meanwhile));
      && (r.ok <==> announced || (if followUps then s.followUps else s.steering) == [])
      && (if followUps then
          r.state == s.(followUps := r.state.followUps) && r.steering == []
          && r.given == NOTHING.(followUps := r.given.followUps)
          && Polled(s.followUps, r.state.followUps, r.followUps, r.given.followUps, all, announced, meanwhile)
        else
          r.state == s.(steering := r.state.steering) && r.followUps == []
          && r.given == NOTHING.(steering := r.given.steering)
          && Polled(s.steering, r.state.steering, r.steering, r.given.steering, all, announced, meanwhile))
  {
    hide Front;
    DrainBalances(if followUps then s.followUps else s.steering, all, announced, meanwhile);
  }

  /** A message that ends is logged if its append succeeds, and the run goes on if the listeners do not fail either. */
  lemma MessageEndMeans(s: Harness, m: Message, appended: bool, listenersOk: bool)
    ensures var r := Handle(s, OnMessageEnd(m, appended, listenersOk));
      && (r.ok <==> appended && listenersOk)
      && r.state == s.(log := s.log + if appended then [Own(MessageWrite(m))] else [])
      && r.steering == r.followUps == [] && r.given == NOTHING.(direct := if appended then [MessageWrite(m)] else [])
  {
    assert s.log + [] == s.log;
  }

  /** A message appended while idle is logged at once, and otherwise it waits; neither makes a run fail. */
  lemma AppendingMeans(s: Harness, m: Message, appended: bool)
    ensures var r := Handle(s, Appending(m, appended));
      && r.ok && r.steering == r.followUps == []
      && (if s.phase == Idle then
          r.state == s.(log := s.log + if appended then [Own(MessageWrite(m))] else [])
          && r.given == NOTHING.(direct := if appended then [MessageWrite(m)] else [])
        else
          r.state == s.(pending := s.pending + [MessageWrite(m)])
          && r.given == NOTHING.(deferred := [MessageWrite(m)]))
  {
    assert s.log + [] == s.log;
  }

  function ScriptOf(e: RunEvent): seq<Await>
    requires e.OnTurnEnd? || e.OnAgentEnd? || e.PrepareTurn?
  {
    match e
    case OnTurnEnd(_, script) => script
    case OnAgentEnd(script, _) => script
    case PrepareTurn(script, _) => script
  }

  /** Whether nothing but the flush goes wrong. */
  predicate RestOk(e: RunEvent)
    requires e.OnTurnEnd? || e.OnAgentEnd? || e.PrepareTurn?
  {
    match e
    case OnTurnEnd(listenersOk, _) => listenersOk
    case OnAgentEnd(_, listenersOk) => listenersOk
    case PrepareTurn(_, stateOk) => stateOk
  }

  /**
   * The end of a turn and of a run, and the preparation of a turn, flush what waits, whatever else fails. They are
   * well exactly if then nothing waits and nothing else failed. Only the end of a run makes the harness idle, and
   * only with nothing left to write.
   */
  lemma FlushingMeans(s: Harness, e: RunEvent) returns (r: FlushResult, n: nat)
    requires e.OnTurnEnd? || e.OnAgentEnd? || e.PrepareTurn?
    ensures FlushRan(s.pending, s.log, ScriptOf(e), r, n)
    ensures var h := Handle(s, e);
      && h.state == s.(pending := r.pending, log := r.log,
        phase := if e.OnAgentEnd? && r.pending == [] then Idle else s.phase)
      && (h.ok <==> r.pending == [] && RestOk(e))
      && h.steering == h.followUps == [] && h.given == NOTHING.(deferred := RecordedAll(r.arrived))
  {
    hide FlushRan, Flush, RecordedAll;
    r := Flush(s.pending, s.log, ScriptOf(e));
    n := FlushExactly(s.pending, s.log, ScriptOf(e));
    FlushEmpties(s.pending, s.log, ScriptOf(e));
  }

  /** Any other event changes nothing, and fails with its listeners. */
  lemma OtherMeans(s: Harness, listenersOk: bool)
    ensures Handle(s, OnOther(listenersOk)) == Effect(s, listenersOk, [], [], NOTHING)
  {
  }

  /* ---------- Whole runs ---------- */

  /** Events after others that go well: what they are given and poll comes after what those are given and poll. */
  lemma {:induction false} InTwoParts(s: Harness, a: seq<RunEvent>, b: seq<RunEvent>)
    requires HandleAll(s, a).ok
    ensures var (x, y) := (HandleAll(s, a), HandleAll(HandleAll(s, a).state, b));
      HandleAll(s, a + b) ==
        Effect(y.state, y.ok, x.steering + y.steering, x.followUps + y.followUps, Plus(x.given, y.given))
  {
    hide Handle, Plus;
    var x := HandleAll(s, a);
    if b == [] {
      assert a + b == a && x.steering + [] == x.steering && x.followUps + [] == x.followUps;
      PlusOne(x.given, [], []);
    } else {
      var n := |b| - 1;
      InTwoParts(s, a, b[..n]);
      assert (a + b)[..|a| + n] == a + b[..n] && (a + b)[|a| + n] == b[n];
      var y := HandleAll(x.state, b[..n]);
      if y.ok {
        var z := Handle(y.state, b[n]);
        RegroupEffects(x, y, z);
      }
    }
  }

  lemma RegroupEffects(x: Effect, y: Effect, z: Effect)
    ensures x.steering + y.steering + z.steering == x.steering + (y.steering + z.steering)
    ensures x.followUps + y.followUps + z.followUps == x.followUps + (y.followUps + z.followUps)
    ensures Plus(Plus(x.given, y.given), z.given) == Plus(x.given, Plus(y.given, z.given))
  {
    PlusThen(x.given, y.given, z.given);
  }

  /** What arrives while a run starts, during the announcement if there is one and during the hook, is for the next turn. */
  lemma StartMeans(s: Harness, r: Run)
    ensures var t := StartRun(s, r);
      && t.given.nextTurn == (if s.nextTurn == [] then [] else r.meanwhile)
        + (if r.announced || s.nextTurn == [] then r.duringHook else [])
      && (t.ok <==> (r.announced || s.nextTurn == []) && r.hook.Some?)
      && (t.ok ==> t.messages == s.nextTurn + [r.prompt] + r.hook.value)
  {
    assert r.meanwhile + [] == r.meanwhile;
  }

  /**
   * Once started, a run is reported to have failed only if it did; the last flush is made in any case. It ends well
   * exactly if the loop or else the report went well, there is a reply, and nothing is left to write.
   */
  lemma FinishMeans(s: Harness, r: Run, otherwise: seq<RunEvent>)
    ensures var (t, loop) := (Finish(s, r), HandleAll(s, r.events));
      var told := HandleAll(loop.state, r.failure);
      && (loop.ok ==> Finish(s, r.(failure := otherwise)) == t)
      && (t.ok <==> (loop.ok || told.ok) && r.answered && t.state.pending == [])
      && t.state.phase == (if loop.ok then loop.state.phase else told.state.phase)
      && (loop.ok ==> loop.state.log <= t.state.log) && (!loop.ok ==> told.state.log <= t.state.log)
  {
    hide HandleAll, Flush, Plus;
    var loop := HandleAll(s, r.events);
    var told := if loop.ok then loop else Then(loop, HandleAll(loop.state, r.failure));
    FlushEmpties(told.state.pending, told.state.log, r.final);
  }

  /** A run that does not start leaves everything but the next-turn queue as it was. */
  lemma ExecuteMeans(s: Harness, r: Run)
    ensures var (start, whole) := (StartRun(s, r), Execute(s, r));
      && (whole.ok <==> start.ok && Finish(start.state, r).ok)
      && (!start.ok ==> whole.state == s.(nextTurn := start.state.nextTurn) && whole.given == start.given)
      && (start.ok ==>
        var rest := Finish(start.state, r);
        whole.state == rest.state && whole.given == Plus(start.given, rest.given))
  {
    hide Finish, Plus;
  }
}

/**
 * What happens to queued messages and deferred session writes between awaits: drains that may fail, and
 * flushes that may fail or overlap.
 */
module HarnessQueues {
  import opened Wrappers

  /* ---------- A queue of messages ---------- */

  type Message = string

  /** A message that has left the queue: handed to a run, or dropped because the run did not start. */
  datatype Handed = Handed(message: Message, reached: bool)

  /** `inHand`: the messages taken off by a drain that is still under way. */
  datatype Queue = Queue(messages: seq<Message>, inHand: Option<seq<Message>>, taken: seq<Handed>)

  const EMPTY_QUEUE := Queue([], None, [])

  /** A drain begins, and is announced, fails and is undone, or is announced for a run that does not start. */
  datatype QueueStep = Push(message: Message) | Begin(all: bool) | Announced | Failed | Abandoned

  predicate CanQueue(q: Queue, e: QueueStep) {
    match e
    case Push(_) => true
    case Begin(_) => q.inHand.None?
    case _ => q.inHand.Some?
  }

  /** What one drain takes off. */
  function Front(all: bool, messages: seq<Message>): (front: seq<Message>)
    ensures front <= messages && (messages != [] ==> front != [])
    ensures all ==> front == messages
    ensures !all ==> |front| <= 1
  {
    if all || messages == [] then messages else messages[..1]
  }

  function HandedAll(messages: seq<Message>, reached: bool): (r: seq<Handed>)
    ensures |r| == |messages|
  {
    seq(|messages|, i requires 0 <= i < |messages| => Handed(messages[i], reached))
  }

  function QueueNext(q: Queue, e: QueueStep): Queue
    requires CanQueue(q, e)
  {
    match e
    case Push(m) => q.(messages := q.messages + [m])
    case Begin(all) =>
      if q.messages == [] then q
      else q.(messages := q.messages[|Front(all, q.messages)|..], inHand := Some(Front(all, q.messages)))
    case Announced => q.(inHand := None, taken := q.taken + HandedAll(q.inHand.value, true))
    case Failed => q.(inHand := None, messages := q.inHand.value + q.messages)
    case Abandoned => q.(inHand := None, taken := q.taken + HandedAll(q.inHand.value, false))
  }

  /** The queue after all of `es`, if they can follow one another. */
  function QueueAfter(q: Queue, es: seq<QueueStep>): Option<Queue> {
    if es == [] then Some(q)
    else
      var n := |es| - 1;
      match QueueAfter(q, es[..n])
      case Some(p) => if CanQueue(p, es[n]) then Some(QueueNext(p, es[n])) else None
      case None => None
  }

  function Held(q: Queue): seq<Message> {
    if q.inHand.Some? then q.inHand.value else []
  }

  /** The messages of `taken`, whether they reached a run or not. */
  function Messages(taken: seq<Handed>): (r: seq<Message>)
    ensures |r| == |taken|
  {
    seq(|taken|, i requires 0 <= i < |taken| => taken[i].message)
  }

  /** Of those the ones that did, or did not. */
  function Sent(reached: bool, taken: seq<Handed>): seq<Message> {
    if taken == [] then []
    else
      var last := taken[|taken| - 1];
      Sent(reached, taken[..|taken| - 1]) + if last.reached == reached then [last.message] else []
  }

  /** Everything that was ever put in, oldest first, wherever it is now. */
  function Ledger(q: Queue): seq<Message> {
    Messages(q.taken) + Held(q) + q.messages
  }

  function Pushed(es: seq<QueueStep>): seq<Message> {
    if es == [] then []
    else
      var last := es[|es| - 1];
      Pushed(es[..|es| - 1]) + if last.Push? then [last.message] else []
  }

  /**
   * However pushes, drains and failed drains follow one another: what was taken, then what a drain holds,
   * then what still waits, is exactly what was pushed, in the order it was pushed. A failed drain puts its
   * messages back ahead of those that came meanwhile, and only an abandoned one loses any.
   */
  lemma {:induction false} NothingLostOrReordered(q: Queue, es: seq<QueueStep>)
    requires QueueAfter(q, es).Some?
    ensures Ledger(QueueAfter(q, es).value) == Ledger(q) + Pushed(es)
    ensures Abandoned !in es ==> Sent(false, QueueAfter(q, es).value.taken) == Sent(false, q.taken)
  {
    hide CanQueue, Ledger, Sent;
    if es != [] {
      var n := |es| - 1;
      NothingLostOrReordered(q, es[..n]);
      var p := QueueAfter(q, es[..n]).value;
      LedgerStep(p, es[n]);
      SentStep(p, es[n]);
    }
  }

  lemma MessagesConcat(a: seq<Handed>, messages: seq<Message>, reached: bool)
    ensures Messages(a + HandedAll(messages, reached)) == Messages(a) + messages
  {
  }

  lemma LedgerStep(q: Queue, e: QueueStep)
    requires CanQueue(q, e)
    ensures Ledger(QueueNext(q, e)) == Ledger(q) + if e.Push? then [e.message] else []
  {
    hide Messages, HandedAll;
    match e
    case Push(_) =>
    case Begin(all) => assert q.messages == Front(all, q.messages) + q.messages[|Front(all, q.messages)|..];
    case Announced => MessagesConcat(q.taken, q.inHand.value, true);
    case Failed =>
    case Abandoned => MessagesConcat(q.taken, q.inHand.value, false);
  }

  lemma SentSnoc(taken: seq<Handed>, h: Handed, reached: bool)
    ensures Sent(reached, taken + [h]) == Sent(reached, taken) + if h.reached == reached then [h.message] else []
  {
    assert (taken + [h])[..|taken|] == taken;
  }

  lemma {:induction false} SentConcat(a: seq<Handed>, messages: seq<Message>, reached: bool)
    ensures Sent(reached, a + HandedAll(messages, reached)) == Sent(reached, a) + messages
    ensures Sent(!reached, a + HandedAll(messages, reached)) == Sent(!reached, a)
  {
    hide Sent;
    if messages == [] {
      assert a + HandedAll(messages, reached) == a;
    } else {
      var n := |messages| - 1;
      SentConcat(a, messages[..n], reached);
      SentSnoc(a + HandedAll(messages[..n], reached), Handed(messages[n], reached), reached);
      SentSnoc(a + HandedAll(messages[..n], reached), Handed(messages[n], reached), !reached);
      assert a + HandedAll(messages, reached) == a + HandedAll(messages[..n], reached) + [Handed(messages[n], reached)];
      assert messages == messages[..n] + [messages[n]];
    }
  }

  lemma SentStep(q: Queue, e: QueueStep)
    requires CanQueue(q, e)
    ensures e != Abandoned ==> Sent(false, QueueNext(q, e).taken) == Sent(false, q.taken)
  {
    hide Sent;
    if e == Announced { SentConcat(q.taken, q.inHand.value, true); }
  }

  lemma QueueSnoc(q: Queue, es: seq<QueueStep>, e: QueueStep)
    requires QueueAfter(q, es).Some? && CanQueue(QueueAfter(q, es).value, e)
    ensures QueueAfter(q, es + [e]) == Some(QueueNext(QueueAfter(q, es).value, e))
    ensures Pushed(es + [e]) == Pushed(es) + if e.Push? then [e.message] else []
  {
    assert (es + [e])[..|es|] == es;
  }

  function Pushes(ms: seq<Message>): seq<QueueStep> {
    if ms == [] then [] else Pushes(ms[..|ms| - 1]) + [Push(ms[|ms| - 1])]
  }

  /** The steps of one drain, of a queue that is empty or not. */
  function DrainSteps(empty: bool, all: bool, announced: bool, meanwhile: seq<Message>): seq<QueueStep> {
    [Begin(all)] + if empty then [] else Pushes(meanwhile) + [if announced then Announced else Failed]
  }

  /* ---------- Deferred session writes ---------- */

  datatype Write =
    | MessageWrite(message: Message)
    | ModelChange(provider: string, modelId: string)
    | ThinkingLevelChange(level: string)
    | ActiveToolsChange(names: seq<string>)
    | Custom(customType: string, data: string)
    | CustomMessage(customType: string, content: string, display: bool, details: string)
    | Label(target: string, text: Option<string>)
    | SessionInfo(name: Option<string>)
    | Leaf(leaf: Option<string>)

  /** An entry of the session log, written directly or by a flush. */
  datatype Entry = Own(write: Write) | Flushed(write: Write)

  /** What a write leaves in the log: a session name that is missing is recorded as empty. */
  function Recorded(w: Write): (r: Write)
    ensures w.SessionInfo? ==> r.SessionInfo? && r.name.Some? && (w.name.Some? ==> r.name == w.name)
    ensures w == SessionInfo(None) ==> r == SessionInfo(Some(""))
    ensures !w.SessionInfo? ==> r == w
  {
    if w.SessionInfo? && w.name.None? then SessionInfo(Some("")) else w
  }

  /** `flushes` maps each flush under way to the write whose append it waits for. */
  datatype Writes = Writes(pending: seq<Write>, log: seq<Entry>, flushes: map<nat, Write>)

  const NO_WRITES := Writes([], [], map[])

  datatype WriteStep =
    | Defer(write: Write)
    | Direct(write: Write)
    | StartFlush(flush: nat)
    | Appended(flush: nat)
    | AppendFailed(flush: nat)

  predicate CanWrite(s: Writes, e: WriteStep) {
    match e
    case Defer(_) => true
    case Direct(_) => true
    case StartFlush(f) => f !in s.flushes
    case Appended(f) => f in s.flushes
    case AppendFailed(f) => f in s.flushes
  }

  /** A flush goes on to the write at the head, or ends when there is none. */
  function Continue(s: Writes, f: nat): Writes {
    s.(flushes := if s.pending == [] then s.flushes - {f} else s.flushes[f := s.pending[0]])
  }

  function WriteNext(s: Writes, e: WriteStep): Writes
    requires CanWrite(s, e)
  {
    match e
    case Defer(w) => s.(pending := s.pending + [w])
    case Direct(w) => s.(log := s.log + [Own(w)])
    case StartFlush(f) => Continue(s, f)
    case Appended(f) =>
      Continue(
        s.(log := s.log + [Flushed(Recorded(s.flushes[f]))], pending := if s.pending == [] then [] else s.pending[1..]), f)
    case AppendFailed(f) => s.(flushes := s.flushes - {f})
  }

  /** No flush starts while another is under way. */
  predicate Alone(s: Writes, e: WriteStep) {
    e.StartFlush? ==> s.flushes == map[]
  }

  /** The writes after all of `es`, if they can follow one another and no two flushes overlap. */
  function WritesAfter(s: Writes, es: seq<WriteStep>): Option<Writes> {
    if es == [] then Some(s)
    else
      var n := |es| - 1;
      match WritesAfter(s, es[..n])
      case Some(t) => if CanWrite(t, es[n]) && Alone(t, es[n]) then Some(WriteNext(t, es[n])) else None
      case None => None
  }

  /** What was deferred, as it is to be recorded. */
  function Deferred(es: seq<WriteStep>): seq<Write> {
    if es == [] then []
    else
      var last := es[|es| - 1];
      Deferred(es[..|es| - 1]) + if last.Defer? then [Recorded(last.write)] else []
  }

  /** What was written directly. */
  function Directly(es: seq<WriteStep>): seq<Write> {
    if es == [] then []
    else
      var last := es[|es| - 1];
      Directly(es[..|es| - 1]) + if last.Direct? then [last.write] else []
  }

  /** The writes in the log that flushes brought there, or that were written directly. */
  function LoggedBy(flushed: bool, log: seq<Entry>): seq<Write> {
    if log == [] then []
    else
      var last := log[|log| - 1];
      LoggedBy(flushed, log[..|log| - 1]) + if last.Flushed? == flushed then [last.write] else []
  }

  function RecordedAll(ws: seq<Write>): (r: seq<Write>)
    ensures |r| == |ws|
  {
    seq(|ws|, i requires 0 <= i < |ws| => Recorded(ws[i]))
  }

  lemma RecordedConcat(a: seq<Write>, b: seq<Write>)
    ensures RecordedAll(a + b) == RecordedAll(a) + RecordedAll(b)
  {
  }

  lemma RecordedOne(w: Write)
    ensures RecordedAll([w]) == [Recorded(w)]
  {
  }

  /** Every deferred write is in the log or waits, in order; everything else in the log was written directly. */
  ghost predicate Accounted(s: Writes, deferred: seq<Write>, directly: seq<Write>) {
    && LoggedBy(true, s.log) + RecordedAll(s.pending) == deferred
    && LoggedBy(false, s.log) == directly
  }

  /** The flush under way, if there is one, waits for the write at the head. */
  ghost predicate AtHead(s: Writes) {
    && (forall f :: f in s.flushes ==> s.pending != [] && s.flushes[f] == s.pending[0])
    && (forall f, g :: f in s.flushes && g in s.flushes ==> f == g)
  }

  lemma LoggedSnoc(log: seq<Entry>, e: Entry)
    ensures LoggedBy(true, log + [e]) == LoggedBy(true, log) + if e.Flushed? then [e.write] else []
    ensures LoggedBy(false, log + [e]) == LoggedBy(false, log) + if e.Own? then [e.write] else []
  {
    assert (log + [e])[..|log|] == log;
  }

  lemma WriteStepKeeps(s: Writes, e: WriteStep)
    requires CanWrite(s, e) && AtHead(s) && Alone(s, e)
    ensures AtHead(WriteNext(s, e))
  {
  }

  lemma WriteStepAccounts(s: Writes, e: WriteStep, deferred: seq<Write>, directly: seq<Write>)
    requires CanWrite(s, e) && AtHead(s) && Accounted(s, deferred, directly)
    ensures Accounted(WriteNext(s, e), deferred + (if e.Defer? then [Recorded(e.write)] else []),
      directly + if e.Direct? then [e.write] else [])
  {
    hide LoggedBy, RecordedAll, AtHead;
    match e
    case Defer(w) =>
      RecordedConcat(s.pending, [w]);
      RecordedOne(w);
    case Direct(w) => LoggedSnoc(s.log, Own(w));
    case Appended(f) => AppendAccounts(s, f);
    case StartFlush(_) =>
    case AppendFailed(_) =>
  }

  lemma AppendAccounts(s: Writes, f: nat)
    requires AtHead(s) && f in s.flushes
    ensures var t := WriteNext(s, Appended(f));
      && LoggedBy(true, t.log) + RecordedAll(t.pending) == LoggedBy(true, s.log) + RecordedAll(s.pending)
      && LoggedBy(false, t.log) == LoggedBy(false, s.log)
  {
    hide LoggedBy, RecordedAll;
    LoggedSnoc(s.log, Flushed(Recorded(s.flushes[f])));
    assert s.pending == [s.pending[0]] + s.pending[1..];
    RecordedConcat([s.pending[0]], s.pending[1..]);
    RecordedOne(s.pending[0]);
  }

  /**
   * As long as flushes do not overlap, what flushes have appended and then what waits is exactly what was
   * deferred, in order, each write once; the rest of the log is what was written directly, in order.
   */
  lemma {:induction false} WrittenOnceInOrder(es: seq<WriteStep>)
    requires WritesAfter(NO_WRITES, es).Some?
    ensures AtHead(WritesAfter(NO_WRITES, es).value)
    ensures Accounted(WritesAfter(NO_WRITES, es).value, Deferred(es), Directly(es))
  {
    hide AtHead, Accounted, CanWrite, Alone;
    if es == [] {
      NothingWritten();
    } else {
      var n := |es| - 1;
      WrittenOnceInOrder(es[..n]);
      WriteStepKeeps(WritesAfter(NO_WRITES, es[..n]).value, es[n]);
      WriteStepAccounts(WritesAfter(NO_WRITES, es[..n]).value, es[n], Deferred(es[..n]), Directly(es[..n]));
      assert Deferred(es[..n]) + [] == Deferred(es[..n]) && Directly(es[..n]) + [] == Directly(es[..n]);
    }
  }

  lemma NothingWritten()
    ensures AtHead(NO_WRITES) && Accounted(NO_WRITES, [], [])
  {
  }

  /** A flush that ends without a failure leaves nothing waiting; a failed write stays at the head. */
  lemma FlushEnds(s: Writes, e: WriteStep)
    requires CanWrite(s, e) && AtHead(s)
    ensures e.Appended? && WriteNext(s, e).flushes == map[] ==> WriteNext(s, e).pending == []
    ensures e.AppendFailed? ==> WriteNext(s, e).pending != [] && WriteNext(s, e).pending[0] == s.flushes[e.flush]
  {
    if e.Appended? && WriteNext(s, e).pending != [] {
      assert e.flush in WriteNext(s, e).flushes;
    }
  }

  /**
   * Two flushes at once: both wait for the same write, and once both appends are through, it is in the log
   * twice and the next write is gone without having been appended. Nothing is amiss only in case
   * that next write is the same one.
   */
  lemma OverlapDuplicates(s: Writes, f: nat, g: nat)
    requires AtHead(s) && f in s.flushes && g != f && g !in s.flushes
    ensures var s1 := WriteNext(s, StartFlush(g));
      var s2 := WriteNext(s1, Appended(f));
      CanWrite(s2, Appended(g)) &&
      var s3 := WriteNext(s2, Appended(g));
      var head := Flushed(Recorded(s.pending[0]));
      && s3.log == s.log + [head, head]
      && s3.pending == (if |s.pending| >= 2 then s.pending[2..] else [])
      && (LoggedBy(true, s3.log) + RecordedAll(s3.pending) == LoggedBy(true, s.log) + RecordedAll(s.pending) <==>
        |s.pending| >= 2 && Recorded(s.pending[1]) == Recorded(s.pending[0]))
  {
    hide LoggedBy;
    var w := Recorded(s.pending[0]);
    var s3 := WriteNext(WriteNext(WriteNext(s, StartFlush(g)), Appended(f)), Appended(g));
    assert s3.log == s.log + [Flushed(w)] + [Flushed(w)] == s.log + [Flushed(w), Flushed(w)];
    LoggedSnoc(s.log, Flushed(w));
    LoggedSnoc(s.log + [Flushed(w)], Flushed(w));
    TwiceOrOnce(LoggedBy(true, s.log), s.pending, s3.pending);
  }

  lemma TwiceOrOnce(done: seq<Write>, before: seq<Write>, after: seq<Write>)
    requires before != [] && after == if |before| >= 2 then before[2..] else []
    ensures var w := Recorded(before[0]);
      done + [w] + [w] + RecordedAll(after) == done + RecordedAll(before) <==>
        |before| >= 2 && Recorded(before[1]) == w
  {
    var w := Recorded(before[0]);
    var (x, y) := (done + [w] + [w] + RecordedAll(after), done + RecordedAll(before));
    if |before| >= 2 {
      assert RecordedAll(before) == [w, Recorded(before[1])] + RecordedAll(after);
      assert x[|done| + 1] == w && y[|done| + 1] == Recorded(before[1]);
    } else {
      assert |x| == |done| + 2 && |y| == |done| + 1;
    }
  }

  /* ---------- One flush as a sequence of steps ---------- */

  lemma WriteSnoc(s: Writes, es: seq<WriteStep>, e: WriteStep)
    requires WritesAfter(s, es).Some? && CanWrite(WritesAfter(s, es).value, e) && Alone(WritesAfter(s, es).value, e)
    ensures WritesAfter(s, es + [e]) == Some(WriteNext(WritesAfter(s, es).value, e))
    ensures Deferred(es + [e]) == Deferred(es) + if e.Defer? then [Recorded(e.write)] else []
    ensures Directly(es + [e]) == Directly(es) + if e.Direct? then [e.write] else []
  {
    assert (es + [e])[..|es|] == es;
  }

  function Defers(ws: seq<Write>): seq<WriteStep> {
    if ws == [] then [] else Defers(ws[..|ws| - 1]) + [Defer(ws[|ws| - 1])]
  }

  lemma {:induction false} WriteDefers(s: Writes, es: seq<WriteStep>, ws: seq<Write>)
    requires WritesAfter(s, es).Some?
    ensures var t := WritesAfter(s, es).value; WritesAfter(s, es + Defers(ws)) == Some(t.(pending := t.pending + ws))
    ensures Deferred(es + Defers(ws)) == Deferred(es) + RecordedAll(ws)
    ensures Directly(es + Defers(ws)) == Directly(es)
  {
    hide WritesAfter, Deferred, Directly, RecordedAll;
    var p := WritesAfter(s, es).value.pending;
    if ws == [] {
      assert es + Defers(ws) == es && p + ws == p;
      assert Deferred(es) + RecordedAll(ws) == Deferred(es);
    } else {
      var n := |ws| - 1;
      WriteDefers(s, es, ws[..n]);
      WriteSnoc(s, es + Defers(ws[..n]), Defer(ws[n]));
      assert es + Defers(ws) == es + Defers(ws[..n]) + [Defer(ws[n])];
      assert ws == ws[..n] + [ws[n]];
      RecordedConcat(ws[..n], [ws[n]]);
      RecordedOne(ws[n]);
      assert p + ws == p + ws[..n] + [ws[n]];
    }
  }

  /** While flush 0 works on `pending`, it waits for its head. */
  function Flushing(pending: seq<Write>, log: seq<Entry>): Writes {
    Writes(pending, log, if pending == [] then map[] else map[0 := pending[0]])
  }

  lemma FlushStarts(es: seq<WriteStep>, pending: seq<Write>, log: seq<Entry>)
    requires WritesAfter(NO_WRITES, es) == Some(Writes(pending, log, map[]))
    ensures WritesAfter(NO_WRITES, es + [StartFlush(0)]) == Some(Flushing(pending, log))
    ensures Deferred(es + [StartFlush(0)]) == Deferred(es) && Directly(es + [StartFlush(0)]) == Directly(es)
  {
    hide WritesAfter, Deferred, Directly;
    WriteSnoc(NO_WRITES, es, StartFlush(0));
  }

  /** One append: what is deferred while it is awaited, and then its outcome. */
  function AppendSteps(ok: bool, meanwhile: seq<Write>): seq<WriteStep> {
    Defers(meanwhile) + [if ok then Appended(0) else AppendFailed(0)]
  }

  lemma FlushGoesOn(es: seq<WriteStep>, pending: seq<Write>, log: seq<Entry>, ok: bool, meanwhile: seq<Write>)
    requires pending != [] && WritesAfter(NO_WRITES, es) == Some(Flushing(pending, log))
    ensures var steps := es + AppendSteps(ok, meanwhile);
      && WritesAfter(NO_WRITES, steps) == Some(
        if ok then Flushing(pending[1..] + meanwhile, log + [Flushed(Recorded(pending[0]))])
        else Writes(pending + meanwhile, log, map[]))
      && Deferred(steps) == Deferred(es) + RecordedAll(meanwhile)
      && Directly(steps) == Directly(es)
  {
    hide WritesAfter, Deferred, Directly, Defers, WriteNext;
    WriteDefers(NO_WRITES, es, meanwhile);
    var last := if ok then Appended(0) else AppendFailed(0);
    WriteSnoc(NO_WRITES, es + Defers(meanwhile), last);
    assert es + AppendSteps(ok, meanwhile) == es + Defers(meanwhile) + [last];
    assert (pending + meanwhile)[1..] == pending[1..] + meanwhile;
    AppendEnds(pending + meanwhile, log);
  }

  lemma AppendEnds(pending: seq<Write>, log: seq<Entry>)
    requires pending != []
    ensures WriteNext(Flushing(pending, log), Appended(0)) == Flushing(pending[1..], log + [Flushed(Recorded(pending[0]))])
    ensures WriteNext(Flushing(pending, log), AppendFailed(0)) == Writes(pending, log, map[])
  {
    assert map[0 := pending[0]] - {0} == map[];
    if |pending| > 1 { assert map[0 := pending[0]][0 := pending[1]] == map[0 := pending[1]]; }
  }
}

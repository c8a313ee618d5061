/**
 At-least-once delivery: a Redis stream read through a consumer group (uli/ingestion/queue.py) by the
 worker loop (uli/workers/runner.py), as steps of the server and of any number of named workers.
 A read and an acknowledgement are atomic, and the stream is not trimmed.
 */
module Delivery {
  import opened Basics

  type Id = nat

  /** Where a worker process is in its loop. */
  datatype Worker =
    | Down                                      // no process of this name runs
    | Idle(first: bool)                         // about to read, from "0" the first time and from ">" later
    | Scanning(todo: seq<Id>, batch: seq<Id>)   // walking a reply, acknowledging poison messages
    | Yielded(batch: seq<Id>)                   // the batch is with the worker loop
    | Processed(batch: seq<Id>)                 // the pipeline has had the batch, the acknowledgement is due

  /** `count` bounds one read; `poison` messages cannot be decoded. */
  datatype Config = Config(count: nat, poison: Id -> bool)

  datatype State = State(
    published: nat,            // the stream holds the messages 0, 1, ..., published - 1
    delivered: nat,            // the group's cursor: the next message nobody was given yet
    pending: map<Id, string>,  // delivered and not acknowledged, by consumer
    acked: set<Id>,
    handed: seq<Id>,           // everything ever handed to the pipeline, in order
    workers: map<string, Worker>)

  const INITIAL := State(0, 0, map[], {}, [], map[])

  function WorkerAt(s: State, c: string): Worker { if c in s.workers then s.workers[c] else Down }

  function PendingOf(s: State, c: string): set<Id> { set e | e in s.pending && s.pending[e] == c }

  // ------------------------------------------------------------ steps

  datatype Step =
    | Publish
    | Start(c: string)
    | Read(c: string, reply: seq<Id>)
    | ReadFails(c: string)
    | Scan(c: string)
    | Yield(c: string)
    | Stop(c: string)      // the stop flag is seen: the batch in hand is left as it is
    | Process(c: string)
    | Ack(c: string)
    | Crash(c: string)

  predicate Increasing(ids: seq<Id>) { forall i, j :: 0 <= i < j < |ids| ==> ids[i] < ids[j] }

  function Elements(ids: seq<Id>): set<Id> { set e | e in ids }

  /** Reading from "0": the consumer's oldest pending messages, at most `count`. */
  predicate IsHistory(cfg: Config, s: State, c: string, reply: seq<Id>) {
    && Increasing(reply)
    && Elements(reply) <= PendingOf(s, c)
    && |reply| == Min(cfg.count, |PendingOf(s, c)|)
    && forall e, f :: e in PendingOf(s, c) && e !in reply && f in reply ==> f < e
  }

  /** Reading from ">": the next undelivered messages, at most `count`. */
  predicate IsNews(cfg: Config, s: State, reply: seq<Id>) {
    s.delivered <= s.published
    && reply == seq(Min(cfg.count, s.published - s.delivered), (i: nat) => s.delivered + i)
  }

  predicate Enabled(cfg: Config, s: State, step: Step) {
    match step
    case Publish => true
    case Start(c) => WorkerAt(s, c).Down?
    case Read(c, reply) =>
      var w := WorkerAt(s, c);
      w.Idle? && if w.first then IsHistory(cfg, s, c, reply) else IsNews(cfg, s, reply)
    case ReadFails(c) => WorkerAt(s, c).Idle?
    case Scan(c) => WorkerAt(s, c).Scanning? && WorkerAt(s, c).todo != []
    case Yield(c) => WorkerAt(s, c).Scanning? && WorkerAt(s, c).todo == []
    case Stop(c) => WorkerAt(s, c).Yielded?
    case Process(c) => WorkerAt(s, c).Yielded?
    case Ack(c) => WorkerAt(s, c).Processed?
    case Crash(c) => true
  }

  function Acknowledged(s: State, ids: set<Id>): State {
    s.(pending := s.pending - ids, acked := s.acked + (ids * s.pending.Keys))
  }

  function Assigned(s: State, c: string, reply: seq<Id>): State {
    s.(pending := s.pending + map e | e in reply :: c, delivered := s.delivered + |reply|)
  }

  function Moved(s: State, c: string, w: Worker): State { s.(workers := s.workers[c := w]) }

  function Next(cfg: Config, s: State, step: Step): State
    requires Enabled(cfg, s, step)
  {
    match step
    case Publish => s.(published := s.published + 1)
    case Start(c) => Moved(s, c, Idle(true))
    case Read(c, reply) => Moved(if WorkerAt(s, c).first then s else Assigned(s, c, reply), c, Scanning(reply, []))
    case ReadFails(c) => s
    case Scan(c) =>
      var w := WorkerAt(s, c);
      var e := w.todo[0];
      if cfg.poison(e) then Moved(Acknowledged(s, {e}), c, Scanning(w.todo[1..], w.batch))
      else Moved(s, c, Scanning(w.todo[1..], w.batch + [e]))
    case Yield(c) => Moved(s, c, Yielded(WorkerAt(s, c).batch))
    case Stop(c) => Moved(s, c, Down)
    case Process(c) => Moved(s.(handed := s.handed + WorkerAt(s, c).batch), c, Processed(WorkerAt(s, c).batch))
    case Ack(c) => Moved(Acknowledged(s, Elements(WorkerAt(s, c).batch)), c, Idle(false))
    case Crash(c) => Moved(s, c, Down)
  }

  // ------------------------------------------------------------ what every step keeps

  predicate Distinct(ids: seq<Id>) { forall i, j :: 0 <= i < j < |ids| ==> ids[i] != ids[j] }

  ghost predicate Holds(s: State, c: string, ids: seq<Id>) {
    Distinct(ids) && PendingOf(s, c) == Elements(ids)
  }

  /** What the server has pending for a worker, by where the worker is. */
  ghost predicate WorkerOk(cfg: Config, s: State, c: string) {
    match WorkerAt(s, c)
    case Down => |PendingOf(s, c)| <= cfg.count
    case Idle(first) => |PendingOf(s, c)| <= cfg.count && (!first ==> PendingOf(s, c) == {})
    case Scanning(todo, batch) =>
      |batch + todo| <= cfg.count && Holds(s, c, batch + todo) && forall e :: e in batch ==> !cfg.poison(e)
    case Yielded(batch) => |batch| <= cfg.count && Holds(s, c, batch) && forall e :: e in batch ==> !cfg.poison(e)
    case Processed(batch) =>
      |batch| <= cfg.count && Holds(s, c, batch) && forall e :: e in batch ==> e in s.handed && !cfg.poison(e)
  }

  /** Every message is undelivered, pending at one consumer, or acknowledged, and acknowledged only
      if it was poison or the pipeline has had it. */
  ghost predicate Accounted(cfg: Config, s: State) {
    && s.delivered <= s.published
    && (forall e: Id :: e < s.delivered <==> e in s.pending || e in s.acked)
    && (forall e: Id :: !(e in s.pending && e in s.acked))
    && (forall e: Id :: e in s.acked ==> cfg.poison(e) || e in s.handed)
    && (forall e: Id :: e in s.handed ==> e < s.delivered)
  }

  ghost predicate Inv(cfg: Config, s: State) {
    Accounted(cfg, s) && forall c :: WorkerOk(cfg, s, c)
  }

  lemma {:induction false} ElementsSize(ids: seq<Id>)
    ensures |Elements(ids)| <= |ids|
    ensures Distinct(ids) ==> |Elements(ids)| == |ids|
  {
    if ids != [] {
      var init, last := ids[..|ids| - 1], ids[|ids| - 1];
      ElementsSize(init);
      assert ids == init + [last];
      assert Elements(ids) == Elements(init) + {last};
      if Distinct(ids) {
        assert last !in Elements(init);
      }
    }
  }

  /** A history read of a consumer with at most `count` pending returns all of them. */
  lemma HistoryIsComplete(cfg: Config, s: State, c: string, reply: seq<Id>)
    requires IsHistory(cfg, s, c, reply) && |PendingOf(s, c)| <= cfg.count
    ensures Elements(reply) == PendingOf(s, c) && Distinct(reply)
  {
    ElementsSize(reply);
    SubsetSize(Elements(reply), PendingOf(s, c));
  }

  /** A worker is unaffected by a step that leaves its place, its pending messages and the hand-over log's members. */
  lemma WorkerFrame(cfg: Config, s: State, s': State, c: string)
    requires WorkerOk(cfg, s, c) && WorkerAt(s', c) == WorkerAt(s, c) && PendingOf(s', c) == PendingOf(s, c)
    requires forall e :: e in s.handed ==> e in s'.handed
    ensures WorkerOk(cfg, s', c)
  {
  }

  lemma AcknowledgedFrame(s: State, ids: set<Id>, c: string, d: string)
    requires ids <= PendingOf(s, c) && c != d
    ensures PendingOf(Acknowledged(s, ids), d) == PendingOf(s, d)
    ensures PendingOf(Acknowledged(s, ids), c) == PendingOf(s, c) - ids
  {
  }

  lemma AcknowledgedAccounted(cfg: Config, s: State, ids: set<Id>)
    requires Accounted(cfg, s) && ids <= s.pending.Keys && forall e :: e in ids ==> cfg.poison(e) || e in s.handed
    ensures Accounted(cfg, Acknowledged(s, ids))
  {
  }

  lemma NewsMembers(cfg: Config, s: State, reply: seq<Id>)
    requires IsNews(cfg, s, reply)
    ensures Distinct(reply) && |reply| <= cfg.count
    ensures forall e :: e in reply <==> s.delivered <= e < s.delivered + |reply|
  {
    forall e | s.delivered <= e < s.delivered + |reply|
      ensures e in reply
    {
      assert reply[e - s.delivered] == e;
    }
  }

  lemma AssignedIsOk(cfg: Config, s: State, c: string, reply: seq<Id>)
    requires Accounted(cfg, s) && IsNews(cfg, s, reply) && PendingOf(s, c) == {}
    ensures Accounted(cfg, Assigned(s, c, reply))
    ensures PendingOf(Assigned(s, c, reply), c) == Elements(reply)
    ensures forall d :: d != c ==> PendingOf(Assigned(s, c, reply), d) == PendingOf(s, d)
  {
    NewsMembers(cfg, s, reply);
    var s' := Assigned(s, c, reply);
    forall d
      ensures PendingOf(s', d) == if d == c then Elements(reply) else PendingOf(s, d)
    {
      forall e
        ensures e in PendingOf(s', d) <==> e in (if d == c then Elements(reply) else PendingOf(s, d))
      {
        assert e in reply ==> e !in s.pending;
        assert e in PendingOf(s, c) ==> false;
      }
    }
  }

  lemma MovedFrame(s: State, c: string, w: Worker, d: string)
    ensures PendingOf(Moved(s, c, w), d) == PendingOf(s, d)
    ensures WorkerAt(Moved(s, c, w), d) == if d == c then w else WorkerAt(s, d)
  {
  }

  /** What a reply leaves pending, before the worker's place is noted. */
  lemma ReadIsOk(cfg: Config, s: State, c: string, reply: seq<Id>)
    requires Accounted(cfg, s) && WorkerOk(cfg, s, c) && Enabled(cfg, s, Read(c, reply))
    ensures var base := if WorkerAt(s, c).first then s else Assigned(s, c, reply);
            && Accounted(cfg, base) && Holds(base, c, reply) && |reply| <= cfg.count
            && forall d :: d != c ==> PendingOf(base, d) == PendingOf(s, d)
  {
    hide PendingOf, Accounted;
    if WorkerAt(s, c).first {
      HistoryIsComplete(cfg, s, c, reply);
      ElementsSize(reply);
    } else {
      AssignedIsOk(cfg, s, c, reply);
      NewsMembers(cfg, s, reply);
    }
  }

  lemma ReadKeepsInv(cfg: Config, s: State, c: string, reply: seq<Id>)
    requires Inv(cfg, s) && Enabled(cfg, s, Read(c, reply))
    ensures Inv(cfg, Next(cfg, s, Read(c, reply)))
  {
    hide PendingOf, Distinct, Accounted, IsHistory, IsNews, Elements;
    assert WorkerOk(cfg, s, c);
    var s' := Next(cfg, s, Read(c, reply));
    var base := if WorkerAt(s, c).first then s else Assigned(s, c, reply);
    ReadIsOk(cfg, s, c, reply);
    MovedAccounted(cfg, base, c, Scanning(reply, []));
    assert [] + reply == reply;
    forall d
      ensures WorkerOk(cfg, s', d)
    {
      MovedFrame(base, c, Scanning(reply, []), d);
      if d != c {
        assert WorkerOk(cfg, s, d);
        WorkerFrame(cfg, s, s', d);
      }
    }
  }

  lemma MovedAccounted(cfg: Config, s: State, c: string, w: Worker)
    requires Accounted(cfg, s)
    ensures Accounted(cfg, Moved(s, c, w))
  {
  }

  lemma ScanKeepsInv(cfg: Config, s: State, c: string)
    requires Inv(cfg, s) && Enabled(cfg, s, Scan(c))
    ensures Inv(cfg, Next(cfg, s, Scan(c)))
  {
    hide PendingOf, Accounted;
    assert WorkerOk(cfg, s, c);
    var w := WorkerAt(s, c);
    var e, rest := w.todo[0], w.todo[1..];
    assert w.todo == [e] + rest;
    var all := w.batch + w.todo;
    assert all == w.batch + [e] + rest;
    assert e in all;
    var poison := cfg.poison(e);
    var base := if poison then Acknowledged(s, {e}) else s;
    var w' := if poison then Scanning(rest, w.batch) else Scanning(rest, w.batch + [e]);
    var s' := Moved(base, c, w');
    if poison {
      PendingOfIsPending(s, c, e);
      AcknowledgedAccounted(cfg, s, {e});
      RemoveOne(w.batch, e, rest);
    }
    MovedAccounted(cfg, base, c, w');
    forall d
      ensures WorkerOk(cfg, s', d)
    {
      MovedFrame(base, c, w', d);
      if d != c {
        if poison { AcknowledgedFrame(s, {e}, c, d); }
        assert WorkerOk(cfg, s, d);
        WorkerFrame(cfg, s, s', d);
      } else if poison {
        AcknowledgedFrame(s, {e}, c, c + "x");
      }
    }
  }

  lemma PendingOfIsPending(s: State, c: string, e: Id)
    requires e in PendingOf(s, c)
    ensures e in s.pending
  {
  }

  lemma RemoveOne(a: seq<Id>, e: Id, b: seq<Id>)
    requires Distinct(a + [e] + b)
    ensures Distinct(a + b) && Elements(a + b) == Elements(a + [e] + b) - {e}
  {
    var all, some := a + [e] + b, a + b;
    assert all[|a|] == e;
    forall i, j | 0 <= i < j < |some|
      ensures some[i] != some[j]
    {
      assert some[i] == all[if i < |a| then i else i + 1] && some[j] == all[if j < |a| then j else j + 1];
    }
    forall x
      ensures x in some <==> x in all && x != e
    {
      if x in all && x != e {
        var i :| 0 <= i < |all| && all[i] == x;
        assert some[if i < |a| then i else i - 1] == x;
      }
      if i :| 0 <= i < |some| && some[i] == x {
        assert all[if i < |a| then i else i + 1] == x;
      }
    }
  }

  lemma AckKeepsInv(cfg: Config, s: State, c: string)
    requires Inv(cfg, s) && Enabled(cfg, s, Ack(c))
    ensures Inv(cfg, Next(cfg, s, Ack(c)))
  {
    hide PendingOf, Accounted, Distinct;
    assert WorkerOk(cfg, s, c);
    var ids := Elements(WorkerAt(s, c).batch);
    forall e | e in ids ensures e in s.pending { PendingOfIsPending(s, c, e); }
    AcknowledgedAccounted(cfg, s, ids);
    var base := Acknowledged(s, ids);
    MovedAccounted(cfg, base, c, Idle(false));
    forall d
      ensures WorkerOk(cfg, Moved(base, c, Idle(false)), d)
    {
      MovedFrame(base, c, Idle(false), d);
      if d != c {
        AcknowledgedFrame(s, ids, c, d);
        assert WorkerOk(cfg, s, d);
        WorkerFrame(cfg, s, Moved(base, c, Idle(false)), d);
      } else {
        AcknowledgedFrame(s, ids, c, c + "x");
        assert PendingOf(base, c) == {};
      }
    }
  }

  /** The remaining steps move one worker, publish, or extend the hand-over log. */
  lemma LocalStepKeepsInv(cfg: Config, s: State, step: Step)
    requires Inv(cfg, s) && Enabled(cfg, s, step) && !step.Read? && !step.Scan? && !step.Ack?
    ensures Inv(cfg, Next(cfg, s, step))
  {
    hide PendingOf, Distinct;
    var s' := Next(cfg, s, step);
    assert Accounted(cfg, s') by {
      if step.Process? {
        assert WorkerOk(cfg, s, step.c);
        forall e | e in s'.handed ensures e < s.delivered {
          if e in WorkerAt(s, step.c).batch {
            assert e in Elements(WorkerAt(s, step.c).batch);
            PendingOfIsPending(s, step.c, e);
          }
        }
      }
    }
    forall d
      ensures WorkerOk(cfg, s', d)
    {
      assert WorkerOk(cfg, s, d);
      SamePending(s, s', d);
      if step.Publish? || step.ReadFails? || d != step.c {
        WorkerFrame(cfg, s, s', d);
      } else {
        if s.workers != s'.workers { assert s'.workers == s.workers[d := WorkerAt(s', d)]; }
        match WorkerAt(s, d) {
          case Scanning(todo, batch) => ElementsSize(batch + todo); assert batch + [] == batch;
          case Yielded(batch) => ElementsSize(batch);
          case Processed(batch) => ElementsSize(batch);
          case _ =>
        }
      }
    }
  }

  lemma SamePending(s: State, s': State, c: string)
    requires s.pending == s'.pending
    ensures PendingOf(s, c) == PendingOf(s', c)
  {
  }

  lemma StepKeepsInv(cfg: Config, s: State, step: Step)
    requires Inv(cfg, s) && Enabled(cfg, s, step)
    ensures Inv(cfg, Next(cfg, s, step))
  {
    hide Inv, Enabled, Next;
    match step {
      case Read(c, reply) => ReadKeepsInv(cfg, s, c, reply);
      case Scan(c) => ScanKeepsInv(cfg, s, c);
      case Ack(c) => AckKeepsInv(cfg, s, c);
      case _ => LocalStepKeepsInv(cfg, s, step);
    }
  }

  // ------------------------------------------------------------ all runs

  ghost predicate IsRun(cfg: Config, states: seq<State>, steps: seq<Step>) {
    && |states| == |steps| + 1 && states[0] == INITIAL
    && forall i :: 0 <= i < |steps| ==>
         Enabled(cfg, states[i], steps[i]) && states[i + 1] == Next(cfg, states[i], steps[i])
  }

  lemma InitialInv(cfg: Config)
    ensures Inv(cfg, INITIAL)
  {
    var s := INITIAL;
    assert s.pending == map[] && s.acked == {} && s.handed == [] && s.delivered == 0;
    assert Accounted(cfg, s);
    forall c ensures WorkerOk(cfg, s, c) { assert PendingOf(s, c) == {}; }
  }

  lemma {:induction false} RunKeepsInv(cfg: Config, states: seq<State>, steps: seq<Step>, n: nat)
    requires IsRun(cfg, states, steps) && n <= |steps|
    ensures Inv(cfg, states[n])
  {
    hide Inv, Enabled, Next;
    if n == 0 {
      InitialInv(cfg);
    } else {
      RunKeepsInv(cfg, states, steps, n - 1);
      StepKeepsInv(cfg, states[n - 1], steps[n - 1]);
    }
  }

  /** At every moment of every run: no message is lost, none is acknowledged before the pipeline had it unless
      it is poison, and no consumer ever has more than `count` messages pending. */
  lemma NothingIsLost(cfg: Config, states: seq<State>, steps: seq<Step>, n: nat, e: Id, c: string)
    requires IsRun(cfg, states, steps) && n <= |steps| && e < states[n].published
    ensures var s := states[n];
            && ((e >= s.delivered && e !in s.pending && e !in s.acked)
                || (e in s.pending && e !in s.acked) || (e !in s.pending && e in s.acked))
            && (e in s.acked ==> cfg.poison(e) || e in s.handed)
            && |PendingOf(s, c)| <= cfg.count
  {
    RunKeepsInv(cfg, states, steps, n);
    var s := states[n];
    assert WorkerOk(cfg, s, c);
    match WorkerAt(s, c) {
      case Scanning(todo, batch) => ElementsSize(batch + todo);
      case Yielded(batch) => ElementsSize(batch);
      case Processed(batch) => ElementsSize(batch);
      case _ =>
    }
  }

  /** The one read from "0" after a start under the same name returns everything the name had pending, the
      batch left by a stop or a crash included; and a worker that reads new messages has none pending. */
  lemma RestartRecoversEverything(cfg: Config, states: seq<State>, steps: seq<Step>, n: nat)
    requires IsRun(cfg, states, steps) && n < |steps| && steps[n].Read?
    ensures var c := steps[n].c;
            && (WorkerAt(states[n], c).first ==> Elements(steps[n].reply) == PendingOf(states[n], c))
            && (!WorkerAt(states[n], c).first ==> PendingOf(states[n], c) == {})
  {
    RunKeepsInv(cfg, states, steps, n);
    var s, c := states[n], steps[n].c;
    assert WorkerOk(cfg, s, c);
    if WorkerAt(s, c).first { HistoryIsComplete(cfg, s, c, steps[n].reply); }
  }

  // ------------------------------------------------------------ when delivery is exactly once

  /** A process dies after the pipeline had its batch and before the acknowledgement. */
  ghost predicate DiesUnacknowledged(s: State, step: Step) { step.Crash? && WorkerAt(s, step.c).Processed? }

  ghost predicate InProcessed(s: State, e: Id) {
    exists c :: WorkerAt(s, c).Processed? && e in WorkerAt(s, c).batch
  }

  /** Handed once each, and then either acknowledged or about to be. */
  ghost predicate HandedOnce(s: State) {
    Distinct(s.handed) && forall e :: e in s.handed ==> e in s.acked || InProcessed(s, e)
  }

  lemma InProcessedSurvives(cfg: Config, s: State, step: Step, e: Id)
    requires Inv(cfg, s) && Enabled(cfg, s, step) && !DiesUnacknowledged(s, step) && InProcessed(s, e)
    ensures InProcessed(Next(cfg, s, step), e) || e in Next(cfg, s, step).acked
  {
    hide Accounted, Distinct, IsHistory, IsNews;
    var c :| WorkerAt(s, c).Processed? && e in WorkerAt(s, c).batch;
    assert WorkerOk(cfg, s, c);
    assert e in Elements(WorkerAt(s, c).batch);
    PendingOfIsPending(s, c, e);
    var s' := Next(cfg, s, step);
    if step != Ack(c) {
      assert WorkerAt(s', c) == WorkerAt(s, c);
    }
  }

  lemma StepKeepsHandedOnce(cfg: Config, s: State, step: Step)
    requires Inv(cfg, s) && Enabled(cfg, s, step) && !DiesUnacknowledged(s, step) && HandedOnce(s)
    ensures HandedOnce(Next(cfg, s, step))
  {
    hide IsHistory, IsNews, Inv, DiesUnacknowledged, InProcessed;
    var s' := Next(cfg, s, step);
    assert s.acked <= s'.acked;
    forall e | e in s.handed
      ensures e in s'.acked || InProcessed(s', e)
    {
      if e !in s.acked { InProcessedSurvives(cfg, s, step, e); }
    }
    if step.Process? {
      FreshBatch(cfg, s, step.c);
    } else {
      assert s'.handed == s.handed;
    }
  }

  lemma ProcessedIsPending(cfg: Config, s: State, c: string, e: Id)
    requires Inv(cfg, s) && WorkerAt(s, c).Processed? && e in WorkerAt(s, c).batch
    ensures e in PendingOf(s, c)
  {
    assert WorkerOk(cfg, s, c);
    assert e in Elements(WorkerAt(s, c).batch);
  }

  lemma FreshBatch(cfg: Config, s: State, c: string)
    requires Inv(cfg, s) && HandedOnce(s) && WorkerAt(s, c).Yielded?
    ensures var batch := WorkerAt(s, c).batch;
            && Distinct(s.handed + batch)
            && forall e :: e in batch ==> InProcessed(Next(cfg, s, Process(c)), e)
  {
    assert WorkerOk(cfg, s, c);
    var batch, s' := WorkerAt(s, c).batch, Next(cfg, s, Process(c));
    forall e | e in batch
      ensures e !in s.handed && InProcessed(s', e)
    {
      assert e in Elements(batch);
      assert e in PendingOf(s, c);
      assert WorkerAt(s', c).Processed? && e in WorkerAt(s', c).batch;
      forall d | WorkerAt(s, d).Processed? && e in WorkerAt(s, d).batch
        ensures d == c
      {
        ProcessedIsPending(cfg, s, d, e);
      }
    }
    var all := s.handed + batch;
    forall i, j | 0 <= i < j < |all|
      ensures all[i] != all[j]
    {
      if i < |s.handed| <= j { assert all[j] in batch && all[i] in s.handed; }
    }
  }

  /** Unless some process dies between processing and acknowledging, the pipeline gets no message twice. */
  lemma {:induction false} ExactlyOnceWithoutSuchCrash(cfg: Config, states: seq<State>, steps: seq<Step>, n: nat)
    requires IsRun(cfg, states, steps) && n <= |steps|
    requires forall i :: 0 <= i < n ==> !DiesUnacknowledged(states[i], steps[i])
    ensures HandedOnce(states[n])
  {
    hide HandedOnce, Inv, Enabled, Next, DiesUnacknowledged;
    if n == 0 {
      NothingHanded();
    } else {
      ExactlyOnceWithoutSuchCrash(cfg, states, steps, n - 1);
      RunKeepsInv(cfg, states, steps, n - 1);
      StepKeepsHandedOnce(cfg, states[n - 1], steps[n - 1]);
    }
  }

  lemma NothingHanded()
    ensures HandedOnce(INITIAL)
  {
  }

  function Publishes(steps: seq<Step>, n: nat): nat
    requires n <= |steps|
  {
    if n == 0 then 0 else Publishes(steps, n - 1) + if steps[n - 1].Publish? then 1 else 0
  }

  /** The stream holds what was published, no more and no less. */
  lemma {:induction false} StreamHoldsPublished(cfg: Config, states: seq<State>, steps: seq<Step>, n: nat)
    requires IsRun(cfg, states, steps) && n <= |steps|
    ensures states[n].published == Publishes(steps, n)
  {
    hide IsHistory, IsNews;
    if n > 0 { StreamHoldsPublished(cfg, states, steps, n - 1); }
  }

  // ------------------------------------------------------------ order

  /** What a worker has in hand is in stream order. */
  ghost predicate InOrder(s: State, c: string) {
    match WorkerAt(s, c)
    case Scanning(todo, batch) => Increasing(batch + todo)
    case Yielded(batch) => Increasing(batch)
    case Processed(batch) => Increasing(batch)
    case _ => true
  }

  lemma {:induction false} StepKeepsOrder(cfg: Config, s: State, step: Step, c: string)
    requires Enabled(cfg, s, step) && InOrder(s, c)
    ensures InOrder(Next(cfg, s, step), c)
  {
    hide Increasing, IsHistory, IsNews;
    var w := WorkerAt(s, c);
    match step {
      case Read(d, reply) =>
        ReplyIsOrdered(cfg, s, d, reply);
        assert [] + reply == reply;
      case Scan(d) =>
        if d == c {
          assert w.batch + w.todo == w.batch + [w.todo[0]] + w.todo[1..];
          DropOne(w.batch, w.todo[0], w.todo[1..]);
        }
      case Yield(d) => if d == c { assert w.batch + [] == w.batch; }
      case _ =>
    }
  }

  lemma ReplyIsOrdered(cfg: Config, s: State, c: string, reply: seq<Id>)
    requires Enabled(cfg, s, Read(c, reply))
    ensures Increasing(reply)
  {
  }

  lemma DropOne(a: seq<Id>, e: Id, b: seq<Id>)
    requires Increasing(a + [e] + b)
    ensures Increasing(a + b)
  {
    var all, some := a + [e] + b, a + b;
    forall i, j | 0 <= i < j < |some|
      ensures some[i] < some[j]
    {
      assert some[i] == all[if i < |a| then i else i + 1] && some[j] == all[if j < |a| then j else j + 1];
    }
  }

  /** In every run each batch is handed over in stream order. */
  lemma {:induction false} BatchesAreOrdered(cfg: Config, states: seq<State>, steps: seq<Step>, n: nat, c: string)
    requires IsRun(cfg, states, steps) && n <= |steps|
    ensures InOrder(states[n], c)
  {
    hide InOrder, Enabled, Next;
    if n == 0 {
      NothingInHand(c);
    } else {
      BatchesAreOrdered(cfg, states, steps, n - 1, c);
      StepKeepsOrder(cfg, states[n - 1], steps[n - 1], c);
    }
  }

  lemma NothingInHand(c: string)
    ensures InOrder(INITIAL, c)
  {
  }

  // ------------------------------------------------------------ progress

  /** These steps can be taken one after the other. */
  ghost predicate Leads(cfg: Config, s: State, steps: seq<Step>, s': State)
    decreases |steps|
  {
    if steps == [] then s == s'
    else Enabled(cfg, s, steps[0]) && Leads(cfg, Next(cfg, s, steps[0]), steps[1..], s')
  }

  /** Steps of one worker's own loop, with no stop and no crash. */
  ghost predicate OwnSteps(steps: seq<Step>, c: string) {
    forall i :: 0 <= i < |steps| ==>
      match steps[i]
      case Read(d, _) => d == c
      case Scan(d) => d == c
      case Yield(d) => d == c
      case Process(d) => d == c
      case Ack(d) => d == c
      case _ => false
  }

  lemma {:induction false} LeadsOn(cfg: Config, s: State, a: seq<Step>, s1: State, b: seq<Step>, s2: State)
    requires Leads(cfg, s, a, s1) && Leads(cfg, s1, b, s2)
    ensures Leads(cfg, s, a + b, s2)
    decreases |a|
  {
    hide Enabled, Next;
    if a == [] {
      assert a + b == b;
    } else {
      LeadsOn(cfg, Next(cfg, s, a[0]), a[1..], s1, b, s2);
      assert (a + b)[1..] == a[1..] + b;
    }
  }

  /** The messages that can be decoded, in order. */
  function Sane(cfg: Config, ids: seq<Id>): seq<Id> {
    if ids == [] then []
    else Sane(cfg, ids[..|ids| - 1]) + if cfg.poison(ids[|ids| - 1]) then [] else [ids[|ids| - 1]]
  }

  lemma {:induction false} SaneConcat(cfg: Config, a: seq<Id>, b: seq<Id>)
    ensures Sane(cfg, a + b) == Sane(cfg, a) + Sane(cfg, b)
    decreases |b|
  {
    if b == [] {
      assert a + b == a;
    } else {
      SaneConcat(cfg, a, b[..|b| - 1]);
      assert (a + b)[..|a + b| - 1] == a + b[..|b| - 1];
    }
  }

  /** The cursor, the other workers and the hand-over log are as before, and nothing has become pending. */
  ghost predicate OnlyAcks(s: State, s': State, c: string) {
    && s'.published == s.published && s'.delivered == s.delivered && s'.handed == s.handed
    && (forall e :: e in s'.pending ==> e in s.pending && s'.pending[e] == s.pending[e])
    && (forall d :: d != c ==> WorkerAt(s', d) == WorkerAt(s, d))
  }

  lemma OnlyAcksTransitive(a: State, b: State, c: State, d: string)
    requires OnlyAcks(a, b, d) && OnlyAcks(b, c, d)
    ensures OnlyAcks(a, c, d)
  {
  }

  lemma ScanTakesOne(cfg: Config, s: State, c: string)
    requires WorkerAt(s, c).Scanning? && WorkerAt(s, c).todo != []
    ensures Enabled(cfg, s, Scan(c))
    ensures var w, s' := WorkerAt(s, c), Next(cfg, s, Scan(c));
            && OnlyAcks(s, s', c)
            && WorkerAt(s', c) == Scanning(w.todo[1..], w.batch + Sane(cfg, [w.todo[0]]))
  {
    hide PendingOf;
    var w := WorkerAt(s, c);
    assert Sane(cfg, [w.todo[0]]) == if cfg.poison(w.todo[0]) then [] else [w.todo[0]] by {
      assert [w.todo[0]][..0] == [];
    }
    assert w.batch + [] == w.batch;
  }

  lemma {:induction false} ScansToTheEnd(cfg: Config, s: State, c: string) returns (steps: seq<Step>, s': State)
    requires Inv(cfg, s) && WorkerAt(s, c).Scanning?
    ensures Leads(cfg, s, steps, s') && OwnSteps(steps, c) && Inv(cfg, s') && OnlyAcks(s, s', c)
    ensures WorkerAt(s', c) == Scanning([], WorkerAt(s, c).batch + Sane(cfg, WorkerAt(s, c).todo))
    decreases |WorkerAt(s, c).todo|
  {
    hide Inv, Enabled, Next, Sane, OnlyAcks;
    var w := WorkerAt(s, c);
    if w.todo == [] {
      steps, s' := [], s;
      NothingAcked(cfg, s, c);
      assert w.batch + [] == w.batch;
    } else {
      ScanTakesOne(cfg, s, c);
      StepKeepsInv(cfg, s, Scan(c));
      var s1 := Next(cfg, s, Scan(c));
      steps, s' := ScansToTheEnd(cfg, s1, c);
      OnlyAcksTransitive(s, s1, s', c);
      var e, rest := w.todo[0], w.todo[1..];
      assert w.todo == [e] + rest;
      SaneConcat(cfg, [e], rest);
      assert (w.batch + Sane(cfg, [e])) + Sane(cfg, rest) == w.batch + (Sane(cfg, [e]) + Sane(cfg, rest));
      steps := [Scan(c)] + steps;
    }
  }

  lemma NothingAcked(cfg: Config, s: State, c: string)
    ensures OnlyAcks(s, s, c) && Sane(cfg, []) == []
  {
  }

  /** One turn of the worker loop on a reply: what can be decoded is handed over in order, and all of it is
      acknowledged. */
  lemma {:induction false} TurnServesReply(cfg: Config, s: State, c: string, reply: seq<Id>)
    returns (steps: seq<Step>, s': State)
    requires Inv(cfg, s) && Enabled(cfg, s, Read(c, reply))
    ensures Leads(cfg, s, steps, s') && OwnSteps(steps, c) && Inv(cfg, s') && WorkerAt(s', c) == Idle(false)
    ensures s'.published == s.published
    ensures s'.delivered == s.delivered + if WorkerAt(s, c).first then 0 else |reply|
    ensures s'.handed == s.handed + Sane(cfg, reply)
    ensures Elements(reply) <= s'.acked && s.acked <= s'.acked
  {
    hide Inv, IsHistory, IsNews, Leads, Sane, Elements;
    StepKeepsInv(cfg, s, Read(c, reply));
    var s1 := Next(cfg, s, Read(c, reply));
    var scans, s2 := ScansToTheEnd(cfg, s1, c);
    assert [] + Sane(cfg, reply) == Sane(cfg, reply);
    var s3, s4 := FinishesTurn(cfg, s2, c);
    s' := s4;
    steps := [Read(c, reply)] + scans + [Yield(c), Process(c), Ack(c)];
    OneStep(cfg, s, Read(c, reply));
    LeadsOn(cfg, s, [Read(c, reply)], s1, scans, s2);
    LeadsOn(cfg, s, [Read(c, reply)] + scans, s2, [Yield(c), Process(c), Ack(c)], s4);
    ReplyIsAcked(cfg, s, c, reply, s1, s2, s4);
  }

  lemma OneStep(cfg: Config, s: State, step: Step)
    requires Enabled(cfg, s, step)
    ensures Leads(cfg, s, [step], Next(cfg, s, step))
  {
    hide Enabled, Next;
  }

  lemma FinishesTurn(cfg: Config, s: State, c: string) returns (s1: State, s': State)
    requires Inv(cfg, s) && WorkerAt(s, c).Scanning? && WorkerAt(s, c).todo == []
    ensures Leads(cfg, s, [Yield(c), Process(c), Ack(c)], s') && Inv(cfg, s') && WorkerAt(s', c) == Idle(false)
    ensures s'.published == s.published && s'.delivered == s.delivered
    ensures s'.handed == s.handed + WorkerAt(s, c).batch
    ensures forall e :: e in s'.pending ==> e in s.pending && s'.pending[e] == s.pending[e]
  {
    hide Inv;
    s1 := Next(cfg, s, Yield(c));
    StepKeepsInv(cfg, s, Yield(c));
    var s2 := Next(cfg, s1, Process(c));
    StepKeepsInv(cfg, s1, Process(c));
    s' := Next(cfg, s2, Ack(c));
    StepKeepsInv(cfg, s2, Ack(c));
    assert Leads(cfg, s2, [Ack(c)], s');
    LeadsOn(cfg, s1, [Process(c)], s2, [Ack(c)], s') by { assert Leads(cfg, s1, [Process(c)], s2); }
    LeadsOn(cfg, s, [Yield(c)], s1, [Process(c)] + [Ack(c)], s') by { assert Leads(cfg, s, [Yield(c)], s1); }
    assert [Yield(c)] + ([Process(c)] + [Ack(c)]) == [Yield(c), Process(c), Ack(c)];
  }

  lemma ReplyIsAcked(cfg: Config, s: State, c: string, reply: seq<Id>, s1: State, s2: State, s': State)
    requires Inv(cfg, s) && Enabled(cfg, s, Read(c, reply)) && s1 == Next(cfg, s, Read(c, reply)) && Inv(cfg, s1)
    requires OnlyAcks(s1, s2, c) && Inv(cfg, s') && s'.delivered == s2.delivered && WorkerAt(s', c) == Idle(false)
    requires forall e :: e in s'.pending ==> e in s2.pending && s'.pending[e] == s2.pending[e]
    ensures Elements(reply) <= s'.acked && s.acked <= s'.acked
  {
    hide IsHistory, IsNews;
    assert WorkerOk(cfg, s1, c);
    assert WorkerOk(cfg, s', c);
    assert PendingOf(s1, c) == Elements([] + reply) && [] + reply == reply;
    forall e | e in Elements(reply)
      ensures e in s'.acked
    {
      assert e in PendingOf(s1, c);
      assert e in s'.pending ==> e in PendingOf(s', c);
    }
    forall e | e in s.acked
      ensures e in s'.acked
    {
      assert e !in s1.pending;
    }
  }

  function Interval(from: nat, to: nat): seq<Id>
    requires from <= to
  {
    seq(to - from, (i: nat) => from + i)
  }

  lemma NewsCanBeRead(cfg: Config, s: State, c: string)
    requires WorkerAt(s, c) == Idle(false) && s.delivered <= s.published
    ensures var n := Min(cfg.count, s.published - s.delivered);
            Enabled(cfg, s, Read(c, Interval(s.delivered, s.delivered + n)))
  {
  }

  /** A worker left to itself reads the stream to its end, and hands over every message that can be decoded, in
      order. */
  lemma {:induction false} StreamIsServed(cfg: Config, s: State, c: string) returns (steps: seq<Step>, s': State)
    requires Inv(cfg, s) && cfg.count > 0 && WorkerAt(s, c) == Idle(false)
    ensures Leads(cfg, s, steps, s') && OwnSteps(steps, c) && Inv(cfg, s') && WorkerAt(s', c) == Idle(false)
    ensures s.delivered <= s.published && s'.delivered == s'.published == s.published
    ensures s'.handed == s.handed + Sane(cfg, Interval(s.delivered, s.published))
    ensures s.acked <= s'.acked && forall e: Id :: s.delivered <= e < s.published ==> e in s'.acked
    decreases s.published - s.delivered
  {
    hide Inv, Enabled, Leads, Sane, Next, Interval, Elements, WorkerAt;
    CursorIsInStream(cfg, s);
    if s.delivered == s.published {
      steps, s' := [], s;
      NothingToServe(cfg, s);
    } else {
      var n := Min(cfg.count, s.published - s.delivered);
      var reply, later := Interval(s.delivered, s.delivered + n), Interval(s.delivered + n, s.published);
      NewsCanBeRead(cfg, s, c);
      IntervalsJoin(s.delivered, s.delivered + n, s.published);
      var first, s1 := TurnServesReply(cfg, s, c, reply);
      var rest;
      rest, s' := StreamIsServed(cfg, s1, c);
      steps := first + rest;
      LeadsOn(cfg, s, first, s1, rest, s');
      SaneConcat(cfg, reply, later);
      assert s.handed + (Sane(cfg, reply) + Sane(cfg, later)) == (s.handed + Sane(cfg, reply)) + Sane(cfg, later);
    }
  }

  lemma CursorIsInStream(cfg: Config, s: State)
    requires Inv(cfg, s)
    ensures s.delivered <= s.published
  {
  }

  lemma NothingToServe(cfg: Config, s: State)
    ensures Leads(cfg, s, [], s)
    ensures s.handed + Sane(cfg, Interval(s.delivered, s.delivered)) == s.handed
  {
    assert Interval(s.delivered, s.delivered) == [];
  }

  lemma IntervalsJoin(a: nat, b: nat, c: nat)
    requires a <= b <= c
    ensures Interval(a, c) == Interval(a, b) + Interval(b, c) && |Interval(a, b)| == b - a
    ensures forall e: Id :: a <= e < b ==> e in Elements(Interval(a, b))
  {
    forall e: Id | a <= e < b
      ensures e in Elements(Interval(a, b))
    {
      assert Interval(a, b)[e - a] == e;
    }
  }

  lemma {:induction false} Sorted(ids: set<Id>, n: nat) returns (r: seq<Id>)
    requires forall e :: e in ids ==> e < n
    ensures Increasing(r) && Elements(r) == ids && |r| == |ids|
  {
    if n == 0 {
      r := [];
      assert ids == {};
    } else {
      r := Sorted(ids - {n - 1}, n - 1);
      forall i | 0 <= i < |r| ensures r[i] < n - 1 { assert r[i] in Elements(r); }
      if n - 1 in ids {
        assert ids == (ids - {n - 1}) + {n - 1};
        assert Elements(r + [n - 1]) == Elements(r) + {n - 1};
        r := r + [n - 1];
      } else {
        assert ids - {n - 1} == ids;
      }
    }
  }

  /** After a start the same: first what the name had pending from before, then the rest of the stream; in the end all
      of that is acknowledged. */
  lemma {:induction false} RestartServesEverything(cfg: Config, s: State, c: string)
    returns (left: seq<Id>, steps: seq<Step>, s': State)
    requires Inv(cfg, s) && cfg.count > 0 && WorkerAt(s, c) == Idle(true)
    ensures Leads(cfg, s, steps, s') && OwnSteps(steps, c) && Inv(cfg, s')
    ensures Increasing(left) && Elements(left) == PendingOf(s, c)
    ensures s.delivered <= s.published && s'.delivered == s'.published == s.published
    ensures s'.handed == s.handed + Sane(cfg, left) + Sane(cfg, Interval(s.delivered, s.published))
    ensures forall e: Id :: e in PendingOf(s, c) || s.delivered <= e < s.published ==> e in s'.acked
  {
    hide Inv, Enabled, Leads, Sane, Next, Increasing, Interval, Elements, WorkerAt, PendingOf;
    left := HistoryCanBeRead(cfg, s, c);
    var first, s1 := TurnServesReply(cfg, s, c, left);
    var rest;
    rest, s' := StreamIsServed(cfg, s1, c);
    steps := first + rest;
    LeadsOn(cfg, s, first, s1, rest, s');
  }

  lemma HistoryCanBeRead(cfg: Config, s: State, c: string) returns (left: seq<Id>)
    requires Inv(cfg, s) && WorkerAt(s, c) == Idle(true)
    ensures Increasing(left) && Elements(left) == PendingOf(s, c) && Enabled(cfg, s, Read(c, left))
  {
    assert WorkerOk(cfg, s, c);
    left := Sorted(PendingOf(s, c), s.delivered);
    forall e | e in PendingOf(s, c)
      ensures e in left
    {
      assert e in Elements(left);
    }
  }
}

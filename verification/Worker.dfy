/**
 The worker loop over the pipeline (uli/workers/runner.py with uli/pipeline.py): which acknowledged messages have
 their events stored. A batch that raises is logged and acknowledged like any other.
 */
module Worker {
  import opened Delivery
  import Pipeline

  /** The envelope in each message, and which statements fail while the batch of step i is processed. */
  datatype Job<!C, !R> = Job(w: Pipeline.World<C, R>, envelope: Id -> Pipeline.Envelope, faults: nat -> Pipeline.Faults)

  function Envelopes<C, R>(job: Job<C, R>, ids: seq<Id>): (envs: seq<Pipeline.Envelope>)
    ensures |envs| == |ids| && forall i :: 0 <= i < |ids| ==> envs[i] == job.envelope(ids[i])
  {
    seq(|ids|, i requires 0 <= i < |ids| => job.envelope(ids[i]))
  }

  /** No payload of the batch keeps it from being processed. */
  ghost predicate Clean<C, R>(job: Job<C, R>, ids: seq<Id>) {
    Pipeline.AllDecodable(job.w, Envelopes(job, ids))
  }

  /** The batch that the worker of a step has in hand. */
  function BatchAt(s: State, step: Step): seq<Id> {
    if step.Process? || step.Ack? then
      match WorkerAt(s, step.c)
      case Yielded(batch) => batch
      case Processed(batch) => batch
      case _ => []
    else []
  }

  /** The tables after the first n steps. */
  ghost function Tables<C, R>(job: Job<C, R>, st: Pipeline.State<C, R>, states: seq<State>, steps: seq<Step>, n: nat)
    : Pipeline.State<C, R>
    requires n <= |steps| < |states|
  {
    if n == 0 then st
    else
      var before, ids := Tables(job, st, states, steps, n - 1), BatchAt(states[n - 1], steps[n - 1]);
      if steps[n - 1].Process? then Pipeline.Batch(job.w, before, Envelopes(job, ids), job.faults(n - 1)).0 else before
  }

  /** The messages for which the pipeline returned an event in the first n steps. */
  ghost function Answered<C, R>(job: Job<C, R>, states: seq<State>, steps: seq<Step>, n: nat): set<Id>
    requires n <= |steps| < |states|
  {
    if n == 0 then {}
    else
      var before, ids := Answered(job, states, steps, n - 1), BatchAt(states[n - 1], steps[n - 1]);
      before + if steps[n - 1].Process? && Clean(job, ids) then Elements(ids) else {}
  }

  lemma CleanMember<C, R>(job: Job<C, R>, ids: seq<Id>, e: Id)
    requires Clean(job, ids) && e in ids
    ensures Pipeline.Decodable(job.w, job.envelope(e))
  {
    var i :| 0 <= i < |ids| && ids[i] == e;
    assert Envelopes(job, ids)[i] == job.envelope(e);
  }

  lemma UncleanMember<C, R>(job: Job<C, R>, ids: seq<Id>) returns (e: Id)
    requires !Clean(job, ids)
    ensures e in ids && !Pipeline.Decodable(job.w, job.envelope(e))
  {
    var i :| 0 <= i < |ids| && !Pipeline.Decodable(job.w, Envelopes(job, ids)[i]);
    e := ids[i];
  }

  lemma {:induction false} AnsweredIsDecodable<C,
      R>(job: Job<C, R>, states: seq<State>, steps: seq<Step>, n: nat, e: Id)
    requires n <= |steps| < |states| && e in Answered(job, states, steps, n)
    ensures Pipeline.Decodable(job.w, job.envelope(e))
  {
    hide Clean;
    if e in Answered(job, states, steps, n - 1) {
      AnsweredIsDecodable(job, states, steps, n - 1, e);
    } else {
      CleanMember(job, BatchAt(states[n - 1], steps[n - 1]), e);
    }
  }

  lemma BecomesProcessed(cfg: Config, s: State, step: Step, c: string)
    requires Enabled(cfg, s, step) && WorkerAt(Next(cfg, s, step), c).Processed?
    ensures var w := WorkerAt(Next(cfg, s, step), c);
            WorkerAt(s, c) == w || (step == Process(c) && BatchAt(s, step) == w.batch)
  {
    hide IsHistory, IsNews;
  }

  /** A batch that has been processed without raising is answered. */
  lemma {:induction false} ProcessedIsAnswered<C, R>(cfg: Config, job: Job<C, R>, states: seq<State>,
      steps: seq<Step>, n: nat, c: string)
    requires IsRun(cfg, states, steps) && n <= |steps| && WorkerAt(states[n], c).Processed?
    requires Clean(job, WorkerAt(states[n], c).batch)
    ensures Elements(WorkerAt(states[n], c).batch) <= Answered(job, states, steps, n)
  {
    hide Clean, Enabled, Next;
    if n > 0 {
      assert Enabled(cfg, states[n - 1], steps[n - 1]) && states[n] == Next(cfg, states[n - 1], steps[n - 1]);
      BecomesProcessed(cfg, states[n - 1], steps[n - 1], c);
      if WorkerAt(states[n - 1], c) == WorkerAt(states[n], c) {
        ProcessedIsAnswered(cfg, job, states, steps, n - 1, c);
      }
    }
  }

  /** Every batch acknowledged in the first n steps had been processed without raising. */
  ghost predicate AcksAreClean<C, R>(job: Job<C, R>, states: seq<State>, steps: seq<Step>, n: nat)
    requires n <= |steps| < |states|
  {
    forall i :: 0 <= i < n && steps[i].Ack? ==> Clean(job, BatchAt(states[i], steps[i]))
  }

  ghost predicate AckedIsAnswered<C, R>(cfg: Config, job: Job<C, R>, states: seq<State>, steps: seq<Step>, n: nat)
    requires n <= |steps| < |states|
  {
    forall e :: e in states[n].acked ==> cfg.poison(e) || e in Answered(job, states, steps, n)
  }

  /** What a step acknowledges. */
  lemma NewlyAcked(cfg: Config, s: State, step: Step, e: Id)
    requires Enabled(cfg, s, step) && e in Next(cfg, s, step).acked && e !in s.acked
    ensures cfg.poison(e) || (step.Ack? && e in BatchAt(s, step))
  {
    hide IsHistory, IsNews;
  }

  lemma {:induction false} CleanAcksAreAnswered<C, R>(cfg: Config, job: Job<C, R>, states: seq<State>,
      steps: seq<Step>, n: nat)
    requires IsRun(cfg, states, steps) && n <= |steps| && AcksAreClean(job, states, steps, n)
    ensures AckedIsAnswered(cfg, job, states, steps, n)
  {
    hide Clean, Enabled, Next;
    if n > 0 {
      CleanAcksAreAnswered(cfg, job, states, steps, n - 1);
      var s, step := states[n - 1], steps[n - 1];
      forall e | e in states[n].acked
        ensures cfg.poison(e) || e in Answered(job, states, steps, n)
      {
        if e !in s.acked {
          NewlyAcked(cfg, s, step, e);
          if !cfg.poison(e) {
            AckIsOfProcessed(cfg, s, step);
            ProcessedIsAnswered(cfg, job, states, steps, n - 1, step.c);
            assert e in Elements(BatchAt(s, step));
          }
        }
      }
    }
  }

  lemma AckIsOfProcessed(cfg: Config, s: State, step: Step)
    requires Enabled(cfg, s, step) && step.Ack?
    ensures WorkerAt(s, step.c).Processed? && BatchAt(s, step) == WorkerAt(s, step.c).batch
  {
  }

  lemma {:induction false} AckedStays(cfg: Config, states: seq<State>, steps: seq<Step>, m: nat, n: nat)
    requires IsRun(cfg, states, steps) && m <= n <= |steps|
    ensures states[m].acked <= states[n].acked
    decreases n
  {
    hide IsHistory, IsNews;
    if m < n {
      AckedStays(cfg, states, steps, m, n - 1);
      assert Enabled(cfg, states[n - 1], steps[n - 1]) && states[n] == Next(cfg, states[n - 1], steps[n - 1]);
    }
  }

  /** An acknowledged batch that raised leaves a message that is acknowledged for good and never answered. */
  lemma UncleanAckIsUnanswered<C, R>(cfg: Config, job: Job<C, R>, states: seq<State>, steps: seq<Step>, i: nat, n: nat)
    requires IsRun(cfg, states, steps) && i < n <= |steps| && steps[i].Ack? && !Clean(job, BatchAt(states[i], steps[i]))
    ensures !AckedIsAnswered(cfg, job, states, steps, n)
  {
    hide Clean, IsHistory, IsNews, Accounted, Distinct;
    var s, step := states[i], steps[i];
    assert Enabled(cfg, s, step) && states[i + 1] == Next(cfg, s, step);
    var e := UncleanMember(job, BatchAt(s, step));
    RunKeepsInv(cfg, states, steps, i);
    assert WorkerOk(cfg, s, step.c);
    assert e in Elements(BatchAt(s, step));
    assert e in PendingOf(s, step.c);
    assert e in states[i + 1].acked;
    AckedStays(cfg, states, steps, i + 1, n);
    if e in Answered(job, states, steps, n) { AnsweredIsDecodable(job, states, steps, n, e); }
  }

  /** At every moment of every run, every acknowledged message is poison or has had its event returned by the pipeline,
      if and only if no acknowledged batch held a payload that is not base64. */
  lemma AckedIsAnsweredIffBatchesAreClean<C,
      R>(cfg: Config, job: Job<C, R>, states: seq<State>, steps: seq<Step>, n: nat)
    requires IsRun(cfg, states, steps) && n <= |steps|
    ensures AckedIsAnswered(cfg, job, states, steps, n) <==> AcksAreClean(job, states, steps, n)
  {
    hide Enabled, Next, Clean, AckedIsAnswered, Answered;
    if AcksAreClean(job, states, steps, n) {
      CleanAcksAreAnswered(cfg, job, states, steps, n);
    } else {
      var i :| 0 <= i < n && steps[i].Ack? && !Clean(job, BatchAt(states[i], steps[i]));
      UncleanAckIsUnanswered(cfg, job, states, steps, i, n);
    }
  }

  // ------------------------------------------------------------ the tables

  /** The events of a batch whose own write works, each with its message. */
  ghost function Stored(ids: seq<Id>, results: seq<Pipeline.Event>, kept: seq<nat>, f: Pipeline.Faults, n: nat)
    : seq<(Id, Pipeline.Event)>
    requires n <= |ids| == |results|
  {
    if n == 0 then []
    else
      Stored(ids, results, kept, f, n - 1)
      + if Pipeline.OwnWriteWorks(f, kept, n - 1) then [(ids[n - 1], results[n - 1])] else []
  }

  ghost function StoredByBatch<C, R>(job: Job<C, R>, st: Pipeline.State<C, R>, ids: seq<Id>, f: Pipeline.Faults)
    : seq<(Id, Pipeline.Event)>
  {
    var envs := Envelopes(job, ids);
    var results := Pipeline.Batch(job.w, st, envs, f).1;
    if results.Some? && |results.value| == |ids|
        then Stored(ids, results.value, Pipeline.KeptOf(job.w, st, envs, f), f, |ids|)
    else []
  }

  /** Everything the first n steps stored, each event with the message it was stored for. */
  ghost function Log<C, R>(job: Job<C, R>, st: Pipeline.State<C, R>, states: seq<State>, steps: seq<Step>, n: nat)
    : seq<(Id, Pipeline.Event)>
    requires n <= |steps| < |states|
  {
    if n == 0 then []
    else
      var before, ids := Tables(job, st, states, steps, n - 1), BatchAt(states[n - 1], steps[n - 1]);
      Log(job, st, states, steps, n - 1)
      + if steps[n - 1].Process? then StoredByBatch(job, before, ids, job.faults(n - 1)) else []
  }

  function EventsOf(log: seq<(Id, Pipeline.Event)>): seq<Pipeline.Event> {
    seq(|log|, i requires 0 <= i < |log| => log[i].1)
  }

  lemma {:induction false} StoredAreWritten(ids: seq<Id>, results: seq<Pipeline.Event>, kept: seq<nat>,
      f: Pipeline.Faults, n: nat)
    requires n <= |ids| == |results|
    ensures EventsOf(Stored(ids, results, kept, f, n)) == Pipeline.Written(results, kept, f, n)
  {
    hide Pipeline.OwnWriteWorks;
    if n > 0 { StoredAreWritten(ids, results, kept, f, n - 1); }
  }

  /** The tables hold what they held at the start and the log, nothing else and nothing twice. */
  lemma {:induction false} TablesHoldTheLog<C,
      R>(job: Job<C, R>, st: Pipeline.State<C, R>, states: seq<State>, steps: seq<Step>, n: nat)
    requires n <= |steps| < |states|
    ensures multiset(Tables(job, st, states, steps, n).events) == multiset(st.events)
            + multiset(EventsOf(Log(job, st, states, steps, n)))
  {
    hide EventsOf, StoredByBatch, Pipeline.Batch;
    NoEvents();
    if n > 0 {
      TablesHoldTheLog(job, st, states, steps, n - 1);
      var ids, f := BatchAt(states[n - 1], steps[n - 1]), job.faults(n - 1);
      var log := Log(job, st, states, steps, n - 1);
      if steps[n - 1].Process? {
        var more := StoredByBatch(job, Tables(job, st, states, steps, n - 1), ids, f);
        BatchStoresItsLog(job, Tables(job, st, states, steps, n - 1), ids, f);
        MoreEvents(log, more);
      } else {
        assert log + [] == log;
      }
    }
  }

  lemma NoEvents()
    ensures EventsOf([]) == []
  {
  }

  lemma MoreEvents(a: seq<(Id, Pipeline.Event)>, b: seq<(Id, Pipeline.Event)>)
    ensures multiset(EventsOf(a + b)) == multiset(EventsOf(a)) + multiset(EventsOf(b))
  {
    assert EventsOf(a + b) == EventsOf(a) + EventsOf(b);
  }

  lemma BatchStoresItsLog<C, R>(job: Job<C, R>, st: Pipeline.State<C, R>, ids: seq<Id>, f: Pipeline.Faults)
    ensures multiset(Pipeline.Batch(job.w, st, Envelopes(job, ids), f).0.events)
            == multiset(st.events) + multiset(EventsOf(StoredByBatch(job, st, ids, f)))
  {
    hide Pipeline.Batch, Pipeline.Written, Pipeline.KeptOf, Stored, EventsOf;
    var envs := Envelopes(job, ids);
    Pipeline.StoredIffOwnWriteWorks(job.w, st, envs, f);
    NoEvents();
    var results := Pipeline.Batch(job.w, st, envs, f).1;
    if results.Some? { StoredAreWritten(ids, results.value, Pipeline.KeptOf(job.w, st, envs, f), f, |ids|); }
  }

  /** Step i processes a batch with this message, no payload of which keeps it from being processed, and the write of
      the
      message's own event works. */
  ghost predicate StoresAt<C, R>(job: Job<C, R>, st: Pipeline.State<C, R>, states: seq<State>, steps: seq<Step>,
      i: nat, e: Id)
    requires i < |steps| < |states|
  {
    var ids := BatchAt(states[i], steps[i]);
    steps[i].Process? && StoresIn(job, Tables(job, st, states, steps, i), ids, job.faults(i), e)
  }

  ghost predicate StoresIn<C, R>(job: Job<C, R>, st: Pipeline.State<C, R>, ids: seq<Id>, f: Pipeline.Faults, e: Id) {
    var kept := Pipeline.KeptOf(job.w, st, Envelopes(job, ids), f);
    Clean(job, ids) && exists k :: 0 <= k < |ids| && ids[k] == e && Pipeline.OwnWriteWorks(f, kept, k)
  }

  predicate Mentions(log: seq<(Id, Pipeline.Event)>, e: Id) { exists i :: 0 <= i < |log| && log[i].0 == e }

  lemma MentionsEither(a: seq<(Id, Pipeline.Event)>, b: seq<(Id, Pipeline.Event)>, e: Id)
    ensures Mentions(a + b, e) <==> Mentions(a, e) || Mentions(b, e)
  {
    if i :| 0 <= i < |a| && a[i].0 == e { assert (a + b)[i].0 == e; }
    if i :| 0 <= i < |b| && b[i].0 == e { assert (a + b)[|a| + i].0 == e; }
  }

  lemma {:induction false} StoredMentions(ids: seq<Id>, results: seq<Pipeline.Event>, kept: seq<nat>,
      f: Pipeline.Faults, n: nat, e: Id)
    requires n <= |ids| == |results|
    ensures Mentions(Stored(ids, results, kept, f, n), e)
            <==> exists k :: 0 <= k < n && ids[k] == e && Pipeline.OwnWriteWorks(f, kept, k)
  {
    hide Pipeline.OwnWriteWorks, Mentions;
    NotMentioned(e);
    if n > 0 {
      StoredMentions(ids, results, kept, f, n - 1, e);
      var last := if Pipeline.OwnWriteWorks(f, kept, n - 1) then [(ids[n - 1], results[n - 1])] else [];
      MentionsEither(Stored(ids, results, kept, f, n - 1), last, e);
      MentionsOne(ids[n - 1], results[n - 1], e);
    }
  }

  lemma NotMentioned(e: Id)
    ensures !Mentions([], e)
  {
  }

  lemma MentionsOne(id: Id, ev: Pipeline.Event, e: Id)
    ensures Mentions([(id, ev)], e) <==> id == e
  {
    assert [(id, ev)][0].0 == id;
  }

  /** A message's event has been stored if and only if its own bulk, single or emergency write worked in some batch of
      base64 payloads that was processed. */
  lemma {:induction false} StoredIffOwnWriteWorks<C,
      R>(job: Job<C, R>, st: Pipeline.State<C, R>, states: seq<State>, steps: seq<Step>,
      n: nat, e: Id)
    requires n <= |steps| < |states|
    ensures Mentions(Log(job, st, states, steps, n), e)
            <==> exists i :: 0 <= i < n && StoresAt(job, st, states, steps, i, e)
  {
    hide Mentions, StoresIn, StoredByBatch, Tables;
    NotMentioned(e);
    if n > 0 {
      StoredIffOwnWriteWorks(job, st, states, steps, n - 1, e);
      var before, ids := Tables(job, st, states, steps, n - 1), BatchAt(states[n - 1], steps[n - 1]);
      var more := if steps[n - 1].Process? then StoredByBatch(job, before, ids, job.faults(n - 1)) else [];
      MentionsEither(Log(job, st, states, steps, n - 1), more, e);
      BatchMentions(job, before, ids, job.faults(n - 1), e);
      assert Log(job, st, states, steps, n) == Log(job, st, states, steps, n - 1) + more;
      assert StoresAt(job, st, states, steps, n - 1, e) <==> Mentions(more, e);
      if i :| 0 <= i < n && StoresAt(job, st, states, steps, i, e) {
        assert i < n - 1 || i == n - 1;
      }
    }
  }

  lemma BatchMentions<C, R>(job: Job<C, R>, st: Pipeline.State<C, R>, ids: seq<Id>, f: Pipeline.Faults, e: Id)
    ensures Mentions(StoredByBatch(job, st, ids, f), e) <==> StoresIn(job, st, ids, f, e)
  {
    hide Pipeline.Batch, Pipeline.KeptOf, Pipeline.OwnWriteWorks, Stored, Mentions;
    var envs := Envelopes(job, ids);
    Pipeline.OneEventPerEnvelope(job.w, st, envs, f);
    NotMentioned(e);
    var results := Pipeline.Batch(job.w, st, envs, f).1;
    if results.Some? { StoredMentions(ids, results.value, Pipeline.KeptOf(job.w, st, envs, f), f, |ids|, e); }
  }

  /** What is stored for a message answers it. */
  lemma {:induction false} LogAnswers<C,
      R>(job: Job<C, R>, st: Pipeline.State<C, R>, states: seq<State>, steps: seq<Step>, n: nat, i: nat)
    requires n <= |steps| < |states| && i < |Log(job, st, states, steps, n)|
    ensures var (e, ev) := Log(job, st, states, steps, n)[i];
            Pipeline.Answers(job.w, ev, job.envelope(e))
  {
    hide StoredByBatch, Tables, Pipeline.Answers;
    var before, ids := Tables(job, st, states, steps, n - 1), BatchAt(states[n - 1], steps[n - 1]);
    var earlier := Log(job, st, states, steps, n - 1);
    if i < |earlier| {
      LogAnswers(job, st, states, steps, n - 1, i);
    } else {
      BatchLogAnswers(job, before, ids, job.faults(n - 1), i - |earlier|);
    }
  }

  lemma BatchLogAnswers<C, R>(job: Job<C, R>, st: Pipeline.State<C, R>, ids: seq<Id>, f: Pipeline.Faults, i: nat)
    requires i < |StoredByBatch(job, st, ids, f)|
    ensures var (e, ev) := StoredByBatch(job, st, ids, f)[i];
            Pipeline.Answers(job.w, ev, job.envelope(e))
  {
    hide Pipeline.Batch, Pipeline.KeptOf, Pipeline.Answers, Stored;
    var envs := Envelopes(job, ids);
    Pipeline.OneEventPerEnvelope(job.w, st, envs, f);
    var results := Pipeline.Batch(job.w, st, envs, f).1.value;
    var k := StoredComesFrom(ids, results, Pipeline.KeptOf(job.w, st, envs, f), f, |ids|, i);
  }

  lemma {:induction false} StoredComesFrom(ids: seq<Id>, results: seq<Pipeline.Event>, kept: seq<nat>,
      f: Pipeline.Faults, n: nat, i: nat)
    returns (k: nat)
    requires n <= |ids| == |results| && i < |Stored(ids, results, kept, f, n)|
    ensures k < n && Stored(ids, results, kept, f, n)[i] == (ids[k], results[k])
  {
    hide Pipeline.OwnWriteWorks;
    if i < |Stored(ids, results, kept, f, n - 1)| {
      k := StoredComesFrom(ids, results, kept, f, n - 1, i);
    } else {
      k := n - 1;
    }
  }

  /** Acknowledged means poison or stored, as long as writes work and no acknowledged batch raised. */
  lemma AckedIsStored<C, R>(cfg: Config, job: Job<C, R>, st: Pipeline.State<C, R>, states: seq<State>,
      steps: seq<Step>, n: nat, e: Id)
    requires IsRun(cfg, states, steps) && n <= |steps| && AcksAreClean(job, states, steps, n)
    requires forall i :: 0 <= i < n ==> Pipeline.WritesWork(job.faults(i), |BatchAt(states[i], steps[i])|)
    requires e in states[n].acked
    ensures cfg.poison(e) || Mentions(Log(job, st, states, steps, n), e)
  {
    hide Enabled, Next, Clean, Answered, Tables, Mentions, Log, Pipeline.WritesWork;
    CleanAcksAreAnswered(cfg, job, states, steps, n);
    if !cfg.poison(e) {
      var i := AnsweredAt(job, states, steps, n, e);
      var ids, f := BatchAt(states[i], steps[i]), job.faults(i);
      var k :| 0 <= k < |ids| && ids[k] == e;
      Pipeline.OwnWriteOf(f, Pipeline.KeptOf(job.w, Tables(job, st, states, steps, i), Envelopes(job, ids), f), |ids|,
          k);
      assert StoresAt(job, st, states, steps, i, e);
      StoredIffOwnWriteWorks(job, st, states, steps, n, e);
    }
  }

  lemma {:induction false} AnsweredAt<C,
      R>(job: Job<C, R>, states: seq<State>, steps: seq<Step>, n: nat, e: Id) returns (i: nat)
    requires n <= |steps| < |states| && e in Answered(job, states, steps, n)
    ensures i < n && steps[i].Process? && Clean(job, BatchAt(states[i], steps[i])) && e in BatchAt(states[i], steps[i])
  {
    hide Clean;
    if e in Answered(job, states, steps, n - 1) {
      i := AnsweredAt(job, states, steps, n - 1, e);
    } else {
      i := n - 1;
    }
  }
}

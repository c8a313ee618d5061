/**
 The collector's batcher (collector/cmd/uli-collector/main.go): lines are buffered per source under a
 mutex, taken as a batch by whichever adder filled the buffer or by the ticker, and posted with
 retries. Critical sections are steps; adders, ticker and senders interleave freely.
 */
module Batcher {
  type Line = string

  const ATTEMPTS: nat := 5

  /** A batch that was taken out of the buffer: how many posts have failed, and whether one succeeded. */
  datatype Task = Task(source: string, lines: seq<Line>, failed: nat, delivered: bool)

  predicate Dropped(t: Task) { !t.delivered && t.failed == ATTEMPTS }

  predicate Sending(t: Task) { !t.delivered && t.failed < ATTEMPTS }

  datatype State = State(
    buf: map<string, seq<Line>>,
    tasks: seq<Task>,              // in the order in which they were taken
    waiting: map<string, nat>,     // adders that saw a full buffer and have not yet flushed it
    ticker: seq<string>,           // the sources the ticker still has to flush in this round
    arrived: map<string, seq<Line>>)

  const INITIAL := State(map[], [], map[], [], map[])

  function BufferOf(buf: map<string, seq<Line>>,
      source: string): seq<Line> { if source in buf then buf[source] else [] }

  function WaitingAt(s: State, source: string): nat { if source in s.waiting then s.waiting[source] else 0 }

  function Arrived(s: State, source: string): seq<Line> { if source in s.arrived then s.arrived[source] else [] }

  /** The batch size from which on an adder flushes; a setting below 1 acts as 1. */
  function Threshold(maxBatch: int): nat { if maxBatch < 1 then 1 else maxBatch }

  datatype Step =
    | Add(source: string, line: Line)
    | Flush(source: string)               // an adder that saw its buffer full
    | Tick(sources: seq<string>)          // the ticker notes the sources there are
    | TickerFlush
    | Attempt(task: nat, ok: bool)

  predicate Enabled(s: State, step: Step) {
    match step
    case Add(_, _) => true
    case Flush(source) => WaitingAt(s, source) > 0
    case Tick(sources) => s.ticker == [] && (set x | x in sources) == s.buf.Keys
    case TickerFlush => s.ticker != []
    case Attempt(i, _) => i < |s.tasks| && Sending(s.tasks[i])
  }

  /** The locked part of a flush: an empty buffer is left alone. */
  function Taken(s: State, source: string): State {
    var lines := BufferOf(s.buf, source);
    if lines == [] then s
    else s.(buf := s.buf - {source}, tasks := s.tasks + [Task(source, lines, 0, false)])
  }

  function Attempted(t: Task, ok: bool): Task {
    if ok then t.(delivered := true) else t.(failed := t.failed + 1)
  }

  function Next(maxBatch: int, s: State, step: Step): State
    requires Enabled(s, step)
  {
    match step
    case Add(source, line) =>
      var lines := BufferOf(s.buf, source) + [line];
      s.(buf := s.buf[source := lines],
         arrived := s.arrived[source := Arrived(s, source) + [line]],
         waiting := if |lines| >= maxBatch then s.waiting[source := WaitingAt(s, source) + 1] else s.waiting)
    case Flush(source) => Taken(s.(waiting := s.waiting[source := WaitingAt(s, source) - 1]), source)
    case Tick(sources) => s.(ticker := sources)
    case TickerFlush => Taken(s.(ticker := s.ticker[1..]), s.ticker[0])
    case Attempt(i, ok) => s.(tasks := s.tasks[i := Attempted(s.tasks[i], ok)])
  }

  // ------------------------------------------------------------ what every step keeps

  /** The lines of the batches taken for one source, in take order. */
  function TakenLines(tasks: seq<Task>, source: string): seq<Line> {
    if tasks == [] then []
    else
      var last := tasks[|tasks| - 1];
      TakenLines(tasks[..|tasks| - 1], source) + if last.source == source then last.lines else []
  }

  ghost predicate TaskOk(t: Task) {
    t.lines != [] && t.failed <= ATTEMPTS && (t.delivered ==> t.failed < ATTEMPTS)
  }

  ghost predicate SourceOk(maxBatch: int, s: State, source: string) {
    && TakenLines(s.tasks, source) + BufferOf(s.buf, source) == Arrived(s, source)
    && (|BufferOf(s.buf, source)| >= Threshold(maxBatch) ==>
          |BufferOf(s.buf, source)| - Threshold(maxBatch) + 1 <= WaitingAt(s, source))
  }

  ghost predicate Inv(maxBatch: int, s: State) {
    && (forall source :: SourceOk(maxBatch, s, source))
    && (forall i :: 0 <= i < |s.tasks| ==> TaskOk(s.tasks[i]))
  }

  lemma TakenLinesSnoc(tasks: seq<Task>, t: Task, source: string)
    ensures TakenLines(tasks + [t], source) == TakenLines(tasks, source) + if t.source == source then t.lines else []
  {
    assert (tasks + [t])[..|tasks|] == tasks;
  }

  lemma {:induction false} AttemptKeepsLines(tasks: seq<Task>, i: nat, t: Task, source: string)
    requires i < |tasks| && t.source == tasks[i].source && t.lines == tasks[i].lines
    ensures TakenLines(tasks[i := t], source) == TakenLines(tasks, source)
  {
    var n := |tasks| - 1;
    if i < n {
      AttemptKeepsLines(tasks[..n], i, t, source);
      assert tasks[i := t][..n] == tasks[..n][i := t];
    } else {
      assert tasks[i := t][..n] == tasks[..n];
    }
  }

  /** A flush empties the buffer, so it may use up one waiting adder. */
  lemma TakenKeepsSource(maxBatch: int, s: State, source: string, used: State, other: string)
    requires SourceOk(maxBatch, s, other)
    requires used.buf == s.buf && used.tasks == s.tasks && used.arrived == s.arrived
    requires other != source ==> WaitingAt(used, other) == WaitingAt(s, other)
    ensures SourceOk(maxBatch, Taken(used, source), other)
  {
    hide TakenLines;
    var lines := BufferOf(s.buf, source);
    if lines != [] {
      TakenLinesSnoc(s.tasks, Task(source, lines, 0, false), other);
      if other == source {
        assert TakenLines(s.tasks, source) + lines + [] == Arrived(s, source);
      } else {
        assert TakenLines(s.tasks, other) + [] == TakenLines(s.tasks, other);
      }
    }
  }

  lemma AddKeepsSource(maxBatch: int, s: State, source: string, line: Line, other: string)
    requires SourceOk(maxBatch, s, other)
    ensures SourceOk(maxBatch, Next(maxBatch, s, Add(source, line)), other)
  {
    hide TakenLines;
    var taken, lines := TakenLines(s.tasks, source), BufferOf(s.buf, source);
    assert taken + (lines + [line]) == (taken + lines) + [line];
  }

  lemma OtherKeepsSource(maxBatch: int, s: State, s': State, other: string)
    requires SourceOk(maxBatch, s, other) && s'.buf == s.buf && s'.arrived == s.arrived && s'.waiting == s.waiting
    requires TakenLines(s'.tasks, other) == TakenLines(s.tasks, other)
    ensures SourceOk(maxBatch, s', other)
  {
    hide TakenLines;
  }

  lemma AttemptedIsSameBatch(t: Task, ok: bool)
    ensures Attempted(t, ok).source == t.source && Attempted(t, ok).lines == t.lines
  {
  }

  lemma StepKeepsSource(maxBatch: int, s: State, step: Step, other: string)
    requires Inv(maxBatch, s) && Enabled(s, step)
    ensures SourceOk(maxBatch, Next(maxBatch, s, step), other)
  {
    hide TakenLines, Taken, SourceOk, Attempted;
    match step {
      case Add(source, line) =>
        AddKeepsSource(maxBatch, s, source, line, other);
      case Flush(source) =>
        TakenKeepsSource(maxBatch, s, source, s.(waiting := s.waiting[source := WaitingAt(s, source) - 1]), other);
      case Tick(_) =>
        OtherKeepsSource(maxBatch, s, Next(maxBatch, s, step), other);
      case TickerFlush =>
        TakenKeepsSource(maxBatch, s, s.ticker[0], s.(ticker := s.ticker[1..]), other);
      case Attempt(i, ok) =>
        AttemptedIsSameBatch(s.tasks[i], ok);
        AttemptKeepsLines(s.tasks, i, Attempted(s.tasks[i], ok), other);
        OtherKeepsSource(maxBatch, s, Next(maxBatch, s, step), other);
    }
  }

  lemma StepKeepsInv(maxBatch: int, s: State, step: Step)
    requires Inv(maxBatch, s) && Enabled(s, step)
    ensures Inv(maxBatch, Next(maxBatch, s, step))
  {
    hide TakenLines, SourceOk;
    forall source
      ensures SourceOk(maxBatch, Next(maxBatch, s, step), source)
    {
      StepKeepsSource(maxBatch, s, step, source);
    }
  }

  ghost predicate IsRun(maxBatch: int, states: seq<State>, steps: seq<Step>) {
    && |states| == |steps| + 1 && states[0] == INITIAL
    && forall i :: 0 <= i < |steps| ==>
         Enabled(states[i], steps[i]) && states[i + 1] == Next(maxBatch, states[i], steps[i])
  }

  lemma InitialInv(maxBatch: int)
    ensures Inv(maxBatch, INITIAL)
  {
  }

  lemma {:induction false} RunKeepsInv(maxBatch: int, states: seq<State>, steps: seq<Step>, n: nat)
    requires IsRun(maxBatch, states, steps) && n <= |steps|
    ensures Inv(maxBatch, states[n])
  {
    hide Inv, Enabled, Next;
    if n == 0 {
      InitialInv(maxBatch);
    } else {
      RunKeepsInv(maxBatch, states, steps, n - 1);
      StepKeepsInv(maxBatch, states[n - 1], steps[n - 1]);
    }
  }

  /** In every interleaving, the batches taken for a source followed by its buffer are its lines in arrival
      order; no batch is empty; and a batch is being sent, or delivered, or dropped after five failures. */
  lemma LinesAreConserved(maxBatch: int, states: seq<State>, steps: seq<Step>, n: nat, source: string)
    requires IsRun(maxBatch, states, steps) && n <= |steps|
    ensures var s := states[n];
            && TakenLines(s.tasks, source) + BufferOf(s.buf, source) == Arrived(s, source)
            && forall i :: 0 <= i < |s.tasks| ==>
                 && s.tasks[i].lines != []
                 && (Sending(s.tasks[i]) || s.tasks[i].delivered || Dropped(s.tasks[i]))
                 && (Dropped(s.tasks[i]) <==> s.tasks[i].failed == ATTEMPTS)
  {
    RunKeepsInv(maxBatch, states, steps, n);
    assert SourceOk(maxBatch, states[n], source);
  }

  /** A full buffer always has an adder about to flush it, and a batch exceeds the limit by fewer lines than
      there are such adders. */
  lemma BatchesAreBounded(maxBatch: int, states: seq<State>, steps: seq<Step>, n: nat, source: string)
    requires IsRun(maxBatch, states, steps) && n <= |steps|
    ensures var s := states[n];
            && (|BufferOf(s.buf, source)| >= Threshold(maxBatch) ==> WaitingAt(s, source) > 0)
            && |BufferOf(s.buf, source)| < Threshold(maxBatch) + WaitingAt(s, source)
  {
    RunKeepsInv(maxBatch, states, steps, n);
    assert SourceOk(maxBatch, states[n], source);
  }

  /** The header comment's promise that no batch is dropped does not hold: five failed posts drop any batch. */
  lemma FiveFailuresDrop(t: Task)
    requires t.failed == 0 && !t.delivered
    ensures var t1 := Attempted(t, false);
            var t2 := Attempted(t1, false);
            var t3 := Attempted(t2, false);
            var t4 := Attempted(t3, false);
            Sending(t4) && Dropped(Attempted(t4, false)) && Attempted(t4, false).lines == t.lines
  {
  }

  // ------------------------------------------------------------ who flushes, and when

  /** The adds so far that filled a source's buffer, or found it full. */
  ghost function FullAdds(maxBatch: int, states: seq<State>, steps: seq<Step>, n: nat, source: string): nat
    requires n <= |steps| < |states|
  {
    if n == 0 then 0
    else
      FullAdds(maxBatch, states, steps, n - 1, source) +
      if steps[n - 1].Add? && steps[n - 1].source == source
         && |BufferOf(states[n - 1].buf, source)| + 1 >= maxBatch then 1 else 0
  }

  function Flushes(steps: seq<Step>, n: nat, source: string): nat
    requires n <= |steps|
  {
    if n == 0 then 0 else Flushes(steps, n - 1, source) + if steps[n - 1] == Flush(source) then 1 else 0
  }

  /** Adders flush once for every add that left the buffer full, and not otherwise. */
  lemma {:induction false} OneFlushPerFullAdd(maxBatch: int, states: seq<State>, steps: seq<Step>, n: nat,
      source: string)
    requires IsRun(maxBatch, states, steps) && n <= |steps|
    ensures FullAdds(maxBatch, states, steps, n, source) == Flushes(steps, n, source) + WaitingAt(states[n], source)
  {
    if n > 0 { OneFlushPerFullAdd(maxBatch, states, steps, n - 1, source); }
  }

  /** What had arrived for a source when the ticker made its round is in some batch, unless it is still to be flushed
      in this round. */
  ghost predicate Swept(s: State, source: string, arrived: nat) {
    source in s.ticker || |TakenLines(s.tasks, source)| >= arrived
  }

  lemma {:induction false} StepKeepsSwept(maxBatch: int, s: State, step: Step, source: string, arrived: nat)
    requires Inv(maxBatch, s) && Enabled(s, step) && !step.Tick? && Swept(s, source, arrived)
    requires arrived <= |Arrived(s, source)|
    ensures Swept(Next(maxBatch, s, step), source, arrived)
    ensures arrived <= |Arrived(Next(maxBatch, s, step), source)|
  {
    hide TakenLines;
    assert SourceOk(maxBatch, s, source);
    match step {
      case Add(_, _) =>
      case Flush(other) => TakenMore(s, s.(waiting := s.waiting[other := WaitingAt(s, other) - 1]), other, source);
      case TickerFlush =>
        TakenMore(s, s.(ticker := s.ticker[1..]), s.ticker[0], source);
        assert s.ticker == [s.ticker[0]] + s.ticker[1..];
      case Attempt(i, ok) =>
        AttemptedIsSameBatch(s.tasks[i], ok);
        AttemptKeepsLines(s.tasks, i, Attempted(s.tasks[i], ok), source);
    }
  }

  /** Taking one source's buffer: all its lines are in batches then, and no other source's are fewer. */
  lemma TakenMore(s: State, used: State, taken: string, source: string)
    requires used.buf == s.buf && used.tasks == s.tasks && used.arrived == s.arrived
    ensures |TakenLines(Taken(used, taken).tasks, source)| >= |TakenLines(s.tasks, source)|
    ensures taken == source ==>
              |TakenLines(Taken(used, taken).tasks, source)|
              == |TakenLines(s.tasks, source)| + |BufferOf(s.buf, source)|
    ensures Taken(used, taken).ticker == used.ticker && Taken(used, taken).arrived == s.arrived
  {
    hide TakenLines;
    if BufferOf(s.buf, taken) != [] {
      TakenLinesSnoc(s.tasks, Task(taken, BufferOf(s.buf, taken), 0, false), source);
    }
  }

  /** No line waits longer than one round of the ticker: when the round that began with step i is over, everything
      that had arrived before it is in a batch, whatever adders and senders did meanwhile. */
  lemma {:induction false} RoundSweepsAll(maxBatch: int, states: seq<State>, steps: seq<Step>, i: nat, n: nat,
      source: string)
    requires IsRun(maxBatch, states, steps) && i < n <= |steps| && steps[i].Tick?
    requires forall j :: i < j < n ==> !steps[j].Tick?
    ensures Swept(states[n], source, |Arrived(states[i], source)|)
    ensures |Arrived(states[i], source)| <= |Arrived(states[n], source)|
    ensures states[n].ticker == [] ==> Arrived(states[i], source) <= TakenLines(states[n].tasks, source)
    decreases n
  {
    hide Inv, SourceOk, TakenLines;
    var arrived := |Arrived(states[i], source)|;
    if n == i + 1 {
      RunKeepsInv(maxBatch, states, steps, i);
      TickNotes(maxBatch, states[i], steps[i], source);
    } else {
      RoundSweepsAll(maxBatch, states, steps, i, n - 1, source);
      RunKeepsInv(maxBatch, states, steps, n - 1);
      StepKeepsSwept(maxBatch, states[n - 1], steps[n - 1], source, arrived);
    }
    ArrivalsGrow(maxBatch, states, steps, i, n, source);
    LinesAreConserved(maxBatch, states, steps, n, source);
  }

  lemma TickNotes(maxBatch: int, s: State, step: Step, source: string)
    requires Inv(maxBatch, s) && Enabled(s, step) && step.Tick?
    ensures var s' := Next(maxBatch, s, step);
            Swept(s', source, |Arrived(s, source)|) && Arrived(s', source) == Arrived(s, source)
  {
    hide TakenLines;
    assert SourceOk(maxBatch, s, source);
    assert source in s.buf.Keys <==> source in step.sources;
  }

  lemma {:induction false} ArrivalsGrow(maxBatch: int, states: seq<State>, steps: seq<Step>, i: nat, n: nat,
      source: string)
    requires IsRun(maxBatch, states, steps) && i <= n <= |steps|
    ensures Arrived(states[i], source) <= Arrived(states[n], source)
    decreases n
  {
    if i < n { ArrivalsGrow(maxBatch, states, steps, i, n - 1, source); }
  }

  // ------------------------------------------------------------ the locked sections and the retry loop

  class SourceBuffers {
    const maxBatch: int
    var buf: map<string, seq<Line>>

    constructor (maxBatch: int)
      ensures this.maxBatch == maxBatch && buf == map[]
    {
      this.maxBatch, buf := maxBatch, map[];
    }

    /** The locked part of `add`; the caller flushes if the buffer is full. */
    method Append(source: string, line: Line) returns (full: bool)
      modifies this
      ensures buf == old(buf)[source := BufferOf(old(buf), source) + [line]]
      ensures full <==> |buf[source]| >= maxBatch
    {
      buf := buf[source := (if source in buf then buf[source] else []) + [line]];
      full := |buf[source]| >= maxBatch;
    }

    /** The locked part of `flushSource`. */
    method Take(source: string) returns (lines: seq<Line>)
      modifies this
      ensures lines == BufferOf(old(buf), source)
      ensures buf == if lines == [] then old(buf) else old(buf) - {source}
    {
      lines := if source in buf then buf[source] else [];
      if lines != [] {
        buf := buf - {source};
      }
    }
  }

  /** A task after its posts 0, 1, ..., n - 1, the outcome of each given by `ok`. */
  function Posted(t: Task, ok: nat -> bool, n: nat): Task {
    if n == 0 then t
    else
      var before := Posted(t, ok, n - 1);
      if Sending(before) then Attempted(before, ok(n - 1)) else before
  }

  /** The retry loop: it stops at the first success, and gives up after five failures. */
  method Send(t: Task, ok: nat -> bool) returns (done: Task)
    requires t.failed == 0 && !t.delivered
    ensures done == Posted(t, ok, ATTEMPTS)
    ensures done.delivered <==> exists i :: 0 <= i < ATTEMPTS && ok(i)
    ensures done.delivered ==> ok(done.failed) && forall i :: 0 <= i < done.failed ==> !ok(i)
    ensures !done.delivered ==> Dropped(done)
  {
    done := t;
    var attempt := 0;
    while attempt < ATTEMPTS
      invariant attempt <= ATTEMPTS && done == Posted(t, ok, attempt)
      invariant done.failed == attempt && !done.delivered
      invariant forall i :: 0 <= i < attempt ==> !ok(i)
    {
      if ok(attempt) {
        done := Attempted(done, true);
        PostedStays(t, ok, attempt + 1, ATTEMPTS);
        return;
      }
      done := Attempted(done, false);
      attempt := attempt + 1;
    }
  }

  lemma {:induction false} PostedStays(t: Task, ok: nat -> bool, n: nat, m: nat)
    requires n <= m && !Sending(Posted(t, ok, n))
    ensures Posted(t, ok, m) == Posted(t, ok, n)
    decreases m
  {
    if n < m { PostedStays(t, ok, n, m - 1); }
  }
}

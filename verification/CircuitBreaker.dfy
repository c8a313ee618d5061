/**
 The circuit breaker in front of the optional sidecar (uli/engine.py, `MLClient`). Clock readings and
 the outcome of each call are inputs.
 */
module CircuitBreaker {
  import opened Basics

  datatype Config = Config(enabled: bool, failures: int, reset: real)

  datatype State = State(failures: nat, openUntil: real)

  /** A call can fail before its status is accepted, or afterwards, when its body turns out not to be JSON. */
  datatype Outcome = Success | CallFails | BadBody

  /** One event that wants the sidecar: when it asks, when its failure is noted, and how the call would go. */
  datatype Call = Call(at: real, notedAt: real, outcome: Outcome)

  predicate Attempts(cfg: Config, st: State, c: Call) { cfg.enabled && c.at >= st.openUntil }

  function Failed(cfg: Config, failures: nat, openUntil: real, c: Call): State {
    State(failures + 1, if failures + 1 >= cfg.failures then c.notedAt + cfg.reset else openUntil)
  }

  /** A response resets the count before its body is decoded. */
  function Next(cfg: Config, st: State, c: Call): State {
    if !Attempts(cfg, st, c) then st
    else
      match c.outcome
      case Success => State(0, st.openUntil)
      case CallFails => Failed(cfg, st.failures, st.openUntil, c)
      case BadBody => Failed(cfg, 0, st.openUntil, c)
  }

  function After(cfg: Config, st: State, calls: seq<Call>): State {
    if calls == [] then st else Next(cfg, After(cfg, st, calls[..|calls| - 1]), calls[|calls| - 1])
  }

  function Attempted(cfg: Config, st: State, calls: seq<Call>): nat {
    if calls == [] then 0
    else
      var init := calls[..|calls| - 1];
      Attempted(cfg, st, init) + if Attempts(cfg, After(cfg, st, init), calls[|calls| - 1]) then 1 else 0
  }

  /** One call after the other, all asked for within [from, from + span]. */
  ghost predicate WithinSpan(calls: seq<Call>, from: real, span: real) {
    && (forall i :: 0 <= i < |calls| ==> from <= calls[i].at <= from + span && calls[i].at <= calls[i].notedAt)
    && (forall i, j :: 0 <= i < j < |calls| ==> calls[i].notedAt <= calls[j].at)
  }

  /** Every call fails, and counts as one more failure. */
  ghost predicate AllFail(cfg: Config, calls: seq<Call>) {
    forall i :: 0 <= i < |calls| ==> calls[i].outcome == CallFails || (calls[i].outcome == BadBody && cfg.failures == 1)
  }

  /** From the last permitted attempt on, attempts are at least a reset period apart. */
  lemma {:induction false} AttemptsAreSpaced(cfg: Config, st: State, calls: seq<Call>, from: real,
      span: real) returns (last: real)
    requires cfg.failures >= 1 && cfg.reset > 0.0
    requires WithinSpan(calls, from, span) && AllFail(cfg, calls)
    ensures var n, st' := Attempted(cfg, st, calls), After(cfg, st, calls);
            && st'.failures >= Min(n, cfg.failures)
            && (n > 0 ==> calls != [] && from <= last <= calls[|calls| - 1].at)
            && (n >= cfg.failures ==> st'.openUntil >= last + cfg.reset)
            && (n > cfg.failures ==> Periods(n - cfg.failures, cfg.reset) <= last - from)
  {
    hide Periods;
    last := from;
    if calls != [] {
      var init, c := calls[..|calls| - 1], calls[|calls| - 1];
      last := AttemptsAreSpaced(cfg, st, init, from, span);
      var n, st' := Attempted(cfg, st, init), After(cfg, st, init);
      if init != [] { assert init[|init| - 1].notedAt <= c.at; }
      if Attempts(cfg, st', c) {
        if n >= cfg.failures {
          Spread(n - cfg.failures, cfg.reset, last - from, c.at - last);
        }
        last := c.at;
      }
    }
  }

  lemma NoPeriods(reset: real)
    ensures Periods(0, reset) == 0.0
  {
  }

  /** The time k reset periods take. */
  function Periods(k: nat, reset: real): real { k as real * reset }

  lemma Spread(k: nat, reset: real, gone: real, step: real)
    requires gone >= 0.0 && (k > 0 ==> Periods(k, reset) <= gone) && step >= reset
    ensures Periods(k + 1, reset) <= gone + step
  {
    assert (k + 1) as real * reset == k as real * reset + reset;
    assert k == 0 ==> k as real * reset == 0.0;
  }

  lemma FloorBound(k: nat, reset: real, span: real)
    requires reset > 0.0 && Periods(k, reset) <= span
    ensures k <= (span / reset).Floor
  {
    var q, x := span / reset, k as real;
    assert q * reset == span;
    assert (q - x) * reset == q * reset - x * reset;
    NonNegativeFactor(q - x, reset);
  }

  /** In a stretch of length T in which every call fails, at most F + floor(T / R) calls reach the sidecar,
      whatever state the breaker starts in. */
  lemma AttemptsAreBounded(cfg: Config, st: State, calls: seq<Call>, from: real, span: real)
    requires cfg.failures >= 1 && cfg.reset > 0.0 && span >= 0.0
    requires WithinSpan(calls, from, span) && AllFail(cfg, calls)
    ensures Attempted(cfg, st, calls) <= cfg.failures + (span / cfg.reset).Floor
  {
    hide Periods, Attempted, After;
    var last := AttemptsAreSpaced(cfg, st, calls, from, span);
    var n := Attempted(cfg, st, calls);
    NoPeriods(cfg.reset);
    if n > cfg.failures {
      FloorBound(n - cfg.failures, cfg.reset, span);
    } else {
      FloorBound(0, cfg.reset, span);
    }
  }

  /** n calls at one moment that all get a response without a JSON body. */
  function BadBodies(n: nat, at: real): seq<Call> { seq(n, _ => Call(at, at, BadBody)) }

  /** Such failures never open a breaker that takes two or more: all of any number of them, at one moment, are made. */
  lemma {:induction false} BadBodiesAreUnbounded(cfg: Config, st: State, n: nat, at: real)
    requires cfg.enabled && cfg.failures >= 2 && at >= st.openUntil
    ensures Attempted(cfg, st, BadBodies(n, at)) == n
    ensures After(cfg, st, BadBodies(n, at)).openUntil == st.openUntil
  {
    if n > 0 {
      BadBodiesAreUnbounded(cfg, st, n - 1, at);
      assert BadBodies(n, at)[..n - 1] == BadBodies(n - 1, at);
    }
  }

  ghost predicate NoneSucceeds(calls: seq<Call>) {
    forall i :: 0 <= i < |calls| ==> calls[i].outcome != Success
  }

  ghost predicate Bounded(cfg: Config, st: State, calls: seq<Call>, span: real)
    requires cfg.reset > 0.0
  {
    Attempted(cfg, st, calls) <= cfg.failures + (span / cfg.reset).Floor
  }

  /** With failures of both kinds the bound holds for every stretch exactly if the breaker opens at the first failure.
      */
  lemma BoundedIffFirstFailureOpens(cfg: Config, st: State, from: real, span: real)
    requires cfg.enabled && cfg.failures >= 1 && cfg.reset > 0.0 && span >= 0.0 && from >= st.openUntil
    ensures (forall calls :: WithinSpan(calls, from, span) && NoneSucceeds(calls) ==> Bounded(cfg, st, calls, span))
            <==> cfg.failures == 1
  {
    hide Attempted, After;
    if cfg.failures == 1 {
      forall calls | WithinSpan(calls, from, span) && NoneSucceeds(calls)
        ensures Bounded(cfg, st, calls, span)
      {
        AttemptsAreBounded(cfg, st, calls, from, span);
      }
    } else {
      FloorBound(0, cfg.reset, span) by { NoPeriods(cfg.reset); }
      var n: nat := cfg.failures + (span / cfg.reset).Floor + 1;
      var calls := BadBodies(n, from);
      BadBodiesAreUnbounded(cfg, st, n, from);
      assert WithinSpan(calls, from, span) && NoneSucceeds(calls) && !Bounded(cfg, st, calls, span);
    }
  }

  // ------------------------------------------------------------ when the breaker opens

  /** How the attempted calls went, in order. */
  ghost function Outcomes(cfg: Config, st: State, calls: seq<Call>): seq<Outcome> {
    if calls == [] then []
    else
      var init, c := calls[..|calls| - 1], calls[|calls| - 1];
      Outcomes(cfg, st, init) + if Attempts(cfg, After(cfg, st, init), c) then [c.outcome] else []
  }

  /** The last n attempted calls failed; all but the first of them before a response came. */
  ghost predicate LastFailed(outcomes: seq<Outcome>, n: nat) {
    && 1 <= n <= |outcomes|
    && outcomes[|outcomes| - n] != Success
    && forall i :: |outcomes| - n < i < |outcomes| ==> outcomes[i] == CallFails
  }

  lemma {:induction false} LastFailedSnoc(outcomes: seq<Outcome>, o: Outcome, n: nat)
    ensures LastFailed(outcomes + [o], n)
            <==> if n == 1 then o != Success else o == CallFails && n > 1 && LastFailed(outcomes, n - 1)
  {
    var all := outcomes + [o];
    assert all[|all| - 1] == o;
    if n > 1 && LastFailed(all, n) {
      assert forall i :: |outcomes| - (n - 1) < i < |outcomes| ==> outcomes[i] == all[i];
      assert outcomes[|outcomes| - (n - 1)] == all[|all| - n];
    }
  }

  /** The count is the number of attempted calls that failed since the last response. */
  lemma {:induction false} CountIsLastFailed(cfg: Config, st: State, calls: seq<Call>, n: nat)
    requires st.failures == 0 && n >= 1
    ensures After(cfg, st, calls).failures >= n <==> LastFailed(Outcomes(cfg, st, calls), n)
    decreases |calls|
  {
    hide LastFailed;
    if calls == [] {
      NoneFailed(n);
    } else {
      var init, c := calls[..|calls| - 1], calls[|calls| - 1];
      var outcomes := Outcomes(cfg, st, init);
      CountIsLastFailed(cfg, st, init, n);
      if n > 1 { CountIsLastFailed(cfg, st, init, n - 1); }
      LastFailedSnoc(outcomes, c.outcome, n);
      assert outcomes + [] == outcomes;
    }
  }

  lemma NoneFailed(n: nat)
    ensures !LastFailed([], n)
  {
  }

  /** An attempted call opens the breaker exactly if, with it, the last F attempted calls failed; any other call
      leaves it as it is. */
  lemma {:induction false} OpensIffLastFailed(cfg: Config, st: State, calls: seq<Call>)
    requires st.failures == 0 && cfg.failures >= 1 && calls != []
    ensures var init, c := calls[..|calls| - 1], calls[|calls| - 1];
            var before, after := After(cfg, st, init).openUntil, After(cfg, st, calls).openUntil;
            after == if cfg.enabled && c.at >= before && LastFailed(Outcomes(cfg, st, calls), cfg.failures)
                     then c.notedAt + cfg.reset else before
  {
    hide LastFailed;
    var init, c := calls[..|calls| - 1], calls[|calls| - 1];
    CountIsLastFailed(cfg, st, init, cfg.failures);
    if cfg.failures > 1 { CountIsLastFailed(cfg, st, init, cfg.failures - 1); }
    LastFailedSnoc(Outcomes(cfg, st, init), c.outcome, cfg.failures);
  }

  // ------------------------------------------------------------ a client shared by threads

  /** A thread asks and, if the breaker lets it, begins a call; or one of the calls in flight fails. */
  datatype Move = Ask(at: real) | Fails(at: real)

  datatype Shared = Shared(breaker: State, inFlight: nat)

  /** Each of m threads has one call in flight at most. */
  predicate MayMove(s: Shared, m: nat, move: Move) {
    match move
    case Ask(_) => s.inFlight < m
    case Fails(_) => s.inFlight > 0
  }

  predicate Begins(cfg: Config, s: Shared, move: Move) { move.Ask? && cfg.enabled && move.at >= s.breaker.openUntil }

  function Moved(cfg: Config, s: Shared, move: Move): Shared {
    match move
    case Ask(_) => if Begins(cfg, s, move) then s.(inFlight := s.inFlight + 1) else s
    case Fails(at) =>
      if s.inFlight == 0 then s
      else Shared(Failed(cfg, s.breaker.failures, s.breaker.openUntil, Call(at, at, CallFails)), s.inFlight - 1)
  }

  function AfterMoves(cfg: Config, s: Shared, moves: seq<Move>): Shared {
    if moves == [] then s else Moved(cfg, AfterMoves(cfg, s, moves[..|moves| - 1]), moves[|moves| - 1])
  }

  function Begun(cfg: Config, s: Shared, moves: seq<Move>): nat {
    if moves == [] then 0
    else
      var init := moves[..|moves| - 1];
      Begun(cfg, s, init) + if Begins(cfg, AfterMoves(cfg, s, init), moves[|moves| - 1]) then 1 else 0
  }

  function Noted(moves: seq<Move>): nat {
    if moves == [] then 0 else Noted(moves[..|moves| - 1]) + if moves[|moves| - 1].Fails? then 1 else 0
  }

  /** Moves in the order of time, within [from, from + span], each possible when it is made. */
  ghost predicate Timed(cfg: Config, s: Shared, m: nat, moves: seq<Move>, from: real, span: real) {
    && (forall i :: 0 <= i < |moves| ==> from <= moves[i].at <= from + span)
    && (forall i, l :: 0 <= i < l < |moves| ==> moves[i].at <= moves[l].at)
    && (forall i :: 0 <= i < |moves| ==> MayMove(AfterMoves(cfg, s, moves[..i]), m, moves[i]))
  }

  /** Calls that can have begun by the end of `bursts` bursts. */
  function Allowance(cfg: Config, m: nat, bursts: nat): int { cfg.failures + m - 1 + m * bursts }

  lemma OneMoreBurst(cfg: Config, m: nat, bursts: nat)
    ensures Allowance(cfg, m, bursts + 1) == Allowance(cfg, m, bursts) + m
  {
    assert m * (bursts + 1) == m * bursts + m;
  }

  /** A burst: what begins from a permitted call on until a failure is noted. Bursts start a reset period apart, and
      each begins as many calls as there are threads at most. */
  ghost predicate InBursts(cfg: Config, s: Shared, m: nat, begun: nat, bursts: nat, start: real, shut: bool,
      from: real) {
    && from <= start && Periods(bursts, cfg.reset) <= start - from
    && if shut then s.breaker.openUntil >= start + cfg.reset && begun <= Allowance(cfg, m, bursts)
       else bursts > 0 && begun <= Allowance(cfg, m, bursts - 1) + s.inFlight
  }

  lemma BurstStep(cfg: Config, s: Shared, m: nat, begun: nat, bursts: nat, start: real, shut: bool, from: real,
      move: Move)
    returns (bursts': nat, start': real, shut': bool)
    requires cfg.reset > 0.0 && s.inFlight <= m && s.breaker.failures >= cfg.failures && MayMove(s, m, move)
    requires InBursts(cfg, s, m, begun, bursts, start, shut, from) && start <= move.at
    ensures start' <= move.at
    ensures InBursts(cfg, Moved(cfg, s, move), m, begun + if Begins(cfg, s, move) then 1
            else 0, bursts', start', shut', from)
  {
    hide Periods, Allowance;
    bursts', start', shut' := bursts, start, shut;
    if !shut { OneMoreBurst(cfg, m, bursts - 1); }
    if move.Fails? {
      shut' := true;
    } else if Begins(cfg, s, move) && shut {
      Spread(bursts, cfg.reset, start - from, move.at - start);
      bursts', start', shut' := bursts + 1, move.at, false;
    }
  }

  lemma {:induction false} BeginningsComeInBursts(cfg: Config, s: Shared, m: nat, moves: seq<Move>, from: real,
      span: real)
    returns (bursts: nat, start: real, shut: bool)
    requires cfg.failures >= 1 && cfg.reset > 0.0 && m > 0 && s.inFlight <= m && Timed(cfg, s, m, moves, from, span)
    ensures var s', n := AfterMoves(cfg, s, moves), Begun(cfg, s, moves);
            && s'.inFlight <= m && s'.breaker.failures >= Noted(moves) && n + s.inFlight == Noted(moves) + s'.inFlight
            && (Noted(moves) >= cfg.failures ==>
                  moves != [] && start <= moves[|moves| - 1].at && InBursts(cfg, s', m, n, bursts, start, shut, from))
  {
    hide InBursts, Timed, Moved, MayMove, Begins;
    bursts, start, shut := 0, from, true;
    if moves != [] {
      var init, move := moves[..|moves| - 1], moves[|moves| - 1];
      TimedPrefix(cfg, s, m, moves, from, span);
      bursts, start, shut := BeginningsComeInBursts(cfg, s, m, init, from, span);
      var s' := AfterMoves(cfg, s, init);
      MovedCounts(cfg, s', m, move);
      if Noted(init) >= cfg.failures {
        bursts, start, shut := BurstStep(cfg, s', m, Begun(cfg, s, init), bursts, start, shut, from, move);
      } else if Noted(moves) >= cfg.failures {
        bursts, start, shut := 0, move.at, true;
        FirstBurst(cfg, s', m, Begun(cfg, s, init), from, move);
      }
    }
  }

  lemma MovedCounts(cfg: Config, s: Shared, m: nat, move: Move)
    requires MayMove(s, m, move) && s.inFlight <= m
    ensures var s' := Moved(cfg, s, move);
            && s'.inFlight <= m && (move.Fails? ==> s.inFlight > 0 && !Begins(cfg, s, move))
            && s'.breaker.failures == s.breaker.failures + (if move.Fails? then 1 else 0)
            && s'.inFlight == s.inFlight + (if Begins(cfg, s, move) then 1 else 0) - (if move.Fails? then 1 else 0)
  {
  }

  lemma TimedPrefix(cfg: Config, s: Shared, m: nat, moves: seq<Move>, from: real, span: real)
    requires moves != [] && Timed(cfg, s, m, moves, from, span)
    ensures var init, move := moves[..|moves| - 1], moves[|moves| - 1];
            && Timed(cfg, s, m, init, from, span) && MayMove(AfterMoves(cfg, s, init), m, move)
            && from <= move.at && (init != [] ==> init[|init| - 1].at <= move.at)
  {
    hide MayMove, AfterMoves;
    var init := moves[..|moves| - 1];
    forall i | 0 <= i < |init|
      ensures MayMove(AfterMoves(cfg, s, init[..i]), m, init[i])
    {
      assert init[..i] == moves[..i];
    }
  }

  lemma FirstBurst(cfg: Config, s: Shared, m: nat, begun: nat, from: real, move: Move)
    requires cfg.failures >= 1 && m > 0 && 0 < s.inFlight <= m && move.Fails? && from <= move.at
    requires s.breaker.failures + 1 >= cfg.failures && begun <= cfg.failures - 1 + s.inFlight
    ensures InBursts(cfg, Moved(cfg, s, move), m, begun, 0, move.at, true, from)
  {
    NoPeriods(cfg.reset);
  }

  /** With m threads, in a stretch of length T in which every call that ends fails, at most F + m - 1 + m * floor(T / R)
      calls begin, whatever state the breaker starts in and whichever calls are in flight. */
  lemma {:induction false} SharedAttemptsAreBounded(cfg: Config, s: Shared, m: nat, moves: seq<Move>, from: real,
      span: real)
    requires cfg.failures >= 1 && cfg.reset > 0.0 && span >= 0.0 && m > 0 && s.inFlight <= m
    requires Timed(cfg, s, m, moves, from, span)
    ensures Begun(cfg, s, moves) <= cfg.failures + m - 1 + m * (span / cfg.reset).Floor
  {
    hide Periods, Begun, AfterMoves, Noted;
    var bursts, start, shut := BeginningsComeInBursts(cfg, s, m, moves, from, span);
    NoPeriods(cfg.reset);
    FloorBound(0, cfg.reset, span);
    var whole: nat := (span / cfg.reset).Floor;
    if Noted(moves) >= cfg.failures {
      FloorBound(bursts, cfg.reset, span);
      if !shut { OneMoreBurst(cfg, m, bursts - 1); }
      Monotone(m, bursts, whole);
    } else {
      Monotone(m, 0, whole);
    }
  }

  lemma Monotone(m: nat, a: nat, b: nat)
    requires a <= b
    ensures m * a <= m * b
  {
    assert m * b == m * a + m * (b - a);
  }

  class MlClient {
    const cfg: Config
    var failures: nat
    var openUntil: real

    constructor (cfg: Config)
      ensures this.cfg == cfg && Now() == State(0, 0.0)
    {
      this.cfg, failures, openUntil := cfg, 0, 0.0;
    }

    ghost function Now(): State reads this { State(failures, openUntil) }

    method ClassifyAndScore(c: Call) returns (attempted: bool)
      modifies this
      ensures attempted == Attempts(cfg, old(Now()), c)
      ensures Now() == Next(cfg, old(Now()), c)
    {
      attempted := cfg.enabled && c.at >= openUntil;
      if !attempted {
        return;
      }
      if c.outcome.Success? || c.outcome.BadBody? {
        failures := 0;
      }
      if !c.outcome.Success? {
        failures := failures + 1;
        if failures >= cfg.failures {
          openUntil := c.notedAt + cfg.reset;
        }
      }
    }
  }
}

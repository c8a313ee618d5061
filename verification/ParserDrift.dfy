/**
 The windowed drift detector (uli/drift/parser_drift.py). Each (source, parser) key fills a window
 of shapes; its first full window becomes the reference, every later one is compared with it, and
 enough drifted windows in a row raise an event. The clock readings are inputs.
 */
module ParserDrift {
  import opened Basics
  import opened Divergence

  /** The three readings one call may take: when a window is opened, checked for age, and reopened. */
  datatype Clock = Clock(begun: real, checked: real, reopened: real)

  datatype Observation = Observation(tenant: string, source: string, parser: string, shape: string, confidence: real,
      clock: Clock)

  /** The monitor's key leaves the tenant out, as the code does. */
  type Key = (string, string)

  function KeyOf(o: Observation): Key { (o.source, o.parser) }

  predicate Watched(o: Observation) { o.parser != "engine.quarantine" && o.parser != "none" }

  datatype Window = Window(shapes: Counter, confSum: real, n: nat, started: real)
  datatype Reference = Reference(hist: Counter, mean: real)
  datatype KeyState = KeyState(window: Option<Window>, ewma: Option<real>, reference: Option<Reference>, hits: nat)

  const FRESH := KeyState(None, None, None, 0)

  datatype Config = Config(windowEvents: int, windowSeconds: real, jsThreshold: real, consecutive: int,
      confidenceDrop: real)

  datatype DriftEvent = DriftEvent(tenant: string, source: string, parser: string, js: real, before: real, after: real,
                                   reference: Counter, current: Counter, size: nat, reason: string)

  // ------------------------------------------------------------ one observation of one key

  function Increment(p: Counter, shape: string): Counter { p[shape := Get(p, shape) + 1] }

  function Filled(ks: KeyState, o: Observation): Window {
    var w := if ks.window.Some? then ks.window.value else Window(map[], 0.0, 0, o.clock.begun);
    Window(Increment(w.shapes, o.shape), w.confSum + o.confidence, w.n + 1, w.started)
  }

  function Smoothed(ks: KeyState, o: Observation): real {
    0.9 * (if ks.ewma.Some? then ks.ewma.value else o.confidence) + 0.1 * o.confidence
  }

  /** A window closes when it is full or too old. */
  predicate Due(cfg: Config, w: Window, o: Observation) {
    w.n >= cfg.windowEvents || o.clock.checked - w.started >= cfg.windowSeconds
  }

  function Emptied(o: Observation): Window { Window(map[], 0.0, 0, o.clock.reopened) }

  function Drop(before: real, after: real): real { if before - after > 0.0 then before - after else 0.0 }

  ghost predicate Drifted(cfg: Config, log: Log, ref: Reference, hist: Counter, ewma: real) {
    Js(log, ref.hist, hist) > cfg.jsThreshold || Drop(ref.mean, ewma) > cfg.confidenceDrop
  }

  /** In units of the fourth decimal, halves to the even side. */
  function Units(x: real): int {
    var y := x * 10000.0;
    var below := y.Floor;
    var rest := y - below as real;
    if rest < 0.5 || (rest == 0.5 && below % 2 == 0) then below else below + 1
  }

  function Rounded(x: real): real { Units(x) as real / 10000.0 }

  /** What an event reports is a number of four decimals, off by half a unit of the last at most; where two are as
      near, the even one. */
  lemma RoundedIsNear(x: real)
    ensures -0.00005 <= Rounded(x) - x <= 0.00005
    ensures Rounded(x) * 10000.0 == Units(x) as real
    ensures Rounded(x) - x == 0.00005 || Rounded(x) - x == -0.00005 ==> Units(x) % 2 == 0
  {
    var y := x * 10000.0;
    assert -0.5 <= Units(x) as real - y <= 0.5;
    assert (Rounded(x) - x) * 10000.0 == Units(x) as real - y;
  }

  ghost function EventOf(cfg: Config, log: Log, ref: Reference, w: Window, ewma: real, o: Observation): DriftEvent {
    var js := Js(log, ref.hist, w.shapes);
    DriftEvent(o.tenant, o.source, o.parser, Rounded(js), Rounded(ref.mean), Rounded(ewma), ref.hist, w.shapes, w.n,
               if js > cfg.jsThreshold then "js_divergence" else "confidence_drop")
  }

  /** What a closed window leads to. */
  ghost function Judged(cfg: Config, log: Log, ks: KeyState, w: Window, ewma: real, o: Observation): (KeyState,
      Option<DriftEvent>) {
    var ks' := KeyState(Some(Emptied(o)), Some(ewma), ks.reference, ks.hits);
    if ks.reference.None? then
      (ks'.(reference := Some(Reference(w.shapes, if w.n == 0 then 0.0 else w.confSum / w.n as real))), None)
    else if !Drifted(cfg, log, ks.reference.value, w.shapes, ewma) then
      (ks'.(hits := 0), None)
    else if ks.hits + 1 < cfg.consecutive then
      (ks'.(hits := ks.hits + 1), None)
    else
      (ks'.(hits := 0), Some(EventOf(cfg, log, ks.reference.value, w, ewma, o)))
  }

  lemma JudgedByReferenceAndHits(cfg: Config, log: Log, ks: KeyState, ks': KeyState, w: Window, ewma: real,
      o: Observation)
    requires ks.reference == ks'.reference && ks.hits == ks'.hits
    ensures Judged(cfg, log, ks, w, ewma, o) == Judged(cfg, log, ks', w, ewma, o)
  {
  }

  ghost function Observed(cfg: Config, log: Log, ks: KeyState, o: Observation): (KeyState, Option<DriftEvent>) {
    if !Watched(o) then (ks, None)
    else
      var w, ewma := Filled(ks, o), Smoothed(ks, o);
      if !Due(cfg, w, o) then (ks.(window := Some(w), ewma := Some(ewma)), None)
      else Judged(cfg, log, ks, w, ewma, o)
  }

  // ------------------------------------------------------------ runs

  /** All observations of one key, in order, with what each returned. */
  ghost function RunKey(cfg: Config, log: Log, ks: KeyState,
      obs: seq<Observation>): (r: (KeyState, seq<Option<DriftEvent>>))
    ensures |r.1| == |obs|
  {
    if obs == [] then (ks, [])
    else
      var (ks', evs) := RunKey(cfg, log, ks, obs[..|obs| - 1]);
      var (ks'', ev) := Observed(cfg, log, ks', obs[|obs| - 1]);
      (ks'', evs + [ev])
  }

  type Monitor = map<Key, KeyState>

  function At(m: Monitor, k: Key): KeyState { if k in m then m[k] else FRESH }

  ghost function RunAll(cfg: Config, log: Log, m: Monitor,
      obs: seq<Observation>): (r: (Monitor, seq<Option<DriftEvent>>))
    ensures |r.1| == |obs|
  {
    if obs == [] then (m, [])
    else
      var (m', evs) := RunAll(cfg, log, m, obs[..|obs| - 1]);
      var o := obs[|obs| - 1];
      var (ks, ev) := Observed(cfg, log, At(m', KeyOf(o)), o);
      (m'[KeyOf(o) := ks], evs + [ev])
  }

  function OnlyKey(obs: seq<Observation>, k: Key): seq<Observation> {
    if obs == [] then []
    else OnlyKey(obs[..|obs| - 1], k) + if KeyOf(obs[|obs| - 1]) == k then [obs[|obs| - 1]] else []
  }

  /** The results that belong to one key. */
  function ResultsOf<T>(obs: seq<Observation>, results: seq<T>, k: Key): seq<T>
    requires |results| == |obs|
  {
    if obs == [] then []
    else
      var n := |obs| - 1;
      ResultsOf(obs[..n], results[..n], k) + if KeyOf(obs[n]) == k then [results[n]] else []
  }

  lemma RunKeySnoc(cfg: Config, log: Log, ks: KeyState, obs: seq<Observation>, o: Observation)
    ensures var (ks', evs) := RunKey(cfg, log, ks, obs);
            var (ks'', ev) := Observed(cfg, log, ks', o);
            RunKey(cfg, log, ks, obs + [o]) == (ks'', evs + [ev])
  {
    assert (obs + [o])[..|obs|] == obs;
  }

  /** Keys do not influence each other: in any interleaving a key's state and events are those of its own
      observations. */
  lemma {:induction false} KeysAreIndependent(cfg: Config, log: Log, m: Monitor, obs: seq<Observation>, k: Key)
    ensures var (m', evs) := RunAll(cfg, log, m, obs);
            RunKey(cfg, log, At(m, k), OnlyKey(obs, k)) == (At(m', k), ResultsOf(obs, evs, k))
  {
    hide Observed;
    if obs != [] {
      var n, init, o := |obs| - 1, obs[..|obs| - 1], obs[|obs| - 1];
      KeysAreIndependent(cfg, log, m, init, k);
      var (m', evs) := RunAll(cfg, log, m, init);
      var (ks, ev) := Observed(cfg, log, At(m', KeyOf(o)), o);
      assert (evs + [ev])[..n] == evs;
      if KeyOf(o) == k {
        RunKeySnoc(cfg, log, At(m, k), OnlyKey(init, k), o);
      } else {
        assert OnlyKey(init, k) + [] == OnlyKey(init, k);
        assert ResultsOf(init, evs, k) + [] == ResultsOf(init, evs, k);
      }
    }
  }

  // ------------------------------------------------------------ how many events a run has

  /** The verdict on a window that was closed and compared. */
  ghost function Verdict(cfg: Config, log: Log, ks: KeyState, o: Observation): Option<bool> {
    var w := Filled(ks, o);
    if Watched(o) && Due(cfg, w, o) && ks.reference.Some? then
      Some(Drifted(cfg, log, ks.reference.value, w.shapes, Smoothed(ks, o)))
    else None
  }

  ghost function Verdicts(cfg: Config, log: Log, ks: KeyState, obs: seq<Observation>): seq<bool> {
    if obs == [] then []
    else
      var init := obs[..|obs| - 1];
      var v := Verdict(cfg, log, RunKey(cfg, log, ks, init).0, obs[|obs| - 1]);
      Verdicts(cfg, log, ks, init) + if v.Some? then [v.value] else []
  }

  /** The lengths of the runs of drifted windows between the windows that did not drift. */
  function DriftedRuns(vs: seq<bool>): (runs: seq<nat>)
    ensures runs != []
  {
    if vs == [] then [0]
    else
      var runs := DriftedRuns(vs[..|vs| - 1]);
      if vs[|vs| - 1] then runs[|runs| - 1 := runs[|runs| - 1] + 1] else runs + [0]
  }

  function Quotients(runs: seq<nat>, k: nat): nat
    requires k > 0
  {
    if runs == [] then 0 else Quotients(runs[..|runs| - 1], k) + runs[|runs| - 1] / k
  }

  function Fired(evs: seq<Option<DriftEvent>>): nat {
    if evs == [] then 0 else Fired(evs[..|evs| - 1]) + if evs[|evs| - 1].Some? then 1 else 0
  }

  /** The windows in a row an event takes; a setting below 1 acts as 1. */
  function Required(cfg: Config): nat { if cfg.consecutive < 1 then 1 else cfg.consecutive }

  lemma {:induction false} NextQuotient(b: nat, k: nat)
    requires k > 0
    ensures (b + 1) / k == b / k + (if b % k + 1 == k then 1 else 0)
    ensures (b + 1) % k == if b % k + 1 == k then 0 else b % k + 1
  {
    var q, r := b / k, b % k;
    if r + 1 == k {
      assert b + 1 == (q + 1) * k;
      DivisionIsUnique(b + 1, k, q + 1, 0);
    } else {
      DivisionIsUnique(b + 1, k, q, r + 1);
    }
  }

  lemma {:induction false} LongerRun(runs: seq<nat>, k: nat)
    requires k > 0 && runs != []
    ensures var n := |runs| - 1;
            Quotients(runs[n := runs[n] + 1], k) == Quotients(runs, k) + if runs[n] % k + 1 == k then 1 else 0
  {
    var n := |runs| - 1;
    assert runs[n := runs[n] + 1][..n] == runs[..n];
    NextQuotient(runs[n], k);
  }

  lemma NewRun(runs: seq<nat>, k: nat)
    requires k > 0
    ensures Quotients(runs + [0], k) == Quotients(runs, k)
  {
    assert (runs + [0])[..|runs|] == runs;
  }

  lemma FiredSnoc(evs: seq<Option<DriftEvent>>, ev: Option<DriftEvent>)
    ensures Fired(evs + [ev]) == Fired(evs) + if ev.Some? then 1 else 0
  {
    assert (evs + [ev])[..|evs|] == evs;
  }

  /** One observation, seen as what it does to the hit counter and whether it fires. */
  lemma ObservedByVerdict(cfg: Config, log: Log, ks: KeyState, o: Observation)
    requires ks.hits < Required(cfg)
    ensures var (ks', ev) := Observed(cfg, log, ks, o);
            match Verdict(cfg, log, ks, o)
            case None => ks'.hits == ks.hits && ev.None?
            case Some(false) => ks'.hits == 0 && ev.None?
            case Some(true) =>
              && (ev.Some? <==> ks.hits + 1 == Required(cfg))
              && ks'.hits == if ev.Some? then 0 else ks.hits + 1
  {
    hide Drifted;
  }

  lemma {:induction false} VerdictsSnoc(vs: seq<bool>, v: bool)
    ensures var runs := DriftedRuns(vs);
            DriftedRuns(vs + [v]) == if v then runs[|runs| - 1 := runs[|runs| - 1] + 1] else runs + [0]
  {
    var all := vs + [v];
    assert all[..|all| - 1] == vs && all[|all| - 1] == v;
  }

  lemma NoRuns(k: nat)
    requires k > 0
    ensures DriftedRuns([]) == [0] && Quotients([0], k) == 0 && 0 % k == 0 && Fired([]) == 0
  {
    assert Quotients([0], k) == Quotients([0][..0], k) + 0 / k;
    assert [0][..0] == [];
    DivisionIsUnique(0, k, 0, 0);
  }

  /** What one more verdict does to the quotients and to the remainder of the last run. */
  lemma VerdictCounts(vs: seq<bool>, v: bool, k: nat)
    requires k > 0
    ensures var runs, runs' := DriftedRuns(vs), DriftedRuns(vs + [v]);
            var left := runs[|runs| - 1] % k;
            && Quotients(runs', k) == Quotients(runs, k) + (if v && left + 1 == k then 1 else 0)
            && runs'[|runs'| - 1] % k == if v && left + 1 != k then left + 1 else 0
  {
    hide DriftedRuns, Quotients;
    var runs := DriftedRuns(vs);
    VerdictsSnoc(vs, v);
    LongerRun(runs, k);
    NewRun(runs, k);
    NextQuotient(runs[|runs| - 1], k);
    DivisionIsUnique(0, k, 0, 0);
  }

  /** A run of L drifted windows in a row raises L / k events; a window that does not drift ends a run. */
  lemma {:induction false} EventsCountDriftedRuns(cfg: Config, log: Log, ks: KeyState, obs: seq<Observation>)
    requires ks.hits == 0
    ensures var (ks', evs) := RunKey(cfg, log, ks, obs);
            var runs := DriftedRuns(Verdicts(cfg, log, ks, obs));
            Fired(evs) == Quotients(runs, Required(cfg)) && ks'.hits == runs[|runs| - 1] % Required(cfg)
  {
    hide Observed, Verdict, DriftedRuns, Quotients, Fired;
    var k := Required(cfg);
    NoRuns(k);
    if obs != [] {
      var init, o := obs[..|obs| - 1], obs[|obs| - 1];
      EventsCountDriftedRuns(cfg, log, ks, init);
      var (ks', evs) := RunKey(cfg, log, ks, init);
      var vs := Verdicts(cfg, log, ks, init);
      var runs := DriftedRuns(vs);
      ObservedByVerdict(cfg, log, ks', o);
      FiredSnoc(evs, Observed(cfg, log, ks', o).1);
      var v := Verdict(cfg, log, ks', o);
      if v.Some? {
        VerdictCounts(vs, v.value, k);
      } else {
        assert vs + [] == vs;
      }
    }
  }

  // ------------------------------------------------------------ what every run keeps

  function OpenCount(ks: KeyState): nat { if ks.window.Some? then ks.window.value.n else 0 }

  ghost function ClosedBy(cfg: Config, ks: KeyState, o: Observation): nat {
    if Watched(o) && Due(cfg, Filled(ks, o), o) then Filled(ks, o).n else 0
  }

  /** The sizes of all windows closed in a run, added up. */
  ghost function ClosedCount(cfg: Config, log: Log, ks: KeyState, obs: seq<Observation>): nat {
    if obs == [] then 0
    else
      var init := obs[..|obs| - 1];
      ClosedCount(cfg, log, ks, init) + ClosedBy(cfg, RunKey(cfg, log, ks, init).0, obs[|obs| - 1])
  }

  /** One observation is in the open window afterwards, or in the one it closes. */
  lemma ObservedConserves(cfg: Config, log: Log, ks: KeyState, o: Observation)
    requires Watched(o)
    ensures var ks' := Observed(cfg, log, ks, o).0;
            && ClosedBy(cfg, ks, o) + OpenCount(ks') == OpenCount(ks) + 1
            && (ks.reference.Some? ==> ks'.reference == ks.reference)
  {
    hide Drifted, EventOf, Smoothed, Increment;
  }

  /** Events that no parser understood are not observed. */
  lemma QuarantineIsIgnored(cfg: Config, log: Log, ks: KeyState, o: Observation)
    requires o.parser == "engine.quarantine" || o.parser == "none"
    ensures Observed(cfg, log, ks, o) == (ks, None)
  {
  }

  /** A window closes with the observation that fills it, or that comes when it is too old. */
  lemma ClosesIff(cfg: Config, log: Log, ks: KeyState, o: Observation)
    requires Watched(o)
    ensures var ks' := Observed(cfg, log, ks, o).0;
            var started := if ks.window.Some? then ks.window.value.started else o.clock.begun;
            && ks'.window.Some?
            && (OpenCount(ks') == 0 <==>
                  OpenCount(ks) + 1 >= cfg.windowEvents || o.clock.checked - started >= cfg.windowSeconds)
            && ks'.window.value.started == if OpenCount(ks') == 0 then o.clock.reopened else started
  {
    hide Drifted, EventOf, Smoothed, Increment;
  }

  /** What an event says: the numbers to four decimals, the two histograms, and the reason that applies. */
  lemma EventTells(cfg: Config, log: Log, ks: KeyState, o: Observation)
    requires Observed(cfg, log, ks, o).1.Some?
    ensures var (ks', result) := Observed(cfg, log, ks, o);
            var ev, before := result.value, ks.reference;
            && before.Some? && ks'.ewma.Some?
            && var js, mean, after := Js(log, before.value.hist, ev.current), before.value.mean, ks'.ewma.value;
            && ev.tenant == o.tenant && ev.source == o.source && ev.parser == o.parser
            && ev.reference == before.value.hist && ev.current == Filled(ks, o).shapes && ev.size == OpenCount(ks) + 1
            && -0.00005 <= ev.js - js <= 0.00005
            && -0.00005 <= ev.before - mean <= 0.00005 && -0.00005 <= ev.after - after <= 0.00005
            && (js > cfg.jsThreshold ==> ev.reason == "js_divergence")
            && (js <= cfg.jsThreshold ==> ev.reason == "confidence_drop")
            && (js <= cfg.jsThreshold && cfg.confidenceDrop >= 0.0 ==> mean - after > cfg.confidenceDrop)
  {
    hide Js, Rounded, Units, Increment;
    RoundedIsNear(Js(log, ks.reference.value.hist, Filled(ks, o).shapes));
    RoundedIsNear(ks.reference.value.mean);
    RoundedIsNear(Smoothed(ks, o));
  }

  /** No observation is lost or counted twice, and a reference once set is never replaced. */
  lemma {:induction false} RunConserves(cfg: Config, log: Log, ks: KeyState, obs: seq<Observation>)
    requires forall i :: 0 <= i < |obs| ==> Watched(obs[i])
    ensures var ks' := RunKey(cfg, log, ks, obs).0;
            && ClosedCount(cfg, log, ks, obs) + OpenCount(ks') == OpenCount(ks) + |obs|
            && (ks.reference.Some? ==> ks'.reference == ks.reference)
  {
    hide Observed, ClosedBy, OpenCount;
    if obs != [] {
      var init := obs[..|obs| - 1];
      RunConserves(cfg, log, ks, init);
      ObservedConserves(cfg, log, RunKey(cfg, log, ks, init).0, obs[|obs| - 1]);
    }
  }

  // ------------------------------------------------------------ window by window

  lemma {:induction false} RunKeyConcat(cfg: Config, log: Log, ks: KeyState, a: seq<Observation>, b: seq<Observation>)
    ensures var (s, first) := RunKey(cfg, log, ks, a);
            var (s', second) := RunKey(cfg, log, s, b);
            RunKey(cfg, log, ks, a + b) == (s', first + second)
    decreases |b|
  {
    hide Observed;
    var (s, first) := RunKey(cfg, log, ks, a);
    if b == [] {
      assert a + b == a && first + [] == first;
    } else {
      var init, o := b[..|b| - 1], b[|b| - 1];
      RunKeyConcat(cfg, log, ks, a, init);
      RunKeySnoc(cfg, log, ks, a + init, o);
      RunKeySnoc(cfg, log, s, init, o);
      assert a + b == (a + init) + [o] && init + [o] == b;
      var (s', second) := RunKey(cfg, log, s, init);
      var ev := Observed(cfg, log, s', o).1;
      assert (first + second) + [ev] == first + (second + [ev]);
    }
  }

  /** Every window of the run closes because it is full, never because of its age. */
  ghost predicate NoTimeouts(cfg: Config, log: Log, ks: KeyState, obs: seq<Observation>) {
    obs == [] ||
    var init, o := obs[..|obs| - 1], obs[|obs| - 1];
    var w := Filled(RunKey(cfg, log, ks, init).0, o);
    && NoTimeouts(cfg, log, ks, init)
    && Watched(o)
    && (Due(cfg, w, o) ==> w.n >= cfg.windowEvents)
  }

  lemma {:induction false} NoTimeoutsConcat(cfg: Config, log: Log, ks: KeyState, a: seq<Observation>,
      b: seq<Observation>)
    requires NoTimeouts(cfg, log, ks, a + b)
    ensures NoTimeouts(cfg, log, ks, a) && NoTimeouts(cfg, log, RunKey(cfg, log, ks, a).0, b)
    decreases |b|
  {
    hide Observed, Due, Filled;
    if b == [] {
      assert a + b == a;
    } else {
      var init := b[..|b| - 1];
      assert (a + b)[..|a + b| - 1] == a + init;
      NoTimeoutsConcat(cfg, log, ks, a, init);
      RunKeyConcat(cfg, log, ks, a, init);
    }
  }

  function Hist(obs: seq<Observation>): Counter {
    if obs == [] then map[] else Increment(Hist(obs[..|obs| - 1]), obs[|obs| - 1].shape)
  }

  function ConfSum(obs: seq<Observation>): real {
    if obs == [] then 0.0 else ConfSum(obs[..|obs| - 1]) + obs[|obs| - 1].confidence
  }

  ghost predicate WindowIsEmpty(ks: KeyState) {
    ks.window.Some? ==> ks.window.value.shapes == map[] && ks.window.value.confSum == 0.0 && ks.window.value.n == 0
  }

  ghost predicate AllNone(evs: seq<Option<DriftEvent>>) { forall i :: 0 <= i < |evs| ==> evs[i].None? }

  /** Fewer observations than a window holds just fill it. */
  lemma {:induction false} Filling(cfg: Config, log: Log, ks: KeyState, obs: seq<Observation>)
    requires WindowIsEmpty(ks) && |obs| < cfg.windowEvents && NoTimeouts(cfg, log, ks, obs)
    ensures var (ks', evs) := RunKey(cfg, log, ks, obs);
            && AllNone(evs) && ks'.reference == ks.reference && ks'.hits == ks.hits
            && (obs == [] ==> ks' == ks)
            && (obs != [] ==> ks'.window.Some? && ks'.ewma.Some? && ks'.window.value.shapes == Hist(obs)
                              && ks'.window.value.confSum == ConfSum(obs) && ks'.window.value.n == |obs|)
  {
    hide Judged, Drifted;
    if obs != [] {
      Filling(cfg, log, ks, obs[..|obs| - 1]);
    }
  }

  /** A full window is judged on the histogram of its observations. */
  lemma WindowCloses(cfg: Config, log: Log, ks: KeyState, obs: seq<Observation>)
    returns (w: Window, ewma: real)
    requires WindowIsEmpty(ks) && |obs| == cfg.windowEvents && |obs| > 0 && NoTimeouts(cfg, log, ks, obs)
    ensures w.shapes == Hist(obs) && w.n == |obs| && w.confSum == ConfSum(obs)
    ensures var (ks', evs) := RunKey(cfg, log, ks, obs);
            var init, o := obs[..|obs| - 1], obs[|obs| - 1];
            var s := RunKey(cfg, log, ks, init).0;
            && s.reference == ks.reference && s.hits == ks.hits
            && ewma == Smoothed(s, o)
            && (ks', evs[|obs| - 1]) == Judged(cfg, log, s, w, ewma, o)
            && AllNone(evs[..|obs| - 1])
  {
    hide Judged, Drifted;
    var init, o := obs[..|obs| - 1], obs[|obs| - 1];
    Filling(cfg, log, ks, init);
    var (s, evs) := RunKey(cfg, log, ks, init);
    w, ewma := Filled(s, o), Smoothed(s, o);
    assert (evs + [Observed(cfg, log, s, o).1])[..|obs| - 1] == evs;
  }

  lemma {:induction false} HistFacts(obs: seq<Observation>)
    ensures forall s :: s in Hist(obs) <==> exists i :: 0 <= i < |obs| && obs[i].shape == s
    ensures forall s :: s in Hist(obs) ==> Hist(obs)[s] > 0
    ensures Total(Hist(obs)) == |obs|
  {
    if obs != [] {
      var init, o := obs[..|obs| - 1], obs[|obs| - 1];
      HistFacts(init);
      TotalIncrement(Hist(init), o.shape);
      forall s
        ensures s in Hist(obs) <==> exists i :: 0 <= i < |obs| && obs[i].shape == s
      {
        if s in Hist(init) {
          var i :| 0 <= i < |init| && init[i].shape == s;
          assert obs[i].shape == s;
        }
        if exists i :: 0 <= i < |obs| && obs[i].shape == s {
          var i :| 0 <= i < |obs| && obs[i].shape == s;
          assert i < |init| ==> init[i].shape == s;
        }
        assert s == o.shape ==> obs[|obs| - 1].shape == s;
      }
    }
  }

  lemma TotalIncrement(p: Counter, shape: string)
    ensures Total(Increment(p, shape)) == Total(p) + 1
  {
    var p' := Increment(p, shape);
    var keys := p.Keys + {shape};
    assert p'.Keys == keys;
    AbsentKeysCountNothing(p, keys);
    CountRemove(p, keys, shape);
    CountRemove(p', keys, shape);
    SameCount(p, p', keys - {shape});
  }

  lemma {:induction false} SameCount(p: Counter, q: Counter, keys: set<string>)
    requires forall k :: k in keys ==> Get(p, k) == Get(q, k)
    ensures Count(p, keys) == Count(q, keys)
    decreases |keys|
  {
    if keys != {} {
      var k :| k in keys;
      CountRemove(p, keys, k);
      CountRemove(q, keys, k);
      SameCount(p, q, keys - {k});
    }
  }

  function Flatten(windows: seq<seq<Observation>>): seq<Observation> {
    if windows == [] then [] else Flatten(windows[..|windows| - 1]) + windows[|windows| - 1]
  }

  lemma {:induction false} FlattenLength(windows: seq<seq<Observation>>, n: nat)
    requires forall j :: 0 <= j < |windows| ==> |windows[j]| == n
    ensures |Flatten(windows)| == |windows| * n
  {
    if windows == [] {
      assert |windows| * n == 0;
    } else {
      FlattenLength(windows[..|windows| - 1], n);
      var m := |windows| - 1;
      assert (m + 1) * n == m * n + n;
    }
  }

  /** The first window, then windows in which none of its shapes occurs. */
  ghost predicate ShapesReplaced(cfg: Config, windows: seq<seq<Observation>>) {
    && windows != []
    && (forall j :: 0 <= j < |windows| ==> |windows[j]| == cfg.windowEvents)
    && (forall j, i :: 1 <= j < |windows| && 0 <= i < |windows[j]| ==> windows[j][i].shape !in Hist(windows[0]))
  }

  /** The fixed part of the state between windows once the reference is taken. */
  ghost predicate Between(ks: KeyState, hist: Counter, hits: nat) {
    WindowIsEmpty(ks) && ks.reference.Some? && ks.reference.value.hist == hist && ks.hits == hits
  }

  lemma ReferenceWindow(cfg: Config, log: Log, obs: seq<Observation>)
    requires |obs| == cfg.windowEvents && |obs| > 0 && NoTimeouts(cfg, log, FRESH, obs)
    ensures var (ks, evs) := RunKey(cfg, log, FRESH, obs);
            AllNone(evs) && Between(ks, Hist(obs), 0) && ks.ewma.Some?
            && ks.reference.value.mean == ConfSum(obs) / |obs| as real
  {
    hide Drifted;
    var w, ewma := WindowCloses(cfg, log, FRESH, obs);
    var evs := RunKey(cfg, log, FRESH, obs).1;
    assert evs == evs[..|obs| - 1] + [evs[|obs| - 1]];
  }

  lemma {:induction false} ReplacedWindow(cfg: Config, log: Log, ks: KeyState, obs: seq<Observation>, hist: Counter,
      hits: nat)
    requires log.Lawful() && cfg.jsThreshold < 1.0
    requires |obs| == cfg.windowEvents && |obs| > 0 && NoTimeouts(cfg, log, ks, obs)
    requires Between(ks, hist, hits) && hits < Required(cfg) && Total(hist) > 0
    requires forall i :: 0 <= i < |obs| ==> obs[i].shape !in hist
    ensures var (ks', evs) := RunKey(cfg, log, ks, obs);
            && AllNone(evs[..|obs| - 1])
            && (evs[|obs| - 1].Some? <==> hits + 1 == Required(cfg))
            && Between(ks', hist, if hits + 1 == Required(cfg) then 0 else hits + 1)
  {
    hide Js;
    var w, ewma := WindowCloses(cfg, log, ks, obs);
    HistFacts(obs);
    assert DisjointSupports(hist, w.shapes);
    JsIsOneIffDisjoint(log, hist, w.shapes);
  }

  /** After j replaced windows the counter stands at j, and only the last of `Required` many has fired. */
  lemma {:induction false} ReplacedWindows(cfg: Config, log: Log, windows: seq<seq<Observation>>)
    requires log.Lawful() && cfg.jsThreshold < 1.0 && cfg.windowEvents > 0
    requires ShapesReplaced(cfg, windows) && |windows| - 1 <= Required(cfg)
    requires NoTimeouts(cfg, log, FRESH, Flatten(windows))
    ensures var (ks, evs) := RunKey(cfg, log, FRESH, Flatten(windows));
            var j := |windows| - 1;
            && Between(ks, Hist(windows[0]), if j == Required(cfg) then 0 else j)
            && |evs| > 0 && AllNone(evs[..|evs| - 1])
            && (evs[|evs| - 1].Some? <==> j == Required(cfg))
    decreases |windows|
  {
    hide Observed, Js, Hist, RunKey, NoTimeouts, ShapesReplaced, Between, AllNone, Flatten;
    LastReplaced(cfg, windows);
    FlattenLast(windows);
    var init, last := windows[..|windows| - 1], windows[|windows| - 1];
    if init == [] {
      ReferenceWindow(cfg, log, last);
      AllButLast(RunKey(cfg, log, FRESH, last).1);
    } else {
      NoTimeoutsConcat(cfg, log, FRESH, Flatten(init), last);
      ReplacedWindows(cfg, log, init);
      RunKeyConcat(cfg, log, FRESH, Flatten(init), last);
      HistFacts(windows[0]);
      var (ks, first) := RunKey(cfg, log, FRESH, Flatten(init));
      ReplacedWindow(cfg, log, ks, last, Hist(windows[0]), |init| - 1);
      AllOfThem(first);
      SplitLast(first, RunKey(cfg, log, ks, last).1);
    }
  }

  lemma LastReplaced(cfg: Config, windows: seq<seq<Observation>>)
    requires ShapesReplaced(cfg, windows)
    ensures windows != []
    ensures var init, last := windows[..|windows| - 1], windows[|windows| - 1];
            && |last| == |windows[0]| == cfg.windowEvents
            && (init != [] ==> ShapesReplaced(cfg, init) && forall i :: 0 <= i < |last| ==>
                last[i].shape !in Hist(windows[0]))
  {
    hide Hist;
  }

  lemma FlattenLast(windows: seq<seq<Observation>>)
    requires windows != []
    ensures var init, last := windows[..|windows| - 1], windows[|windows| - 1];
            Flatten(windows) == Flatten(init) + last && (init == [] ==> Flatten(windows) == last)
  {
    assert Flatten([]) == [];
    var last := windows[|windows| - 1];
    assert [] + last == last;
  }

  lemma AllButLast(evs: seq<Option<DriftEvent>>)
    requires AllNone(evs) && evs != []
    ensures AllNone(evs[..|evs| - 1]) && evs[|evs| - 1].None?
  {
  }

  lemma AllOfThem(evs: seq<Option<DriftEvent>>)
    requires evs != [] && AllNone(evs[..|evs| - 1]) && evs[|evs| - 1].None?
    ensures AllNone(evs)
  {
    assert forall i :: 0 <= i < |evs| - 1 ==> evs[i] == evs[..|evs| - 1][i];
  }

  lemma SplitLast(a: seq<Option<DriftEvent>>, b: seq<Option<DriftEvent>>)
    requires AllNone(a) && b != [] && AllNone(b[..|b| - 1])
    ensures AllNone((a + b)[..|a + b| - 1]) && (a + b)[|a + b| - 1] == b[|b| - 1]
  {
    forall i | 0 <= i < |a + b| - 1
      ensures (a + b)[i].None?
    {
      if i >= |a| { assert b[..|b| - 1][i - |a|].None?; }
    }
  }

  /** Detection latency: when every shape is replaced after the reference window, the first event comes with
      observation W + k * W exactly. */
  lemma {:induction false} FirstEventAfterKWindows(cfg: Config, log: Log, windows: seq<seq<Observation>>)
    requires log.Lawful() && cfg.jsThreshold < 1.0 && cfg.windowEvents > 0
    requires ShapesReplaced(cfg, windows) && |windows| == 1 + Required(cfg)
    requires NoTimeouts(cfg, log, FRESH, Flatten(windows))
    ensures var evs := RunKey(cfg, log, FRESH, Flatten(windows)).1;
            var last := cfg.windowEvents + Required(cfg) * cfg.windowEvents;
            && |evs| == last
            && (forall i :: 0 <= i < last - 1 ==> evs[i].None?)
            && evs[last - 1].Some?
  {
    hide Observed;
    ReplacedWindows(cfg, log, windows);
    FlattenLength(windows, cfg.windowEvents);
    var k, n: nat := Required(cfg), cfg.windowEvents;
    assert (1 + k) * n == n + k * n;
    var evs := RunKey(cfg, log, FRESH, Flatten(windows)).1;
    assert forall i :: 0 <= i < |evs| - 1 ==> evs[i] == evs[..|evs| - 1][i];
  }

  // ------------------------------------------------------------ no false alarms

  ghost predicate Steady(windows: seq<seq<Observation>>, n: int, c: real) {
    && (forall j :: 0 <= j < |windows| ==> |windows[j]| == n && SameShares(Hist(windows[0]), Hist(windows[j])))
    && (forall j, i :: 0 <= j < |windows| && 0 <= i < |windows[j]| ==> windows[j][i].confidence == c)
  }

  lemma {:induction false} ConstantConfidence(cfg: Config, log: Log, ks: KeyState, obs: seq<Observation>, c: real)
    requires forall i :: 0 <= i < |obs| ==> obs[i].confidence == c
    requires ks.ewma.Some? ==> ks.ewma.value == c
    ensures ConfSum(obs) == c * |obs| as real
    ensures var ks' := RunKey(cfg, log, ks, obs).0;
            ks'.ewma.Some? ==> ks'.ewma.value == c
  {
    hide Drifted, EventOf;
    if obs != [] {
      ConstantConfidence(cfg, log, ks, obs[..|obs| - 1], c);
      assert c * (|obs| - 1) as real + c == c * |obs| as real;
      assert 0.9 * c + 0.1 * c == c;
    }
  }

  lemma MeanOfConstant(c: real, n: nat, sum: real)
    requires n > 0 && sum == c * n as real
    ensures sum / n as real == c
  {
  }

  lemma SteadyIsNotDrifted(cfg: Config, log: Log, ref: Reference, hist: Counter, ewma: real)
    requires log.Lawful() && cfg.jsThreshold >= 0.0 && cfg.confidenceDrop >= 0.0
    requires SameShares(ref.hist, hist) && ref.mean == ewma
    ensures !Drifted(cfg, log, ref, hist, ewma)
  {
    JsEnds(log, ref.hist, hist);
  }

  lemma {:induction false} SteadyWindow(cfg: Config, log: Log, ks: KeyState, obs: seq<Observation>, hist: Counter,
      c: real)
    requires log.Lawful() && cfg.jsThreshold >= 0.0 && cfg.confidenceDrop >= 0.0
    requires |obs| == cfg.windowEvents && |obs| > 0 && NoTimeouts(cfg, log, ks, obs)
    requires Between(ks, hist, 0) && SameShares(hist, Hist(obs))
    requires ks.reference.value.mean == c && (ks.ewma.Some? ==> ks.ewma.value == c)
    requires forall i :: 0 <= i < |obs| ==> obs[i].confidence == c
    ensures var (ks', evs) := RunKey(cfg, log, ks, obs);
            && AllNone(evs) && Between(ks', hist, 0) && ks'.reference == ks.reference
            && (ks'.ewma.Some? ==> ks'.ewma.value == c)
  {
    hide Drifted, RunKey, NoTimeouts, Hist, ConfSum, SameShares, EventOf;
    var w, ewma := WindowCloses(cfg, log, ks, obs);
    var init := obs[..|obs| - 1];
    ConstantConfidence(cfg, log, ks, init, c);
    ConstantConfidence(cfg, log, ks, obs, c);
    assert 0.9 * c + 0.1 * c == c;
    SteadyIsNotDrifted(cfg, log, ks.reference.value, w.shapes, ewma);
    var evs := RunKey(cfg, log, ks, obs).1;
    assert evs == evs[..|obs| - 1] + [evs[|obs| - 1]];
  }

  lemma {:induction false} SteadyWindows(cfg: Config, log: Log, windows: seq<seq<Observation>>, c: real)
    requires log.Lawful() && cfg.jsThreshold >= 0.0 && cfg.confidenceDrop >= 0.0 && cfg.windowEvents > 0
    requires windows != [] && Steady(windows, cfg.windowEvents, c) && NoTimeouts(cfg, log, FRESH, Flatten(windows))
    ensures var (ks, evs) := RunKey(cfg, log, FRESH, Flatten(windows));
            && AllNone(evs) && Between(ks, Hist(windows[0]), 0)
            && ks.reference.value.mean == c && (ks.ewma.Some? ==> ks.ewma.value == c)
    decreases |windows|
  {
    hide Observed, Js, SameShares, Hist, RunKey, NoTimeouts, ConfSum;
    var init, last := windows[..|windows| - 1], windows[|windows| - 1];
    if init == [] {
      assert Flatten(init) == [];
      assert Flatten(windows) == last;
      ReferenceWindow(cfg, log, last);
      ConstantConfidence(cfg, log, FRESH, last, c);
      MeanOfConstant(c, |last|, ConfSum(last));
    } else {
      NoTimeoutsConcat(cfg, log, FRESH, Flatten(init), last);
      assert init[0] == windows[0];
      SteadyWindows(cfg, log, init, c);
      RunKeyConcat(cfg, log, FRESH, Flatten(init), last);
      var (ks, first) := RunKey(cfg, log, FRESH, Flatten(init));
      assert windows[|init|] == last && SameShares(Hist(windows[0]), Hist(last));
      assert forall i :: 0 <= i < |last| ==> windows[|init|][i].confidence == c;
      SteadyWindow(cfg, log, ks, last, Hist(windows[0]), c);
    }
  }

  /** No false alarm: windows in the reference's proportions, at constant confidence, never raise an event,
      whatever part of a further window follows them. */
  lemma {:induction false} SteadyTrafficIsQuiet(cfg: Config, log: Log, windows: seq<seq<Observation>>,
      tail: seq<Observation>, c: real)
    requires log.Lawful() && cfg.jsThreshold >= 0.0 && cfg.confidenceDrop >= 0.0 && cfg.windowEvents > 0
    requires windows != [] && Steady(windows, cfg.windowEvents, c) && |tail| < cfg.windowEvents
    requires NoTimeouts(cfg, log, FRESH, Flatten(windows) + tail)
    ensures AllNone(RunKey(cfg, log, FRESH, Flatten(windows) + tail).1)
  {
    hide Observed;
    NoTimeoutsConcat(cfg, log, FRESH, Flatten(windows), tail);
    SteadyWindows(cfg, log, windows, c);
    RunKeyConcat(cfg, log, FRESH, Flatten(windows), tail);
    Filling(cfg, log, RunKey(cfg, log, FRESH, Flatten(windows)).0, tail);
  }

  // ------------------------------------------------------------ falling confidence

  /** The n-th power of 0.9. */
  function Fading(n: nat): real { if n == 0 then 1.0 else 0.9 * Fading(n - 1) }

  /** The average that starts at e after n observations at confidence c. */
  function Average(e: real, c: real, n: nat): real { c + Fading(n) * (e - c) }

  lemma AverageStep(e: real, c: real, n: nat)
    ensures Average(e, c, 0) == e
    ensures Average(e, c, n + 1) == 0.9 * Average(e, c, n) + 0.1 * c
  {
    var d := e - c;
    assert (0.9 * Fading(n)) * d == 0.9 * (Fading(n) * d);
  }

  lemma ObservedSmooths(cfg: Config, log: Log, ks: KeyState, o: Observation)
    requires Watched(o)
    ensures Observed(cfg, log, ks, o).0.ewma == Some(Smoothed(ks, o))
  {
    hide Drifted, EventOf, Filled;
  }

  /** The smoothing law, over any number of windows; with no average yet the first confidence is the start. */
  lemma {:induction false} SmoothingLaw(cfg: Config, log: Log, ks: KeyState, obs: seq<Observation>, c: real)
    requires forall i :: 0 <= i < |obs| ==> Watched(obs[i]) && obs[i].confidence == c
    requires ks.ewma.Some? || obs != []
    ensures RunKey(cfg, log, ks, obs).0.ewma
            == Some(Average(if ks.ewma.Some? then ks.ewma.value else c, c, |obs|))
  {
    hide Observed, Average;
    var e := if ks.ewma.Some? then ks.ewma.value else c;
    if obs == [] {
      AverageStep(e, c, 0);
    } else {
      AverageStep(e, c, |obs| - 1);
      var init := obs[..|obs| - 1];
      if ks.ewma.Some? || init != [] {
        SmoothingLaw(cfg, log, ks, init, c);
      } else {
        AverageStep(e, c, 0);
      }
      ObservedSmooths(cfg, log, RunKey(cfg, log, ks, init).0, obs[|obs| - 1]);
    }
  }

  lemma {:induction false} AllWatched(cfg: Config, log: Log, ks: KeyState, obs: seq<Observation>)
    requires NoTimeouts(cfg, log, ks, obs)
    ensures forall i :: 0 <= i < |obs| ==> Watched(obs[i])
  {
    if obs != [] { AllWatched(cfg, log, ks, obs[..|obs| - 1]); }
  }

  /** With unchanged shares nothing but the fall of the average can drift. */
  lemma DriftedIffLow(cfg: Config, log: Log, ref: Reference, hist: Counter, ewma: real)
    requires log.Lawful() && cfg.jsThreshold >= 0.0 && cfg.confidenceDrop >= 0.0 && SameShares(ref.hist, hist)
    ensures Drifted(cfg, log, ref, hist, ewma) <==> ref.mean - ewma > cfg.confidenceDrop
    ensures !(Js(log, ref.hist, hist) > cfg.jsThreshold)
  {
    hide Js;
    JsEnds(log, ref.hist, hist);
  }

  /** One window of unchanged shares at constant confidence: it drifts exactly if its end finds the average low. */
  lemma {:induction false} FadedWindow(cfg: Config, log: Log, ks: KeyState, obs: seq<Observation>, hist: Counter,
      hits: nat, c: real)
    requires log.Lawful() && cfg.jsThreshold >= 0.0 && cfg.confidenceDrop >= 0.0
    requires |obs| == cfg.windowEvents && |obs| > 0 && NoTimeouts(cfg, log, ks, obs)
    requires Between(ks, hist, hits) && hits < Required(cfg) && ks.ewma.Some? && SameShares(hist, Hist(obs))
    requires forall i :: 0 <= i < |obs| ==> obs[i].confidence == c
    ensures var (ks', evs) := RunKey(cfg, log, ks, obs);
            var after := Average(ks.ewma.value, c, |obs|);
            var low := ks.reference.value.mean - after > cfg.confidenceDrop;
            var fires := low && hits + 1 == Required(cfg);
            && AllNone(evs[..|obs| - 1])
            && (evs[|obs| - 1].Some? <==> fires)
            && (fires ==> evs[|obs| - 1].value.reason == "confidence_drop")
            && ks'.ewma == Some(after) && ks'.reference == ks.reference
            && Between(ks', hist, if low && !fires then hits + 1 else 0)
  {
    hide Js, Drifted, RunKey, NoTimeouts, Hist, SameShares, Average;
    var w, ewma := WindowCloses(cfg, log, ks, obs);
    AllWatched(cfg, log, ks, obs);
    SmoothingLaw(cfg, log, ks, obs, c);
    DriftedIffLow(cfg, log, ks.reference.value, w.shapes, ewma);
  }

  /** Windows of the reference's shares; after the reference window the confidence is c. */
  ghost predicate Faded(windows: seq<seq<Observation>>, n: int, c: real) {
    && (forall j :: 0 <= j < |windows| ==> |windows[j]| == n && SameShares(Hist(windows[0]), Hist(windows[j])))
    && (forall j, i :: 1 <= j < |windows| && 0 <= i < |windows[j]| ==> windows[j][i].confidence == c)
  }

  /** The average at the end of the reference window. */
  ghost function Start(cfg: Config, log: Log, first: seq<Observation>): real {
    var e := RunKey(cfg, log, FRESH, first).0.ewma;
    if e.Some? then e.value else 0.0
  }

  /** The j-th window after the reference window ends with the average too far below the reference mean. */
  ghost predicate Low(cfg: Config, log: Log, first: seq<Observation>, c: real, j: nat) {
    |first| > 0 &&
    ConfSum(first) / |first| as real - Average(Start(cfg, log, first), c, j * |first|) > cfg.confidenceDrop
  }

  ghost function Lows(cfg: Config, log: Log, first: seq<Observation>, c: real, m: nat): (vs: seq<bool>)
    ensures |vs| == m
  {
    if m == 0 then [] else Lows(cfg, log, first, c, m - 1) + [Low(cfg, log, first, c, m)]
  }

  lemma {:induction false} FadingAdds(n: nat, m: nat)
    ensures Fading(n + m) == Fading(n) * Fading(m)
  {
    if m > 0 {
      FadingAdds(n, m - 1);
      assert 0.9 * (Fading(n) * Fading(m - 1)) == Fading(n) * (0.9 * Fading(m - 1));
    }
  }

  lemma AveragesCompose(e: real, c: real, n: nat, m: nat)
    ensures Average(Average(e, c, n), c, m) == Average(e, c, n + m)
  {
    FadingAdds(n, m);
    var f, g, d := Fading(n), Fading(m), e - c;
    assert g * (f * d) == (f * g) * d;
  }

  lemma {:induction false} FiredConcat(a: seq<Option<DriftEvent>>, b: seq<Option<DriftEvent>>)
    requires b != [] && AllNone(b[..|b| - 1])
    ensures Fired(a + b) == Fired(a) + if b[|b| - 1].Some? then 1 else 0
  {
    var init, last := b[..|b| - 1], b[|b| - 1];
    NoneFired(a, init);
    FiredSnoc(a + init, last);
    assert a + b == (a + init) + [last];
  }

  lemma {:induction false} NoneFired(a: seq<Option<DriftEvent>>, b: seq<Option<DriftEvent>>)
    requires AllNone(b)
    ensures Fired(a + b) == Fired(a)
  {
    if b == [] {
      assert a + b == a;
    } else {
      NoneFired(a, b[..|b| - 1]);
      FiredSnoc(a + b[..|b| - 1], b[|b| - 1]);
      assert a + b == (a + b[..|b| - 1]) + [b[|b| - 1]];
    }
  }

  lemma {:induction false} NoneIfNoneFired(evs: seq<Option<DriftEvent>>)
    requires Fired(evs) == 0
    ensures AllNone(evs)
  {
    if evs != [] {
      NoneIfNoneFired(evs[..|evs| - 1]);
      assert forall i :: 0 <= i < |evs| - 1 ==> evs[i] == evs[..|evs| - 1][i];
    }
  }

  /** Where the monitor stands after m windows that follow the reference window. */
  ghost predicate FadedTo(cfg: Config, log: Log, ks: KeyState, first: seq<Observation>, c: real, m: nat) {
    && |first| > 0 && WindowIsEmpty(ks)
    && ks.reference == Some(Reference(Hist(first), ConfSum(first) / |first| as real))
    && ks.ewma == Some(Average(Start(cfg, log, first), c, m * |first|))
  }

  lemma FadedStarts(cfg: Config, log: Log, first: seq<Observation>, c: real)
    requires |first| == cfg.windowEvents && |first| > 0 && NoTimeouts(cfg, log, FRESH, first)
    ensures var (ks, evs) := RunKey(cfg, log, FRESH, first);
            AllNone(evs) && FadedTo(cfg, log, ks, first, c, 0) && ks.hits == 0
  {
    hide RunKey, NoTimeouts, Hist, Average;
    ReferenceWindow(cfg, log, first);
    AverageStep(Start(cfg, log, first), c, 0);
  }

  lemma {:induction false} FadedContinues(cfg: Config, log: Log, ks: KeyState, first: seq<Observation>, m: nat,
      obs: seq<Observation>, c: real)
    requires log.Lawful() && cfg.jsThreshold >= 0.0 && cfg.confidenceDrop >= 0.0
    requires |obs| == |first| == cfg.windowEvents && NoTimeouts(cfg, log, ks, obs)
    requires FadedTo(cfg, log, ks, first, c, m) && ks.hits < Required(cfg) && SameShares(Hist(first), Hist(obs))
    requires forall i :: 0 <= i < |obs| ==> obs[i].confidence == c
    ensures var (ks', evs) := RunKey(cfg, log, ks, obs);
            var low := Low(cfg, log, first, c, m + 1);
            var fires := low && ks.hits + 1 == Required(cfg);
            && FadedTo(cfg, log, ks', first, c, m + 1)
            && AllNone(evs[..|obs| - 1])
            && (evs[|obs| - 1].Some? <==> fires)
            && (fires ==> evs[|obs| - 1].value.reason == "confidence_drop")
            && ks'.hits == if low && !fires then ks.hits + 1 else 0
  {
    hide RunKey, NoTimeouts, Hist, Average, SameShares, ConfSum, Start;
    FadedWindow(cfg, log, ks, obs, Hist(first), ks.hits, c);
    var n := |first|;
    assert (m + 1) * n == m * n + n;
    AveragesCompose(Start(cfg, log, first), c, m * n, n);
  }

  lemma LastFaded(windows: seq<seq<Observation>>, n: int, c: real)
    requires |windows| > 1 && Faded(windows, n, c)
    ensures var init, last := windows[..|windows| - 1], windows[|windows| - 1];
            && Faded(init, n, c) && init[0] == windows[0] && |windows[0]| == |last| == n
            && SameShares(Hist(windows[0]), Hist(last)) && forall i :: 0 <= i < |last| ==> last[i].confidence == c
  {
    hide SameShares, Hist;
    var init, last := windows[..|windows| - 1], windows[|windows| - 1];
    var n' := |windows| - 1;
    forall i | 0 <= i < |last|
      ensures last[i].confidence == c
    {
      assert windows[n'][i].confidence == c;
    }
    forall j | 0 <= j < |init|
      ensures |init[j]| == n && SameShares(Hist(windows[0]), Hist(init[j]))
    {
      assert init[j] == windows[j];
    }
    forall j, i | 1 <= j < |init| && 0 <= i < |init[j]|
      ensures init[j][i].confidence == c
    {
      assert windows[j][i].confidence == c;
    }
  }

  /** Falling confidence is counted like a change of shapes: of m windows at confidence c those drift that end with
      the average low, and a run of L of them in a row raises L / k events. */
  lemma {:induction false} EventsCountLowRuns(cfg: Config, log: Log, windows: seq<seq<Observation>>, c: real)
    requires log.Lawful() && cfg.jsThreshold >= 0.0 && cfg.confidenceDrop >= 0.0 && cfg.windowEvents > 0
    requires windows != [] && Faded(windows, cfg.windowEvents, c) && NoTimeouts(cfg, log, FRESH, Flatten(windows))
    ensures var (ks, evs) := RunKey(cfg, log, FRESH, Flatten(windows));
            var m, k := |windows| - 1, Required(cfg);
            var runs := DriftedRuns(Lows(cfg, log, windows[0], c, m));
            && FadedTo(cfg, log, ks, windows[0], c, m)
            && Fired(evs) == Quotients(runs, k) && ks.hits == runs[|runs| - 1] % k
    decreases |windows|
  {
    hide Observed, SameShares, Hist, RunKey, NoTimeouts, Low, FadedTo, Faded, DriftedRuns, Quotients, Fired, Flatten;
    var k := Required(cfg);
    var init, last := windows[..|windows| - 1], windows[|windows| - 1];
    FlattenLast(windows);
    NoRuns(k);
    if init == [] {
      FadedAlone(windows, cfg.windowEvents, c);
      FadedStarts(cfg, log, last, c);
      var evs := RunKey(cfg, log, FRESH, last).1;
      NoneFired([], evs);
      assert [] + evs == evs;
    } else {
      LastFaded(windows, cfg.windowEvents, c);
      NoTimeoutsConcat(cfg, log, FRESH, Flatten(init), last);
      EventsCountLowRuns(cfg, log, init, c);
      RunKeyConcat(cfg, log, FRESH, Flatten(init), last);
      var (ks, first) := RunKey(cfg, log, FRESH, Flatten(init));
      FadedContinues(cfg, log, ks, windows[0], |init| - 1, last, c);
      FiredConcat(first, RunKey(cfg, log, ks, last).1);
      VerdictCounts(Lows(cfg, log, windows[0], c, |init| - 1), Low(cfg, log, windows[0], c, |init|), k);
    }
  }

  lemma FadedAlone(windows: seq<seq<Observation>>, n: int, c: real)
    requires |windows| == 1 && Faded(windows, n, c)
    ensures |windows[0]| == n
  {
  }

  /** Windows that are not low, then t low ones. */
  lemma {:induction false} RunsOfLate(cfg: Config, log: Log, first: seq<Observation>, c: real, a: nat, t: nat, k: nat)
    requires t < k && a >= 1
    requires forall j: nat :: 1 <= j < a ==> !Low(cfg, log, first, c, j)
    requires forall j: nat :: a <= j < a + t ==> Low(cfg, log, first, c, j)
    ensures var runs := DriftedRuns(Lows(cfg, log, first, c, a - 1 + t));
            Quotients(runs, k) == 0 && runs[|runs| - 1] == t
    decreases a + t
  {
    hide Low, DriftedRuns, Quotients;
    NoRuns(k);
    var m := a - 1 + t;
    if m > 0 {
      RunsOfLate(cfg, log, first, c, if t == 0 then a - 1 else a, if t == 0 then 0 else t - 1, k);
      var vs, v := Lows(cfg, log, first, c, m - 1), Low(cfg, log, first, c, m);
      VerdictsSnoc(vs, v);
      VerdictCounts(vs, v, k);
      LastOfRuns(vs, v);
      if t > 0 { DivisionIsUnique(t - 1, k, 0, t - 1); }
    }
  }

  lemma LastOfRuns(vs: seq<bool>, v: bool)
    ensures var runs, runs' := DriftedRuns(vs), DriftedRuns(vs + [v]);
            runs'[|runs'| - 1] == if v then runs[|runs| - 1] + 1 else 0
  {
    hide DriftedRuns;
    VerdictsSnoc(vs, v);
  }

  /** Detection latency of a loss of confidence: if the a-th window after the reference window is the first that ends
      low, and k - 1 more follow, the first event comes with the last observation of the last of them. */
  lemma {:induction false} FirstConfidenceEvent(cfg: Config, log: Log, windows: seq<seq<Observation>>, c: real, a: nat)
    requires log.Lawful() && cfg.jsThreshold >= 0.0 && cfg.confidenceDrop >= 0.0 && cfg.windowEvents > 0
    requires a >= 1 && |windows| == a + Required(cfg)
    requires Faded(windows, cfg.windowEvents, c) && NoTimeouts(cfg, log, FRESH, Flatten(windows))
    requires forall j: nat :: 1 <= j < a ==> !Low(cfg, log, windows[0], c, j)
    requires forall j: nat :: a <= j < |windows| ==> Low(cfg, log, windows[0], c, j)
    ensures var evs := RunKey(cfg, log, FRESH, Flatten(windows)).1;
            var last := (a + Required(cfg)) * cfg.windowEvents;
            && |evs| == last
            && (forall i :: 0 <= i < last - 1 ==> evs[i].None?)
            && evs[last - 1].Some? && evs[last - 1].value.reason == "confidence_drop"
  {
    hide Observed, SameShares, Hist, RunKey, NoTimeouts, Low, FadedTo, Faded, DriftedRuns, Quotients, Fired, Flatten;
    var k := Required(cfg);
    var init, last := windows[..|windows| - 1], windows[|windows| - 1];
    FlattenLast(windows);
    LastFaded(windows, cfg.windowEvents, c);
    NoTimeoutsConcat(cfg, log, FRESH, Flatten(init), last);
    EventsCountLowRuns(cfg, log, init, c);
    RunsOfLate(cfg, log, windows[0], c, a, k - 1, k);
    DivisionIsUnique(k - 1, k, 0, k - 1);
    RunKeyConcat(cfg, log, FRESH, Flatten(init), last);
    var (ks, first) := RunKey(cfg, log, FRESH, Flatten(init));
    NoneIfNoneFired(first);
    FadedContinues(cfg, log, ks, windows[0], |init| - 1, last, c);
    var second := RunKey(cfg, log, ks, last).1;
    SplitLast(first, second);
    var evs := first + second;
    assert forall i :: 0 <= i < |evs| - 1 ==> evs[i] == evs[..|evs| - 1][i];
    FadedLengths(windows, cfg.windowEvents, c);
  }

  lemma FadedLengths(windows: seq<seq<Observation>>, n: nat, c: real)
    requires Faded(windows, n, c)
    ensures |Flatten(windows)| == |windows| * n
  {
    FlattenLength(windows, n);
  }

  lemma {:induction false} FadingFalls(n: nat)
    ensures 0.0 < Fading(n) <= 1.0
    ensures Fading(n) * (9 + n) as real <= 9.0
  {
    if n > 0 {
      FadingFalls(n - 1);
      var f, x := Fading(n - 1), (9 + n - 1) as real;
      assert (9 + n) as real == x + 1.0 && f * (x + 1.0) == f * x + f;
      assert Fading(n) * (x + 1.0) == 0.9 * (f * (x + 1.0));
      assert f * 9.0 <= f * x;
      assert 0.9 * (f * x + f) <= f * x;
    }
  }

  lemma FadesBelow(d: real, e: real) returns (n: nat)
    requires d > 0.0 && e > 0.0
    ensures forall m: nat :: m >= n ==> Fading(m) * d < e
  {
    n := (9.0 * d / e).Floor + 1;
    forall m: nat | m >= n
      ensures Fading(m) * d < e
    {
      FadingFalls(m);
      var x, f := (9 + m) as real, Fading(m);
      assert x > 9.0 * d / e;
      assert x * e > 9.0 * d by { assert 9.0 * d / e * e == 9.0 * d; TimesPositive(9.0 * d / e, x, e); }
      assert (f * d) * x == (f * x) * d;
      assert (f * x) * d <= 9.0 * d by { AtMostTimes(f * x, 9.0, d); }
      if f * d >= e { AtMostTimes(e, f * d, x); }
    }
  }

  lemma TimesPositive(a: real, b: real, c: real)
    requires a < b && c > 0.0
    ensures a * c < b * c
  {
  }

  lemma AtMostTimes(a: real, b: real, c: real)
    requires a <= b && c >= 0.0
    ensures a * c <= b * c
  {
  }

  /** The average moves from its start towards the confidence and never past it. */
  lemma {:induction false} AverageIsBetween(e: real, c: real, n: nat, m: nat)
    requires n <= m
    ensures e >= c ==> c <= Average(e, c, m) <= Average(e, c, n) <= e
    ensures e <= c ==> e <= Average(e, c, n) <= Average(e, c, m) <= c
    decreases m
  {
    FadingFalls(n);
    if n < m {
      AverageIsBetween(e, c, n, m - 1);
      AverageStep(e, c, m - 1);
    } else if n > 0 {
      AverageIsBetween(e, c, n - 1, n - 1);
      AverageStep(e, c, n - 1);
    }
  }

  /** From some observation on the average is low, or not low, for good: low exactly if the fall to c is larger than
      the setting, or just that size for an average that has yet to rise to c. */
  lemma {:induction false} LowInTheEndIff(d: real, r: real, e: real, c: real) returns (a: nat)
    ensures forall n: nat :: n >= a ==> (r - Average(e, c, n) > d <==> r - c > d || (r - c == d && e < c))
  {
    hide Fading, Average;
    if r - c > d {
      a := AverageApproaches(e, c, r - c - d);
    } else if r - c == d && e < c {
      a := 0;
      forall n: nat
        ensures r - Average(e, c, n) > d
      {
        AverageStaysOff(e, c, n);
      }
    } else {
      a := NotLowInTheEnd(d, r, e, c);
    }
  }

  /** So windows at confidence c end low from some window on, or from some window on never again. */
  lemma {:induction false} WindowsLowInTheEndIff(cfg: Config, log: Log, first: seq<Observation>, c: real)
    returns (a: nat)
    requires |first| > 0
    ensures var fall, e := ConfSum(first) / |first| as real - c, Start(cfg, log, first);
            forall j: nat :: j >= a ==>
              (Low(cfg, log, first, c, j) <==> fall > cfg.confidenceDrop || (fall == cfg.confidenceDrop && e < c))
  {
    hide Average, Start, ConfSum;
    a := LowInTheEndIff(cfg.confidenceDrop, ConfSum(first) / |first| as real, Start(cfg, log, first), c);
    forall j: nat | j >= a
      ensures j * |first| >= a
    {
      assert j * |first| >= j * 1;
    }
  }

  lemma AverageApproaches(e: real, c: real, gap: real) returns (a: nat)
    requires gap > 0.0
    ensures forall n: nat :: n >= a ==> Average(e, c, n) - c < gap
  {
    if e > c {
      a := FadesBelow(e - c, gap);
    } else {
      a := 0;
      forall n: nat | n >= a
        ensures Average(e, c, n) - c < gap
      {
        AverageIsBetween(e, c, n, n);
      }
    }
  }

  lemma AverageStaysOff(e: real, c: real, n: nat)
    requires e < c
    ensures Average(e, c, n) < c
  {
    FadingFalls(n);
    TimesPositive(0.0, Fading(n), c - e);
    assert Fading(n) * (e - c) == -(Fading(n) * (c - e));
  }

  lemma NotLowInTheEnd(d: real, r: real, e: real, c: real) returns (a: nat)
    requires r - c <= d && !(r - c == d && e < c)
    ensures forall n: nat :: n >= a ==> r - Average(e, c, n) <= d
  {
    a := 0;
    if e < c { a := FadesBelow(c - e, d - (r - c)); }
    forall n: nat | n >= a
      ensures r - Average(e, c, n) <= d
    {
      assert Fading(n) * (e - c) == -(Fading(n) * (c - e));
      AverageIsBetween(e, c, n, n);
    }
  }

  // ------------------------------------------------------------ the monitor

  /** What the four maps hold for one key. */
  ghost function StateIn(windows: map<Key, Window>, hits: map<Key, nat>, ewma: map<Key, real>,
      reference: map<Key, Reference>, k: Key): KeyState {
    KeyState(if k in windows then Some(windows[k]) else None,
             if k in ewma then Some(ewma[k]) else None,
             if k in reference then Some(reference[k]) else None,
             if k in hits then hits[k] else 0)
  }

  class DriftMonitor {
    const cfg: Config
    const log: Log
    var windows: map<Key, Window>
    var consecutiveHits: map<Key, nat>
    var ewmaConf: map<Key, real>
    var reference: map<Key, Reference>

    /** With a storage, what has been written to it: the events, and the sources marked degraded. */
    const hasStorage: bool
    var stored: seq<DriftEvent>
    var degraded: set<(string, string)>

    constructor (cfg: Config, log: Log, hasStorage: bool)
      ensures this.cfg == cfg && this.log == log && this.hasStorage == hasStorage
      ensures windows == map[] && consecutiveHits == map[] && ewmaConf == map[] && reference == map[]
      ensures stored == [] && degraded == {}
    {
      this.cfg, this.log, this.hasStorage := cfg, log, hasStorage;
      windows, consecutiveHits, ewmaConf, reference := map[], map[], map[], map[];
      stored, degraded := [], {};
    }

    /** Exactly a returned event is stored, and its source marked. */
    twostate predicate StoredJust(new ev: Option<DriftEvent>)
      reads this
    {
      if hasStorage && ev.Some? then
        stored == old(stored) + [ev.value] && degraded == old(degraded) + {(ev.value.tenant, ev.value.source)}
      else
        stored == old(stored) && degraded == old(degraded)
    }

    ghost function State(k: Key): KeyState
      reads this
    {
      StateIn(windows, consecutiveHits, ewmaConf, reference, k)
    }

    /** Every key but one has the state it had. */
    twostate predicate OthersUnchanged(k: Key)
      reads this
    {
      && windows - {k} == old(windows) - {k}
      && consecutiveHits - {k} == old(consecutiveHits) - {k}
      && ewmaConf - {k} == old(ewmaConf) - {k}
      && reference - {k} == old(reference) - {k}
    }

    method SetReference(k: Key, hist: Counter, mean: real)
      modifies this`reference
      ensures State(k) == old(State(k)).(reference := Some(Reference(hist, mean)))
      ensures OthersUnchanged(k)
    {
      reference := reference[k := Reference(hist, mean)];
    }

    /** The rest of a call that closed a window. */
    method Judge(k: Key, w: Window, ewma: real, o: Observation) returns (ev: Option<DriftEvent>)
      requires k in windows && windows[k] == Emptied(o) && k in ewmaConf && ewmaConf[k] == ewma
      modifies this`reference, this`consecutiveHits, this`stored, this`degraded
      ensures StoredJust(ev)
      ensures (State(k), ev) == Judged(cfg, log, old(State(k)), w, ewma, o)
      ensures ev.Some? <==> k in old(reference) && old(State(k)).hits + 1 >= cfg.consecutive
                            && (|| Js(log, old(reference)[k].hist, w.shapes) > cfg.jsThreshold
                                || old(reference)[k].mean - ewma > cfg.confidenceDrop || cfg.confidenceDrop < 0.0)
      ensures OthersUnchanged(k)
    {
      hide Js, EventOf;
      if k !in reference {
        var mean := if w.n == 0 then 0.0 else w.confSum / w.n as real;
        SetReference(k, w.shapes, mean);
        return None;
      }
      var ref := reference[k];
      var js := JsDivergence(log, ref.hist, w.shapes);
      var drop := if ref.mean - ewma > 0.0 then ref.mean - ewma else 0.0;
      if !(js > cfg.jsThreshold || drop > cfg.confidenceDrop) {
        consecutiveHits := consecutiveHits[k := 0];
        return None;
      }
      var hits := (if k in consecutiveHits then consecutiveHits[k] else 0) + 1;
      consecutiveHits := consecutiveHits[k := hits];
      if hits < cfg.consecutive {
        return None;
      }
      consecutiveHits := consecutiveHits[k := 0];
      var drift := Report(ref, w, ewma, js, o);
      ev := Some(drift);
    }

    /** The event, which is stored, and its source marked, if there is a storage. */
    method Report(ref: Reference, w: Window, ewma: real, js: real, o: Observation) returns (drift: DriftEvent)
      requires js == Js(log, ref.hist, w.shapes)
      modifies this`stored, this`degraded
      ensures drift == EventOf(cfg, log, ref, w, ewma, o) && StoredJust(Some(drift))
    {
      hide Js;
      var reason := if js > cfg.jsThreshold then "js_divergence" else "confidence_drop";
      drift := DriftEvent(o.tenant, o.source, o.parser, Rounded(js), Rounded(ref.mean), Rounded(ewma), ref.hist,
          w.shapes, w.n, reason);
      if hasStorage {
        stored := stored + [drift];
        degraded := degraded + {(o.tenant, o.source)};
      }
    }

    method Observe(o: Observation) returns (ev: Option<DriftEvent>)
      modifies this
      ensures (State(KeyOf(o)), ev) == Observed(cfg, log, old(State(KeyOf(o))), o)
      ensures OthersUnchanged(KeyOf(o)) && StoredJust(ev)
    {
      hide Judged, Increment;
      if o.parser == "engine.quarantine" || o.parser == "none" {
        return None;
      }
      var k := KeyOf(o);
      var w := if k in windows then windows[k] else Window(map[], 0.0, 0, o.clock.begun);
      w := Window(Increment(w.shapes, o.shape), w.confSum + o.confidence, w.n + 1, w.started);
      var prev := if k in ewmaConf then ewmaConf[k] else o.confidence;
      var ewma := 0.9 * prev + 0.1 * o.confidence;
      ewmaConf := ewmaConf[k := ewma];
      var elapsed := o.clock.checked - w.started;
      if w.n < cfg.windowEvents && elapsed < cfg.windowSeconds {
        windows := windows[k := w];
        return None;
      }
      windows := windows[k := Window(map[], 0.0, 0, o.clock.reopened)];
      JudgedByReferenceAndHits(cfg, log, State(k), old(State(k)), w, ewma, o);
      ev := Judge(k, w, ewma, o);
    }
  }
}

/**
 Parser routing with a cache by shape hash (uli/engine.py). Declarative packs are tried in
 registration order, then the structural parsers; the highest positive score wins, the first one on
 a tie. A parser's score is a function of the parser and the event, of which the cache sees the shape only.
 */
module Routing {
  import opened Basics
  import Similarity

  datatype Parser = Parser(id: string, version: string)

  type Shape = string
  type Event = string
  type Score = (Parser, Event) -> real

  /** What parsers make of an event's text: their scores, where a raising `can_parse` scores 0, and whether a parse
      comes out confident enough to be remembered; and the shape hash the event is filed under. */
  datatype Judge = Judge(score: Score, confident: (Parser, Event) -> bool, shapeOf: Event -> Shape)

  datatype State = State(declarative: seq<Parser>, structural: seq<Parser>, cache: map<Shape, string>)

  function All(s: State): seq<Parser> { s.declarative + s.structural }

  // ------------------------------------------------------------ scanning

  datatype Best = Best(parser: Option<Parser>, score: real)

  function ScanTo(score: Score, ps: seq<Parser>, e: Event, n: nat): Best
    requires n <= |ps|
  {
    if n == 0 then Best(None, 0.0)
    else
      var b := ScanTo(score, ps, e, n - 1);
      if score(ps[n - 1], e) > b.score then Best(Some(ps[n - 1]), score(ps[n - 1], e)) else b
  }

  function Scan(score: Score, ps: seq<Parser>, e: Event): Option<Parser> {
    ScanTo(score, ps, e, |ps|).parser
  }

  /** The parser at `k` has a positive score, higher than all before it and not lower than any after it. */
  ghost predicate WinsAt(score: Score, ps: seq<Parser>, e: Event, k: nat)
    requires k < |ps|
  {
    && score(ps[k], e) > 0.0
    && (forall i :: 0 <= i < k ==> score(ps[i], e) < score(ps[k], e))
    && (forall i :: k <= i < |ps| ==> score(ps[i], e) <= score(ps[k], e))
  }

  ghost predicate FirstWith(score: Score, ps: seq<Parser>, e: Event, k: nat, b: Best)
    requires k < |ps|
  {
    b.parser == Some(ps[k]) && score(ps[k], e) == b.score && forall i :: 0 <= i < k ==> score(ps[i], e) < b.score
  }

  lemma {:induction false} ScanToIsFirstMaximum(score: Score, ps: seq<Parser>, e: Event, n: nat)
    requires n <= |ps|
    ensures var b := ScanTo(score, ps, e, n);
            && (forall i :: 0 <= i < n ==> score(ps[i], e) <= b.score)
            && (b.parser.None? ==> b.score == 0.0)
            && (b.parser.Some? ==> b.score > 0.0)
            && (b.parser.Some? ==> exists k :: 0 <= k < n && FirstWith(score, ps, e, k, b))
  {
    if n > 0 {
      ScanToIsFirstMaximum(score, ps, e, n - 1);
      var b, b' := ScanTo(score, ps, e, n - 1), ScanTo(score, ps, e, n);
      if b' != b {
        assert FirstWith(score, ps, e, n - 1, b');
      } else if b.parser.Some? {
        var k :| 0 <= k < n - 1 && FirstWith(score, ps, e, k, b);
        assert FirstWith(score, ps, e, k, b');
      }
    }
  }

  /** The scan picks the first parser with the highest positive score, and none exactly if none is positive. */
  lemma ScanPicksFirstMaximum(score: Score, ps: seq<Parser>, e: Event)
    ensures Scan(score, ps, e).None? <==> forall i :: 0 <= i < |ps| ==> score(ps[i], e) <= 0.0
    ensures Scan(score, ps, e).Some? ==>
              exists k :: 0 <= k < |ps| && ps[k] == Scan(score, ps, e).value && WinsAt(score, ps, e, k)
  {
    ScanToIsFirstMaximum(score, ps, e, |ps|);
    var b := ScanTo(score, ps, e, |ps|);
    if b.parser.Some? {
      var k :| 0 <= k < |ps| && FirstWith(score, ps, e, k, b);
      assert WinsAt(score, ps, e, k);
    }
  }

  lemma WinnerIsScanned(score: Score, ps: seq<Parser>, e: Event, k: nat)
    requires k < |ps| && WinsAt(score, ps, e, k)
    ensures Scan(score, ps, e) == Some(ps[k])
  {
    ScanPicksFirstMaximum(score, ps, e);
    var j :| 0 <= j < |ps| && ps[j] == Scan(score, ps, e).value && WinsAt(score, ps, e, j);
    assert !(j < k) && !(k < j);
  }

  // ------------------------------------------------------------ the registry

  function IndexOf(ps: seq<Parser>, id: string): (k: nat)
    ensures k <= |ps| && (k < |ps| ==> ps[k].id == id) && forall i :: 0 <= i < k ==> ps[i].id != id
  {
    if ps == [] || ps[0].id == id then 0 else 1 + IndexOf(ps[1..], id)
  }

  /** A dictionary keeps the place of a key that is set again. */
  function Put(ps: seq<Parser>, p: Parser): seq<Parser> {
    var k := IndexOf(ps, p.id);
    if k < |ps| then ps[k := p] else ps + [p]
  }

  function Without(ps: seq<Parser>, id: string): seq<Parser> {
    var k := IndexOf(ps, id);
    if k < |ps| then ps[..k] + ps[k + 1..] else ps
  }

  function Registered(s: State, p: Parser): State {
    State(Put(s.declarative, p), s.structural, map[])
  }

  function Retired(s: State, id: string): State {
    State(Without(s.declarative, id), s.structural, map k | k in s.cache && s.cache[k] != id :: s.cache[k])
  }

  /** The parser a cache entry leads to: a pack of that id, else a structural parser of that id. */
  function LookUp(packs: seq<Parser>, structural: seq<Parser>, id: string): Option<Parser> {
    var k, l := IndexOf(packs, id), IndexOf(structural, id);
    if k < |packs| then Some(packs[k])
    else if l < |structural| then Some(structural[l])
    else None
  }

  function Cached(s: State, shape: Shape): Option<Parser> {
    if shape in s.cache && s.cache[shape] != "" then LookUp(s.declarative, s.structural, s.cache[shape]) else None
  }

  function Candidates(s: State, shape: Shape): seq<Parser> {
    match Cached(s, shape)
    case Some(p) => [p]
    case None => All(s)
  }

  /** The parser that gets the event. */
  function Routed(j: Judge, s: State, e: Event): Option<Parser> {
    Scan(j.score, Candidates(s, j.shapeOf(e)), e)
  }

  /** A confident parse is remembered by the id of its parser. */
  function Remembered(s: State, shape: Shape, p: Option<Parser>, confident: bool): State {
    if confident && p.Some? then s.(cache := s.cache[shape := p.value.id]) else s
  }

  /** One event: its confidently parsing winner is remembered for its shape. */
  function RoutedState(j: Judge, s: State, e: Event): State {
    var p := Routed(j, s, e);
    Remembered(s, j.shapeOf(e), p, p.Some? && j.confident(p.value, e))
  }

  // ------------------------------------------------------------ what every history keeps

  ghost predicate DistinctIds(ps: seq<Parser>) {
    forall i, j :: 0 <= i < j < |ps| ==> ps[i].id != ps[j].id
  }

  /** An event of the shape for which the scan picks the cached parser now, and which it parses with confidence. */
  ghost predicate IsWitness(j: Judge, s: State, shape: Shape, e: Event)
    requires shape in s.cache
  {
    && j.shapeOf(e) == shape
    && Scan(j.score, All(s), e).Some? && Scan(j.score, All(s), e).value.id == s.cache[shape]
    && j.confident(Scan(j.score, All(s), e).value, e)
  }

  /** Every usable cache entry names the winner of the current scan for some event of its shape. */
  ghost predicate CacheIsWitnessed(j: Judge, s: State) {
    forall shape :: shape in s.cache && s.cache[shape] != "" ==> exists e :: IsWitness(j, s, shape, e)
  }

  ghost predicate Valid(j: Judge, s: State) {
    DistinctIds(All(s)) && CacheIsWitnessed(j, s)
  }

  /** If an event has a winner that parses it with confidence, no other event of its shape has another winner. */
  ghost predicate ShapesDecide(j: Judge, ps: seq<Parser>) {
    forall e, e' :: j.shapeOf(e) == j.shapeOf(e') ==> Decided(j, ps, e, e')
  }

  ghost predicate Decided(j: Judge, ps: seq<Parser>, e: Event, e': Event) {
    var w, w' := Scan(j.score, ps, e), Scan(j.score, ps, e');
    w.Some? && w'.Some? && w.value.id != "" && j.confident(w.value, e) ==> w == w'
  }

  lemma LookUpFinds(s: State, k: nat)
    requires DistinctIds(All(s)) && k < |All(s)|
    ensures LookUp(s.declarative, s.structural, All(s)[k].id) == Some(All(s)[k])
  {
    var n, id := |s.declarative|, All(s)[k].id;
    var i, j := IndexOf(s.declarative, id), IndexOf(s.structural, id);
    if i < n { assert All(s)[i].id == id; }
    if j < |s.structural| { assert All(s)[n + j].id == id; }
    if k < n { assert s.declarative[k] == All(s)[k]; } else { assert s.structural[k - n] == All(s)[k]; }
  }

  lemma ScanOfOne(score: Score, p: Parser, e: Event)
    ensures Scan(score, [p], e) == if score(p, e) > 0.0 then Some(p) else None
  {
    assert ScanTo(score, [p], e, 0) == Best(None, 0.0);
  }

  /** A usable entry leads to the parser that wins for its witness. */
  lemma EntryLeadsToWinner(j: Judge, s: State, shape: Shape) returns (e: Event)
    requires Valid(j, s) && shape in s.cache && s.cache[shape] != ""
    ensures IsWitness(j, s, shape, e) && Cached(s, shape) == Scan(j.score, All(s), e)
  {
    hide Scan, LookUp;
    e :| IsWitness(j, s, shape, e);
    ScanPicksFirstMaximum(j.score, All(s), e);
    var k :| 0 <= k < |All(s)| && All(s)[k] == Scan(j.score, All(s), e).value;
    LookUpFinds(s, k);
  }

  /** Where the shape decides, routing through the cache picks the parser the full scan would pick, ties included. */
  lemma RoutingIsTheFullScan(j: Judge, s: State, e: Event)
    requires Valid(j, s) && ShapesDecide(j, All(s))
    ensures Routed(j, s, e) == Scan(j.score, All(s), e)
  {
    hide Scan, LookUp;
    var shape := j.shapeOf(e);
    if Cached(s, shape).Some? {
      var e0 := EntryLeadsToWinner(j, s, shape);
      assert Decided(j, All(s), e0, e);
      ScanOfOne(j.score, Cached(s, shape).value, e);
      ScanPicksFirstMaximum(j.score, All(s), e);
      ScanPicksFirstMaximum(j.score, All(s), e0);
    }
  }

  lemma RememberedIsValid(j: Judge, s: State, e: Event)
    requires Valid(j, s)
    ensures Valid(j, RoutedState(j, s, e))
  {
    hide Scan, LookUp;
    var shape, p, s' := j.shapeOf(e), Routed(j, s, e), RoutedState(j, s, e);
    if p.Some? && j.confident(p.value, e) {
      if Cached(s, shape).Some? {
        ScanOfOne(j.score, Cached(s, shape).value, e);
        var e0 := EntryLeadsToWinner(j, s, shape);
        assert IsWitness(j, s', shape, e0);
      } else {
        assert IsWitness(j, s', shape, e);
      }
      forall other | other in s'.cache && s'.cache[other] != "" && other != shape
        ensures exists e' :: IsWitness(j, s', other, e')
      {
        var e' :| IsWitness(j, s, other, e');
        assert IsWitness(j, s', other, e');
      }
    }
  }

  lemma RegisteredIsValid(j: Judge, s: State, p: Parser)
    requires DistinctIds(All(s)) && IndexOf(s.structural, p.id) == |s.structural|
    ensures Valid(j, Registered(s, p))
  {
    var ps, n := All(s), |s.declarative|;
    var k := IndexOf(s.declarative, p.id);
    var qs := All(Registered(s, p));
    forall i, l | 0 <= i < l < |qs|
      ensures qs[i].id != qs[l].id
    {
      if k < n {
        assert qs[i] == (if i == k then p else ps[i]) && qs[l] == if l == k then p else ps[l];
        assert ps[k].id == p.id;
      } else {
        assert qs[i] == if i < n then ps[i] else if i == n then p else ps[i - 1];
        assert qs[l] == if l < n then ps[l] else if l == n then p else ps[l - 1];
        assert forall m :: n <= m < |ps| ==> ps[m] == s.structural[m - n];
      }
    }
  }

  /** Retiring a pack forgets what was remembered for it, and nothing else. */
  lemma RetiredForgetsOnlyItsOwn(s: State, id: string, shape: Shape)
    ensures shape in Retired(s, id).cache <==> shape in s.cache && s.cache[shape] != id
    ensures shape in Retired(s, id).cache ==> Retired(s, id).cache[shape] == s.cache[shape]
    ensures forall p :: p in s.declarative && p.id != id ==> p in Retired(s, id).declarative
    ensures DistinctIds(s.declarative) ==> forall p :: p in Retired(s, id).declarative ==> p.id != id
  {
    var ps, k := s.declarative, IndexOf(s.declarative, id);
    if k < |ps| {
      assert ps == ps[..k] + [ps[k]] + ps[k + 1..];
      var qs := ps[..k] + ps[k + 1..];
      forall i | 0 <= i < |qs| && DistinctIds(ps)
        ensures qs[i].id != id
      {
        assert qs[i] == ps[if i < k then i else i + 1];
      }
    }
  }

  lemma RemovedStillWins(score: Score, ps: seq<Parser>, e: Event, k: nat, j: nat)
    requires k < |ps| && j < |ps| && j != k && WinsAt(score, ps, e, k)
    ensures var qs, c := ps[..j] + ps[j + 1..], if k < j then k else k - 1;
            c < |qs| && qs[c] == ps[k] && WinsAt(score, qs, e, c)
  {
    var qs, c := ps[..j] + ps[j + 1..], if k < j then k else k - 1;
    assert qs[c] == ps[k];
    forall i | 0 <= i < |qs|
      ensures score(qs[i], e) <= score(qs[c], e) && (i < c ==> score(qs[i], e) < score(qs[c], e))
    {
      assert qs[i] == ps[if i < j then i else i + 1];
    }
  }

  /** Dropping a parser that does not win leaves the winner. */
  lemma ScanWithoutLoser(score: Score, ps: seq<Parser>, e: Event, j: nat)
    requires j < |ps| && Scan(score, ps, e).Some? && Scan(score, ps, e).value.id != ps[j].id
    ensures Scan(score, ps[..j] + ps[j + 1..], e) == Scan(score, ps, e)
  {
    hide Scan, WinsAt;
    ScanPicksFirstMaximum(score, ps, e);
    var k :| 0 <= k < |ps| && ps[k] == Scan(score, ps, e).value && WinsAt(score, ps, e, k);
    RemovedStillWins(score, ps, e, k, j);
    WinnerIsScanned(score, ps[..j] + ps[j + 1..], e, if k < j then k else k - 1);
  }

  lemma WithoutInAll(s: State, id: string)
    ensures var k, qs := IndexOf(s.declarative, id), All(Retired(s, id));
            qs == if k < |s.declarative| then All(s)[..k] + All(s)[k + 1..] else All(s)
  {
    var k := IndexOf(s.declarative, id);
    if k < |s.declarative| {
      assert All(s)[..k] == s.declarative[..k];
      assert All(s)[k + 1..] == s.declarative[k + 1..] + s.structural;
    }
  }

  lemma RemovedIsDistinct(ps: seq<Parser>, k: nat)
    requires DistinctIds(ps) && k < |ps|
    ensures DistinctIds(ps[..k] + ps[k + 1..])
  {
    var qs := ps[..k] + ps[k + 1..];
    forall i, l | 0 <= i < l < |qs|
      ensures qs[i].id != qs[l].id
    {
      assert qs[i] == ps[if i < k then i else i + 1];
      assert qs[l] == ps[if l < k then l else l + 1];
    }
  }

  lemma RetiredIsDistinct(s: State, id: string)
    requires DistinctIds(All(s))
    ensures DistinctIds(All(Retired(s, id)))
  {
    hide DistinctIds, Retired, IndexOf;
    WithoutInAll(s, id);
    if IndexOf(s.declarative, id) < |s.declarative| { RemovedIsDistinct(All(s), IndexOf(s.declarative, id)); }
  }

  lemma RetiredIsValid(j: Judge, s: State, id: string)
    requires Valid(j, s)
    ensures Valid(j, Retired(s, id))
  {
    hide Scan, IndexOf;
    var s', k := Retired(s, id), IndexOf(s.declarative, id);
    RetiredIsDistinct(s, id);
    WithoutInAll(s, id);
    forall shape | shape in s'.cache && s'.cache[shape] != ""
      ensures exists e :: IsWitness(j, s', shape, e)
    {
      var e :| IsWitness(j, s, shape, e);
      if k < |s.declarative| { ScanWithoutLoser(j.score, All(s), e, k); }
      assert IsWitness(j, s', shape, e);
    }
  }

  // ------------------------------------------------------------ histories

  datatype Op = Register(p: Parser) | Retire(id: string) | Route(e: Event)

  function Applied(j: Judge, s: State, op: Op): State {
    match op
    case Register(p) => Registered(s, p)
    case Retire(id) => Retired(s, id)
    case Route(e) => RoutedState(j, s, e)
  }

  function After(j: Judge, s: State, ops: seq<Op>): State {
    if ops == [] then s else Applied(j, After(j, s, ops[..|ops| - 1]), ops[|ops| - 1])
  }

  /** No pack is registered under the id of a structural parser. */
  ghost predicate Allowed(s: State, ops: seq<Op>) {
    forall i :: 0 <= i < |ops| && ops[i].Register? ==> IndexOf(s.structural, ops[i].p.id) == |s.structural|
  }

  lemma {:induction false} HistoriesAreValid(j: Judge, s: State, ops: seq<Op>)
    requires Valid(j, s) && Allowed(s, ops)
    ensures Valid(j, After(j, s, ops)) && After(j, s, ops).structural == s.structural
  {
    hide CacheIsWitnessed, DistinctIds, Registered, Retired, RoutedState;
    if ops != [] {
      var init, last := ops[..|ops| - 1], ops[|ops| - 1];
      HistoriesAreValid(j, s, init);
      var s' := After(j, s, init);
      KeepsStructural(j, s', last);
      match last {
        case Register(p) => RegisteredIsValid(j, s', p);
        case Retire(id) => RetiredIsValid(j, s', id);
        case Route(e) => RememberedIsValid(j, s', e);
      }
    }
  }

  lemma KeepsStructural(j: Judge, s: State, op: Op)
    ensures Applied(j, s, op).structural == s.structural
  {
  }

  /** The cache does not change the choice for this event. */
  ghost predicate Transparent(j: Judge, s: State, e: Event) { Routed(j, s, e) == Scan(j.score, All(s), e) }

  /** The cache changes no choice, for any event after any history. */
  ghost predicate AlwaysTransparent(j: Judge, s: State) {
    forall ops, e :: Allowed(s, ops) ==> Transparent(j, After(j, s, ops), e)
  }

  /** In no registry that a history leads to do two events of one shape have different winners. */
  ghost predicate ShapesAlwaysDecide(j: Judge, s: State) {
    forall ops :: Allowed(s, ops) ==> ShapesDecide(j, All(After(j, s, ops)))
  }

  /** Over all histories of registrations, retirements and routed events, the cache is transparent if and only if the
      shape always decides the winner. */
  lemma CacheIsTransparentIffShapesDecide(j: Judge, s: State)
    requires Valid(j, s)
    ensures AlwaysTransparent(j, s) <==> ShapesAlwaysDecide(j, s)
  {
    hide Valid, ShapesDecide, Allowed, Transparent, After;
    if ShapesAlwaysDecide(j, s) {
      forall ops, e | Allowed(s, ops)
        ensures Transparent(j, After(j, s, ops), e)
      {
        TransparentWhereShapesDecide(j, s, ops, e);
      }
    }
    if AlwaysTransparent(j, s) {
      forall ops | Allowed(s, ops)
        ensures ShapesDecide(j, All(After(j, s, ops)))
      {
        ShapesDecideWhereTransparent(j, s, ops);
      }
    }
  }

  lemma TransparentWhereShapesDecide(j: Judge, s: State, ops: seq<Op>, e: Event)
    requires Valid(j, s) && Allowed(s, ops) && ShapesDecide(j, All(After(j, s, ops)))
    ensures Transparent(j, After(j, s, ops), e)
  {
    hide Valid, Routed, Scan, ShapesDecide;
    HistoriesAreValid(j, s, ops);
    RoutingIsTheFullScan(j, After(j, s, ops), e);
  }

  lemma ShapesDecideWhereTransparent(j: Judge, s: State, ops: seq<Op>)
    requires Valid(j, s) && Allowed(s, ops)
    requires AlwaysTransparent(j, s)
    ensures ShapesDecide(j, All(After(j, s, ops)))
  {
    hide Valid, Scan, Transparent, After;
    HistoriesAreValid(j, s, ops);
    var s1 := After(j, s, ops);
    forall e, e' | j.shapeOf(e) == j.shapeOf(e')
      ensures Decided(j, All(s1), e, e')
    {
      var more := ops + [Route(e)];
      OneMoreRoute(j, s, ops, e);
      assert Allowed(s, more);
      assert Transparent(j, s1, e) && Transparent(j, s1, e') && Transparent(j, After(j, s, more), e');
      DecidedByTwoEvents(j, s1, e, e');
    }
  }

  lemma OneMoreRoute(j: Judge, s: State, ops: seq<Op>, e: Event)
    ensures var s1 := After(j, s, ops);
            After(j, s, ops + [Route(e)]) == RoutedState(j, s1, e)
  {
    assert (ops + [Route(e)])[..|ops|] == ops;
  }

  /** If routing one event, and then another of its shape, both go to the winners of the scan, the winners agree. */
  lemma DecidedByTwoEvents(j: Judge, s: State, e: Event, e': Event)
    requires Valid(j, s) && j.shapeOf(e) == j.shapeOf(e')
    requires Transparent(j, s, e) && Transparent(j, s, e')
    requires Transparent(j, RoutedState(j, s, e), e')
    ensures Decided(j, All(s), e, e')
  {
    hide Scan, LookUp, CacheIsWitnessed;
    var shape, w := j.shapeOf(e), Scan(j.score, All(s), e);
    if Cached(s, shape).Some? {
      ScanOfOne(j.score, Cached(s, shape).value, e);
      ScanOfOne(j.score, Cached(s, shape).value, e');
    } else if w.Some? && w.value.id != "" && j.confident(w.value, e) {
      var s' := Remembered(s, shape, w, true);
      ScanPicksFirstMaximum(j.score, All(s), e);
      var k :| 0 <= k < |All(s)| && All(s)[k] == w.value;
      LookUpFinds(s', k);
      ScanOfOne(j.score, w.value, e');
    }
  }

  /** The cache after a sequence of events, the registry staying as it is. */
  function AfterEvents(j: Judge, s: State, es: seq<Event>): State {
    if es == [] then s else RoutedState(j, AfterEvents(j, s, es[..|es| - 1]), es[|es| - 1])
  }

  lemma {:induction false} EventsKeepRegistry(j: Judge, s: State, es: seq<Event>)
    requires Valid(j, s)
    ensures Valid(j, AfterEvents(j, s, es)) && All(AfterEvents(j, s, es)) == All(s)
  {
    hide CacheIsWitnessed, DistinctIds, Routed;
    if es != [] {
      EventsKeepRegistry(j, s, es[..|es| - 1]);
      RememberedIsValid(j, AfterEvents(j, s, es[..|es| - 1]), es[|es| - 1]);
    }
  }

  ghost predicate TransparentForEvents(j: Judge, s: State) {
    forall es, e :: Transparent(j, AfterEvents(j, s, es), e)
  }

  /** For one registry: whatever events come, the cache changes no choice if and only if an event's confident winner
      wins
      every other event of its shape that has a winner. */
  lemma RegistryIsTransparentIffShapesDecide(j: Judge, s: State)
    requires DistinctIds(All(s)) && s.cache == map[]
    ensures TransparentForEvents(j, s) <==> ShapesDecide(j, All(s))
  {
    hide Scan, Transparent, AfterEvents, DistinctIds, RoutedState;
    assert Valid(j, s);
    if ShapesDecide(j, All(s)) {
      forall es, e
        ensures Transparent(j, AfterEvents(j, s, es), e)
      {
        EventsKeepRegistry(j, s, es);
        IsTransparent(j, AfterEvents(j, s, es), e);
      }
    }
    if TransparentForEvents(j, s) {
      forall e, e' | j.shapeOf(e) == j.shapeOf(e')
        ensures Decided(j, All(s), e, e')
      {
        FirstEvent(j, s, e);
        assert Transparent(j, AfterEvents(j, s, []), e) && Transparent(j, AfterEvents(j, s, []), e');
        assert Transparent(j, AfterEvents(j, s, [e]), e');
        DecidedByTwoEvents(j, s, e, e');
      }
    }
  }

  lemma IsTransparent(j: Judge, s: State, e: Event)
    requires Valid(j, s) && ShapesDecide(j, All(s))
    ensures Transparent(j, s, e)
  {
    hide Valid, Routed, Scan, ShapesDecide;
    RoutingIsTheFullScan(j, s, e);
  }

  lemma FirstEvent(j: Judge, s: State, e: Event)
    ensures AfterEvents(j, s, []) == s && AfterEvents(j, s, [e]) == RoutedState(j, s, e)
  {
    assert [e][..0] == [];
  }

  // ------------------------------------------------------------ when an entry misroutes

  /** Another parser is preferred by the scan to the one at `c`. */
  ghost predicate Beaten(score: Score, ps: seq<Parser>, e: Event, c: nat)
    requires c < |ps|
  {
    exists i :: 0 <= i < |ps| && i != c && Beats(score, ps, e, i, c)
  }

  predicate Beats(score: Score, ps: seq<Parser>, e: Event, i: nat, c: nat)
    requires i < |ps| && c < |ps|
  {
    score(ps[i], e) > 0.0 && (score(ps[i], e) > score(ps[c], e) || (score(ps[i], e) == score(ps[c], e) && i < c))
  }

  /** An entry, however it came about, misroutes an event exactly if another parser beats the one it names. */
  lemma EntryMisroutesIffBeaten(j: Judge, s: State, e: Event, c: nat)
    requires DistinctIds(All(s)) && c < |All(s)| && All(s)[c].id != ""
    requires j.shapeOf(e) in s.cache && s.cache[j.shapeOf(e)] == All(s)[c].id
    ensures !Transparent(j, s, e) <==> Beaten(j.score, All(s), e, c)
  {
    hide Scan, LookUp;
    var ps := All(s);
    LookUpFinds(s, c);
    ScanOfOne(j.score, ps[c], e);
    ScanPicksFirstMaximum(j.score, ps, e);
    if Beaten(j.score, ps, e, c) {
      var i :| 0 <= i < |ps| && i != c && Beats(j.score, ps, e, i, c);
      var k :| 0 <= k < |ps| && ps[k] == Scan(j.score, ps, e).value && WinsAt(j.score, ps, e, k);
      assert k != c && ps[k].id != ps[c].id;
    } else {
      assert forall i :: 0 <= i < |ps| && i != c ==> !Beats(j.score, ps, e, i, c);
      if j.score(ps[c], e) > 0.0 {
        forall i | 0 <= i < |ps| && i != c
          ensures j.score(ps[i], e) <= j.score(ps[c], e) && (i < c ==> j.score(ps[i], e) < j.score(ps[c], e))
        {
          assert !Beats(j.score, ps, e, i, c);
        }
        assert WinsAt(j.score, ps, e, c);
        WinnerIsScanned(j.score, ps, e, c);
      } else {
        forall i | 0 <= i < |ps| ensures j.score(ps[i], e) <= 0.0 { assert i != c ==> !Beats(j.score, ps, e, i, c); }
      }
    }
  }

  /** Once a structural parser's win is remembered, its events still reach it exactly if no other parser is
      registered as a pack under its id. */
  lemma SharedIdsMisroute(j: Judge, s: State, e: Event, k: nat)
    requires s.cache == map[] && DistinctIds(s.structural) && k < |s.structural| && s.structural[k].id != ""
    requires Scan(j.score, All(s), e) == Some(s.structural[k])
    ensures var s', p := Remembered(s, j.shapeOf(e), Routed(j, s, e), true), s.structural[k];
            && Scan(j.score, All(s'), e) == Some(p)
            && (Routed(j, s', e) == Some(p)
                <==>
                || IndexOf(s.declarative, p.id) == |s.declarative|
                || s.declarative[IndexOf(s.declarative, p.id)] == p)
  {
    hide Scan, IndexOf;
    var p := s.structural[k];
    var i, l := IndexOf(s.declarative, p.id), IndexOf(s.structural, p.id);
    assert l == k;
    ScanPicksFirstMaximum(j.score, All(s), e);
    ScanOfOne(j.score, p, e);
    if i < |s.declarative| { ScanOfOne(j.score, s.declarative[i], e); }
  }

  /** The cache written with a winner found before the registry changed to `s`. */
  function LateMemory(j: Judge, s: State, e: Event, w: Parser): State { Remembered(s, j.shapeOf(e), Some(w), true) }

  lemma {:induction false} PackTaken(ds: seq<Parser>, ss: seq<Parser>, p: Parser)
    ensures var k, qs := IndexOf(ds, p.id), Put(ds, p) + ss;
            qs == if k < |ds| then (ds + ss)[k := p] else ds + [p] + ss
  {
    hide IndexOf;
    var k := IndexOf(ds, p.id);
    if k < |ds| {
      assert Put(ds, p) == ds[k := p];
      UpdateFirst(ds, ss, k, p);
    } else {
      assert Put(ds, p) == ds + [p];
    }
  }

  lemma UpdateFirst<T>(a: seq<T>, b: seq<T>, k: nat, x: T)
    requires k < |a|
    ensures a[k := x] + b == (a + b)[k := x]
  {
  }

  /** Nothing beats a winner. */
  lemma WinnerIsUnbeaten(score: Score, ps: seq<Parser>, e: Event, k: nat)
    requires k < |ps| && WinsAt(score, ps, e, k)
    ensures !Beaten(score, ps, e, k) && forall i :: 0 <= i < |ps| && i != k ==> !Beats(score, ps, e, i, k)
  {
  }

  lemma UnusableEntry(j: Judge, s: State, e: Event, w: Parser)
    requires w.id == ""
    ensures Transparent(j, LateMemory(j, s, e, w), e)
  {
  }

  /** A parser put in between beats a winner if it scores higher, or as high and stands before it; nobody else does. */
  lemma InsertedMayBeat(score: Score, ds: seq<Parser>, ss: seq<Parser>, p: Parser, e: Event, k: nat)
    requires k < |ds + ss| && WinsAt(score, ds + ss, e, k)
    ensures var qs, c, w := ds + [p] + ss, if k < |ds| then k else k + 1, (ds + ss)[k];
            && c < |qs| && qs[c] == w
            && (Beaten(score, qs, e, c) <==> score(p, e) > score(w, e) || (score(p, e) == score(w, e) && k >= |ds|))
  {
    var ps, qs, n := ds + ss, ds + [p] + ss, |ds|;
    var c := if k < n then k else k + 1;
    assert qs[c] == ps[k] && qs[n] == p;
    WinnerIsUnbeaten(score, ps, e, k);
    forall i | 0 <= i < |qs| && i != c && i != n
      ensures !Beats(score, qs, e, i, c)
    {
      var l := if i < n then i else i - 1;
      assert qs[i] == ps[l];
      assert !Beats(score, ps, e, l, k);
    }
    assert Beats(score, qs, e, n, c) ==> Beaten(score, qs, e, c);
  }

  /** Scanning and remembering are not one step. After the registration of a new pack in between, the entry misroutes
      exactly if that pack scores higher than the winner, or as high as a winner that is a structural parser. */
  lemma LateMemoryOfNewPack(j: Judge, s: State, e: Event, k: nat, p: Parser)
    requires DistinctIds(All(s)) && k < |All(s)| && WinsAt(j.score, All(s), e, k)
    requires IndexOf(s.structural, p.id) == |s.structural| && IndexOf(s.declarative, p.id) == |s.declarative|
    ensures var w := All(s)[k];
            !Transparent(j, LateMemory(j, Registered(s, p), e, w), e)
            <==>
            && w.id != ""
            && (j.score(p, e) > j.score(w, e) || (j.score(p, e) == j.score(w, e) && k >= |s.declarative|))
  {
    hide Scan, IndexOf, Transparent, Beaten, DistinctIds;
    var w := All(s)[k];
    var s' := LateMemory(j, Registered(s, p), e, w);
    RegisteredIsValid(j, s, p);
    PackTaken(s.declarative, s.structural, p);
    if w.id == "" {
      UnusableEntry(j, Registered(s, p), e, w);
    } else {
      InsertedMayBeat(j.score, s.declarative, s.structural, p, e, k);
      EntryMisroutesIffBeaten(j, s', e, if k < |s.declarative| then k else k + 1);
    }
  }

  /** After the replacement of a pack in between: if the winner itself was replaced, the entry misroutes exactly if some
      other parser now beats its successor; otherwise, exactly if the replacement scores higher than the winner, or as
      high and stands before it. */
  lemma LateMemoryOfReplacedPack(j: Judge, s: State, e: Event, k: nat, p: Parser)
    requires DistinctIds(All(s)) && k < |All(s)| && WinsAt(j.score, All(s), e, k)
    requires IndexOf(s.structural, p.id) == |s.structural| && IndexOf(s.declarative, p.id) < |s.declarative|
    ensures var w, r := All(s)[k], IndexOf(s.declarative, p.id);
            !Transparent(j, LateMemory(j, Registered(s, p), e, w), e)
            <==> w.id != "" && if r == k then Beaten(j.score, All(s)[k := p], e, k)
                               else j.score(p, e) > j.score(w, e) || (j.score(p, e) == j.score(w, e) && r < k)
  {
    hide Scan, IndexOf, Transparent;
    var w, r, ps := All(s)[k], IndexOf(s.declarative, p.id), All(s);
    var s' := LateMemory(j, Registered(s, p), e, w);
    RegisteredIsValid(j, s, p);
    PackTaken(s.declarative, s.structural, p);
    var qs := All(s');
    assert qs == ps[r := p] && ps[r].id == p.id;
    if w.id == "" {
      UnusableEntry(j, Registered(s, p), e, w);
    } else {
      EntryMisroutesIffBeaten(j, s', e, k);
      WinnerIsUnbeaten(j.score, ps, e, k);
      forall i | r != k && 0 <= i < |qs| && i != k && i != r
        ensures !Beats(j.score, qs, e, i, k)
      {
        assert !Beats(j.score, ps, e, i, k);
      }
      assert r != k && Beats(j.score, qs, e, r, k) ==> Beaten(j.score, qs, e, k);
    }
  }

  lemma RemovedKeepsWinner(score: Score, ps: seq<Parser>, e: Event, k: nat, r: nat)
    requires k < |ps| && r < |ps| && r != k && WinsAt(score, ps, e, k)
    ensures var qs, c := ps[..r] + ps[r + 1..], if r < k then k - 1 else k;
            c < |qs| && qs[c] == ps[k] && !Beaten(score, qs, e, c)
  {
    var qs, c := ps[..r] + ps[r + 1..], if r < k then k - 1 else k;
    WinnerIsUnbeaten(score, ps, e, k);
    assert qs[c] == ps[k];
    forall i | 0 <= i < |qs| && i != c
      ensures !Beats(score, qs, e, i, c)
    {
      var l := if i < r then i else i + 1;
      assert qs[i] == ps[l];
      assert !Beats(score, ps, e, l, k);
    }
  }

  /** A retirement in between does no harm. */
  lemma LateMemoryOfRetiredPack(j: Judge, s: State, e: Event, k: nat, id: string)
    requires DistinctIds(All(s)) && k < |All(s)| && WinsAt(j.score, All(s), e, k)
    ensures Transparent(j, LateMemory(j, Retired(s, id), e, All(s)[k]), e)
  {
    hide Scan, IndexOf, Transparent, Beaten, LookUp, DistinctIds;
    var w, r, ps := All(s)[k], IndexOf(s.declarative, id), All(s);
    var s' := LateMemory(j, Retired(s, id), e, w);
    RetiredIsDistinct(s, id);
    WithoutInAll(s, id);
    var qs := All(s');
    if w.id == "" {
      UnusableEntry(j, Retired(s, id), e, w);
    } else if r == k && k < |s.declarative| {
      RetiredEntry(j, s, e, k, id);
    } else if r < |s.declarative| {
      RemovedKeepsWinner(j.score, ps, e, k, r);
      EntryMisroutesIffBeaten(j, s', e, if r < k then k - 1 else k);
    } else {
      EntryMisroutesIffBeaten(j, s', e, k);
      WinnerIsUnbeaten(j.score, ps, e, k);
    }
  }

  lemma RetiredEntry(j: Judge, s: State, e: Event, k: nat, id: string)
    requires DistinctIds(All(s)) && k < |s.declarative| && k == IndexOf(s.declarative, id)
    ensures Transparent(j, LateMemory(j, Retired(s, id), e, All(s)[k]), e)
  {
    hide Scan;
    var s', n := LateMemory(j, Retired(s, id), e, All(s)[k]), |s.declarative|;
    assert All(s)[k].id == id;
    forall i | 0 <= i < |s'.declarative|
      ensures s'.declarative[i].id != id
    {
      assert s'.declarative[i] == All(s)[if i < k then i else i + 1];
    }
    forall i | 0 <= i < |s.structural|
      ensures s.structural[i].id != id
    {
      assert s.structural[i] == All(s)[n + i];
    }
  }

  // ------------------------------------------------------------ the engine

  class ParserEngine {
    const judge: Judge
    const structural: seq<Parser>
    var declarative: seq<Parser>
    var routingCache: map<Shape, string>

    /** What else a confident parse leaves behind: the parser its shape was routed to, and a reference for its parser.
        */
    const hasStorage: bool
    const partsOf: Event -> seq<string>
    const similarity: Similarity.SimilarityIndex
    var fingerprints: map<Shape, string>

    constructor (judge: Judge, structural: seq<Parser>, hasStorage: bool, partsOf: Event -> seq<string>)
      ensures this.judge == judge && Now() == State([], structural, map[])
      ensures this.hasStorage == hasStorage && this.partsOf == partsOf
      ensures fresh(similarity) && similarity.Now() == Similarity.EMPTY && fingerprints == map[]
    {
      this.judge, this.structural, declarative, routingCache := judge, structural, [], map[];
      this.hasStorage, this.partsOf, fingerprints := hasStorage, partsOf, map[];
      similarity := new Similarity.SimilarityIndex();
    }

    ghost function Now(): State reads this { State(declarative, structural, routingCache) }

    method RegisterPack(p: Parser)
      modifies this`declarative, this`routingCache
      ensures Now() == Registered(old(Now()), p)
    {
      declarative := Put(declarative, p);
      routingCache := map[];
    }

    method RetirePack(id: string) returns (existed: bool)
      modifies this`declarative, this`routingCache
      ensures Now() == Retired(old(Now()), id)
      ensures existed <==> exists i :: 0 <= i < |old(declarative)| && old(declarative)[i].id == id
    {
      existed := IndexOf(declarative, id) < |declarative|;
      declarative := Without(declarative, id);
      routingCache := map k | k in routingCache && routingCache[k] != id :: routingCache[k];
    }

    /** The candidate with the highest positive score, the first one on a tie. */
    method Pick(candidates: seq<Parser>, e: Event) returns (winner: Option<Parser>)
      ensures winner == Scan(judge.score, candidates, e)
    {
      winner := None;
      var bestScore := 0.0;
      for i := 0 to |candidates|
        invariant Best(winner, bestScore) == ScanTo(judge.score, candidates, e, i)
      {
        var s := judge.score(candidates[i], e);
        if s > bestScore {
          winner, bestScore := Some(candidates[i]), s;
        }
      }
    }

    /** The cached parser if its entry leads to one, else all parsers. */
    method FindCandidates(shape: Shape) returns (candidates: seq<Parser>)
      ensures candidates == Candidates(Now(), shape)
    {
      hide LookUp;
      if shape in routingCache && routingCache[shape] != "" {
        var p := LookUp(declarative, structural, routingCache[shape]);
        if p.Some? {
          return [p.value];
        }
      }
      candidates := declarative + structural;
    }

    method Route(e: Event) returns (winner: Option<Parser>)
      modifies this`routingCache, this`fingerprints, similarity
      ensures winner == Routed(judge, old(Now()), e) && Now() == RoutedState(judge, old(Now()), e)
      ensures Valid(judge, old(Now())) ==> Valid(judge, Now())
      ensures Valid(judge, old(Now())) && ShapesDecide(judge, old(All(Now()))) ==>
              winner == Scan(judge.score, old(All(Now())), e)
      ensures var remembers := winner.Some? && judge.confident(winner.value, e);
              && fingerprints == (if remembers && hasStorage then old(fingerprints)[judge.shapeOf(e) := winner.value.id]
                                  else old(fingerprints))
              && similarity.Now() == if remembers
                  then Similarity.Added(old(similarity.Now()), winner.value.id, Similarity.ShapeNgrams(partsOf(e)))
                      else old(similarity.Now())
    {
      hide Valid, ShapesDecide, Candidates, Scan, Similarity.ShapeNgrams;
      if Valid(judge, Now()) {
        RememberedIsValid(judge, Now(), e);
        if ShapesDecide(judge, All(Now())) { RoutingIsTheFullScan(judge, Now(), e); }
      }
      var shape := judge.shapeOf(e);
      var candidates := FindCandidates(shape);
      winner := Pick(candidates, e);
      if winner.Some? && judge.confident(winner.value, e) {
        routingCache := routingCache[shape := winner.value.id];
        if hasStorage {
          fingerprints := fingerprints[shape := winner.value.id];
        }
        similarity.AddReference(winner.value.id, partsOf(e));
      }
    }
  }
}

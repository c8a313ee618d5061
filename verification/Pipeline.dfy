/**
 One envelope through the pipeline, a batch of envelopes through the pipeline, and the tables both
 write (uli/pipeline.py, uli/storage/sql.py). The batch collapses the per-event statements into a
 few bulk ones; the lemmas say when that is the same as one envelope at a time, and what survives
 when statements fail.
 */
module Pipeline {
  import opened Basics
  import RawStore

  type Record = RawStore.Record

  /** Where a payload lies in the raw store, or that it could not be stored. */
  datatype Place = At(loc: RawStore.Location) | Unrecoverable(length: nat)

  datatype Envelope = Envelope(tenant: string, project: string, source: string, transport: string, peer: Option<string>,
                               receivedAt: int, payloadB64: string, hints: string)

  /** A normalized event, apart from its generated id and processing time. */
  datatype Event = Event(tenant: string, project: string, source: string, rawId: string, place: Place,
                         duplicateOf: Option<string>, receivedAt: int, transport: string, peer: Option<string>,
                         parsed: Parsed)

  /** What parsing and normalization contribute. */
  datatype Parsed = Parsed(parserId: string, body: string, shapeHash: string, familyHash: string)

  /** The parse ladder with drift and cluster bookkeeping: it may end in an event or raise, and on the
      way change its own state and mark the source's parser degraded. The payload's place does not matter to it. */
  datatype Computed<C> = Finished(next: C, degraded: bool, parsed: Parsed) | Raised(next: C, degraded: bool,
      error: string)

  datatype World<!C, !R> = World(
    b64decode: string -> Option<Bytes>,
    sha256: Bytes -> string,
    append: (R, Record) -> (R, RawStore.Location),
    compute: (C, Envelope, Record, Option<string>) -> Computed<C>,
    emergency: (Bytes, string) -> Parsed)

  type TenantKey = (string, string)

  datatype RawRow = RawRow(source: string, place: Place, receivedAt: int)
  datatype SourceRow = SourceRow(count: nat, transport: Option<string>, parserId: Option<string>, health: string)
  type RawIndex = map<TenantKey, RawRow>
  type Sources = map<TenantKey, SourceRow>

  datatype State<C, R> = State(raw: RawIndex, events: seq<Event>, sources: Sources, files: R, inner: C)

  // ------------------------------------------------------------ table statements

  function RecordOf<C, R>(w: World<C, R>, env: Envelope, payload: Bytes): Record {
    RawStore.Record(w.sha256(payload), RawStore.Key(env.tenant, env.source), env.transport, env.peer, env.receivedAt,
        payload)
  }

  function RawKey(rec: Record): TenantKey { (rec.key.tenant, rec.rawId) }

  /** Insert unless the tenant already has a row for this content. */
  function Indexed(raw: RawIndex, rec: Record, place: Place): RawIndex {
    if RawKey(rec) in raw then raw else raw[RawKey(rec) := RawRow(rec.key.source, place, rec.receivedAt)]
  }

  const NEW_SOURCE := SourceRow(0, None, None, "unknown")

  function RowOr(sources: Sources, key: TenantKey): SourceRow {
    if key in sources then sources[key] else NEW_SOURCE
  }

  /** What a batch, or one event, adds to a source row. */
  datatype Increment = Increment(inc: nat, transport: string, parserId: string)

  function Counted(row: SourceRow, i: Increment): SourceRow {
    SourceRow(row.count + i.inc, Some(i.transport), Some(i.parserId), row.health)
  }

  function Upserted(sources: Sources, key: TenantKey, i: Increment): Sources {
    sources[key := Counted(RowOr(sources, key), i)]
  }

  function Degraded(sources: Sources, key: TenantKey, degraded: bool): Sources {
    if degraded then sources[key := RowOr(sources, key).(health := "degraded")] else sources
  }

  function EventOf(env: Envelope, rec: Record, place: Place, dup: Option<string>, parsed: Parsed): Event {
    Event(env.tenant, env.project, env.source, rec.rawId, place, dup, env.receivedAt, env.transport, env.peer, parsed)
  }

  // ------------------------------------------------------------ one envelope

  datatype Outcome<C, R> = Outcome(state: State<C, R>, event: Option<Event>)

  function SourceKey(env: Envelope): TenantKey { (env.tenant, env.source) }

  function Payload<C, R>(w: World<C, R>, env: Envelope): Bytes {
    match w.b64decode(env.payloadB64)
    case Some(p) => p
    case None => []
  }

  predicate Decodable<C, R>(w: World<C, R>, env: Envelope) { w.b64decode(env.payloadB64).Some? }

  predicate AllDecodable<C, R>(w: World<C, R>, envs: seq<Envelope>) {
    forall i :: 0 <= i < |envs| ==> Decodable(w, envs[i])
  }

  /** Where the payload lies and what it duplicates, once the raw index has been consulted. */
  datatype Located<R> = Located(raw: RawIndex, files: R, place: Place, dup: Option<string>)

  function Locate<C, R>(w: World<C, R>, raw: RawIndex, files: R, rec: Record): Located<R> {
    if RawKey(rec) in raw then Located(raw, files, raw[RawKey(rec)].place, Some(rec.rawId))
    else
      var (files', loc) := w.append(files, rec);
      Located(Indexed(raw, rec, At(loc)), files', At(loc), None)
  }

  /** The statement that raises while one envelope is processed, if any. */
  datatype Broken = NothingBroken | LookupBroken | AppendBroken | IndexBroken | WriteBroken | UpsertBroken

  /** `_process_inner`: no event stands for an exception, and the state is the one it leaves behind. */
  function Attempted<C, R>(w: World<C, R>, st: State<C, R>, env: Envelope, b: Broken): Outcome<C, R> {
    var rec := RecordOf(w, env, Payload(w, env));
    var isNew := RawKey(rec) !in st.raw;
    if !Decodable(w, env) || b.LookupBroken? || (isNew && b.AppendBroken?) then Outcome(st, None)
    else
      var l := Locate(w, st.raw, st.files, rec);
      if isNew && b.IndexBroken? then Outcome(st.(files := l.files), None)
      else
        var c := w.compute(st.inner, env, rec, l.dup);
        var sources := Degraded(st.sources, SourceKey(env), c.degraded);
        var parsed := State(l.raw, st.events, sources, l.files, c.next);
        if c.Raised? || b.WriteBroken? then Outcome(parsed, None)
        else
          var ev := EventOf(env, rec, l.place, l.dup, c.parsed);
          var written := parsed.(events := parsed.events + [ev]);
          if b.UpsertBroken? then Outcome(written, None)
          else
            var i := Increment(1, env.transport, c.parsed.parserId);
            Outcome(written.(sources := Upserted(sources, SourceKey(env), i)), Some(ev))
  }

  /** `_process_inner` with working storage. */
  function Processed<C, R>(w: World<C, R>, st: State<C, R>, env: Envelope): Outcome<C, R> {
    Attempted(w, st, env, NothingBroken)
  }

  /** One envelope after the other; the second part collects the events. */
  function OneByOne<C, R>(w: World<C, R>, st: State<C, R>, envs: seq<Envelope>): (State<C, R>, seq<Option<Event>>) {
    if envs == [] then (st, [])
    else
      var (st', evs) := OneByOne(w, st, envs[..|envs| - 1]);
      var o := Processed(w, st', envs[|envs| - 1]);
      (o.state, evs + [o.event])
  }

  // ------------------------------------------------------------ a batch

  /** Which statements of a batch fail. Parsing failures are the `Raised` outcomes of `compute`. */
  datatype Faults = Faults(
    lookup: string -> bool, append: nat -> bool, indexBulk: bool,
    writeBulk: bool, write: nat -> bool, upsert: string -> bool,
    emergencyAppend: nat -> bool, emergencyIndex: nat -> bool, emergencyWrite: nat -> bool)

  const NO_FAULTS := Faults(_ => false, _ => false, false, false, _ => false, _ => false, _ => false, _ => false,
      _ => false)

  function Records<C, R>(w: World<C, R>, envs: seq<Envelope>): (recs: seq<Record>)
    ensures |recs| == |envs|
    ensures forall i :: 0 <= i < |envs| ==> recs[i] == RecordOf(w, envs[i], Payload(w, envs[i]))
  {
    seq(|envs|, i requires 0 <= i < |envs| => RecordOf(w, envs[i], Payload(w, envs[i])))
  }

  function KeysOf(recs: seq<Record>): set<TenantKey> {
    set i | 0 <= i < |recs| :: RawKey(recs[i])
  }

  function KnownFor(raw: RawIndex, keys: set<TenantKey>, f: Faults, tenants: set<string>): map<TenantKey, Place> {
    map k | k in raw && k in keys && k.0 in tenants && !f.lookup(k.0) :: raw[k].place
  }

  function TenantsOf(keys: set<TenantKey>): set<string> {
    set k | k in keys :: k.0
  }

  /** The first lookup: the indexed places of the contents in this batch. */
  function Known(raw: RawIndex, recs: seq<Record>, f: Faults): map<TenantKey, Place> {
    KnownFor(raw, KeysOf(recs), f, TenantsOf(KeysOf(recs)))
  }

  datatype Placed<R> = Placed(files: R, known: map<TenantKey, Place>, places: seq<Place>, dups: seq<Option<string>>,
                              news: seq<(Record, Place)>)

  function PlaceStep<C, R>(w: World<C, R>, p: Placed<R>, rec: Record, failed: bool): (p': Placed<R>)
    ensures |p'.places| == |p.places| + 1 && |p'.dups| == |p.dups| + 1
  {
    var key := RawKey(rec);
    if key in p.known then
      p.(places := p.places + [p.known[key]], dups := p.dups + [Some(rec.rawId)])
    else
      var (files', loc) := w.append(p.files, rec);
      var place := if failed then Unrecoverable(|rec.payload|) else At(loc);
      Placed(if failed then p.files else files', p.known[key := place], p.places + [place], p.dups + [None],
             p.news + [(rec, place)])
  }

  /** Phase 1 over the first n records. */
  function PlaceAll<C, R>(w: World<C, R>, files: R, known: map<TenantKey, Place>, recs: seq<Record>, f: Faults,
      n: nat): (p: Placed<R>)
    requires n <= |recs|
    ensures |p.places| == |p.dups| == n
  {
    if n == 0 then Placed(files, known, [], [], [])
    else PlaceStep(w, PlaceAll(w, files, known, recs, f, n - 1), recs[n - 1], f.append(n - 1))
  }

  function IndexedAll(raw: RawIndex, rows: seq<(Record, Place)>): RawIndex {
    if rows == [] then raw
    else Indexed(IndexedAll(raw, rows[..|rows| - 1]), rows[|rows| - 1].0, rows[|rows| - 1].1)
  }

  datatype Parsing<C, R> = Parsing(state: State<C, R>, results: seq<Event>, kept: seq<nat>, incs: map<TenantKey,
      Increment>)

  /** The last resort for one envelope: store the payload again if possible and write a minimal event. */
  function Emergency<C, R>(w: World<C, R>, st: State<C, R>, env: Envelope, error: string, f: Faults,
      i: nat): (State<C, R>, Event) {
    var payload := Payload(w, env);
    var rec := RecordOf(w, env, payload);
    var (files', loc) := w.append(st.files, rec);
    var stored, indexed := !f.emergencyAppend(i), !f.emergencyAppend(i) && !f.emergencyIndex(i);
    var place := if indexed then At(loc) else Unrecoverable(|payload|);
    var ev := EventOf(env, rec, place, None, w.emergency(payload, error));
    (st.(files := if stored then files' else st.files,
         raw := if indexed then Indexed(st.raw, rec, place) else st.raw,
         events := if f.emergencyWrite(i) then st.events else st.events + [ev]),
     ev)
  }

  function Added(incs: map<TenantKey, Increment>, key: TenantKey, transport: string, parserId: string): map<TenantKey,
      Increment> {
    incs[key := Increment((if key in incs then incs[key].inc else 0) + 1, transport, parserId)]
  }

  ghost predicate IncreasingBelow(kept: seq<nat>, n: nat) {
    && (forall k :: 0 <= k < |kept| ==> kept[k] < n)
    && (forall k, l :: 0 <= k < l < |kept| ==> kept[k] < kept[l])
  }

  function ParseStep<C, R>(w: World<C, R>, r: Parsing<C, R>, env: Envelope, place: Place, dup: Option<string>,
      f: Faults, i: nat)
    : (r': Parsing<C, R>)
    ensures |r'.results| == |r.results| + 1
    ensures IncreasingBelow(r.kept, i) ==> IncreasingBelow(r'.kept, i + 1)
  {
    var rec := RecordOf(w, env, Payload(w, env));
    var c := w.compute(r.state.inner, env, rec, dup);
    var st := r.state.(inner := c.next, sources := Degraded(r.state.sources, SourceKey(env), c.degraded));
    match c
    case Finished(_, _, parsed) =>
      Parsing(st, r.results + [EventOf(env, rec, place, dup, parsed)], r.kept + [i],
              Added(r.incs, SourceKey(env), env.transport, parsed.parserId))
    case Raised(_, _, error) =>
      var (st', ev) := Emergency(w, st, env, error, f, i);
      r.(state := st', results := r.results + [ev])
  }

  /** Phase 2 over the first n envelopes. */
  function ParseAll<C, R>(w: World<C, R>, st: State<C, R>, envs: seq<Envelope>, p: Placed<R>, f: Faults,
      n: nat): (r: Parsing<C, R>)
    requires n <= |envs| == |p.places| == |p.dups|
    ensures |r.results| == n && IncreasingBelow(r.kept, n)
  {
    if n == 0 then Parsing(st, [], [], map[])
    else ParseStep(w, ParseAll(w, st, envs, p, f, n - 1), envs[n - 1], p.places[n - 1], p.dups[n - 1], f, n - 1)
  }

  function Rows(results: seq<Event>, kept: seq<nat>): (rows: seq<Event>)
    requires forall k :: 0 <= k < |kept| ==> kept[k] < |results|
    ensures |rows| == |kept|
  {
    seq(|kept|, k requires 0 <= k < |kept| => results[kept[k]])
  }

  /** Single writes after a failed bulk insert: row k is lost if its own write fails too. */
  function WrittenSingly(rows: seq<Event>, f: Faults, n: nat): seq<Event>
    requires n <= |rows|
  {
    if n == 0 then [] else WrittenSingly(rows, f, n - 1) + if f.write(n - 1) then [] else [rows[n - 1]]
  }

  function UpsertedAll(sources: Sources, incs: map<TenantKey, Increment>, f: Faults): Sources {
    map k | k in sources.Keys + incs.Keys && (k in sources || !f.upsert(k.0)) ::
      if k in incs && !f.upsert(k.0) then Counted(RowOr(sources, k), incs[k]) else sources[k]
  }

  /** Phase 1 over the whole batch. */
  function AllOf<C, R>(w: World<C, R>, st: State<C, R>, envs: seq<Envelope>, f: Faults): (p: Placed<R>)
    ensures |p.places| == |p.dups| == |envs|
  {
    var recs := Records(w, envs);
    PlaceAll(w, st.files, Known(st.raw, recs, f), recs, f, |recs|)
  }

  /** The rows a bulk insert stores, or, if it fails, the single writes after it. */
  function StoredRows(rows: seq<Event>, f: Faults): seq<Event> {
    if f.writeBulk then WrittenSingly(rows, f, |rows|) else rows
  }

  /** Both phases and the writes, once all payloads are decoded. */
  function Phases<C, R>(w: World<C, R>, st: State<C, R>, envs: seq<Envelope>, f: Faults): (State<C, R>, seq<Event>) {
    var p := AllOf(w, st, envs, f);
    var raw := if f.indexBulk then st.raw else IndexedAll(st.raw, p.news);
    var r := ParseAll(w, st.(raw := raw, files := p.files), envs, p, f, |envs|);
    (r.state.(events := r.state.events
        + StoredRows(Rows(r.results, r.kept), f), sources := UpsertedAll(r.state.sources, r.incs, f)),
     r.results)
  }

  /** `process_batch`: it raises, before anything is written, if some payload is not base64; no results stand for
      that. */
  function Batch<C, R>(w: World<C, R>, st: State<C, R>, envs: seq<Envelope>, f: Faults): (State<C, R>,
      Option<seq<Event>>) {
    if !AllDecodable(w, envs) then (st, None)
    else
      var (st', results) := Phases(w, st, envs, f);
      (st', Some(results))
  }

  // ------------------------------------------------------------ one envelope, with failures

  /** `process`: any exception, described by `error`, ends in an emergency event. That in turn raises if the payload
      is not base64. */
  function Rescued<C, R>(w: World<C, R>, st: State<C, R>, env: Envelope, b: Broken, error: string,
      f: Faults): (State<C, R>, Option<Event>) {
    var o := Attempted(w, st, env, b);
    if o.event.Some? || !Decodable(w, env) then (o.state, o.event)
    else
      var (st', ev) := Emergency(w, o.state, env, error, f, 0);
      (st', Some(ev))
  }

  /** Whatever raises, the caller gets an event with the payload's hash, unless the payload is not base64. */
  lemma ProcessIsTotalIffDecodable<C,
      R>(w: World<C, R>, st: State<C, R>, env: Envelope, b: Broken, error: string, f: Faults)
    ensures var (st', ev) := Rescued(w, st, env, b, error, f);
            && (ev.Some? <==> Decodable(w, env))
            && (ev.Some? ==> Answers(w, ev.value, env))
            && (ev.None? ==> st' == st)
  {
    hide Degraded, Upserted, Locate;
  }

  /** The event is written before the source is counted. If only the count fails, the emergency writes a second
      event for the same envelope; in every other case at most one is stored. */
  lemma StoredTwiceIffCountFails<C,
      R>(w: World<C, R>, st: State<C, R>, env: Envelope, b: Broken, error: string, f: Faults)
    requires Decodable(w, env)
    ensures var rec := RecordOf(w, env, Payload(w, env));
            var l := Locate(w, st.raw, st.files, rec);
            var finishes := w.compute(st.inner, env, rec, l.dup).Finished?;
            var added := |Rescued(w, st, env, b, error, f).0.events| - |st.events|;
            && 0 <= added <= 2
            && (added == 2 <==> b.UpsertBroken? && finishes && !f.emergencyWrite(0))
            && (added == 0
                <==> Attempted(w, st, env, b).event.None? && f.emergencyWrite(0) && !(b.UpsertBroken? && finishes))
  {
    hide Degraded, Upserted, Locate;
  }

  // ------------------------------------------------------------ the batch refines one at a time

  lemma PlaceAllNone<C, R>(w: World<C, R>, files: R, known: map<TenantKey, Place>, recs: seq<Record>, f: Faults)
    ensures PlaceAll(w, files, known, recs, f, 0) == Placed(files, known, [], [], [])
  {
  }

  lemma PlaceAllNext<C, R>(w: World<C, R>, files: R, known: map<TenantKey, Place>, recs: seq<Record>, f: Faults, n: nat)
    requires n < |recs|
    ensures PlaceAll(w, files, known, recs, f, n + 1)
            == PlaceStep(w, PlaceAll(w, files, known, recs, f, n), recs[n], f.append(n))
  {
  }

  lemma ParseAllNone<C, R>(w: World<C, R>, st: State<C, R>, envs: seq<Envelope>, p: Placed<R>, f: Faults)
    requires |envs| == |p.places| == |p.dups|
    ensures ParseAll(w, st, envs, p, f, 0) == Parsing(st, [], [], map[])
  {
  }

  lemma ParseAllNext<C, R>(w: World<C, R>, st: State<C, R>, envs: seq<Envelope>, p: Placed<R>, f: Faults, n: nat)
    requires n < |envs| == |p.places| == |p.dups|
    ensures ParseAll(w, st, envs, p, f, n + 1)
            == ParseStep(w, ParseAll(w, st, envs, p, f, n), envs[n], p.places[n], p.dups[n], f, n)
  {
  }

  lemma TakeSnoc<T>(s: seq<T>, n: nat)
    requires n < |s|
    ensures s[..n + 1][..n] == s[..n] && |s[..n + 1]| == n + 1 && s[..n + 1][n] == s[n]
  {
  }

  lemma OneMore<C, R>(w: World<C, R>, st: State<C, R>, envs: seq<Envelope>, n: nat)
    requires n < |envs|
    ensures var (s, evs) := OneByOne(w, st, envs[..n]);
            var o := Processed(w, s, envs[n]);
            OneByOne(w, st, envs[..n + 1]) == (o.state, evs + [o.event])
  {
    TakeSnoc(envs, n);
  }

  /** `known` is the raw index as far as this batch can see it. */
  ghost predicate Mirrors(known: map<TenantKey, Place>, raw: RawIndex, recs: seq<Record>) {
    forall i :: 0 <= i < |recs| ==>
      var key := RawKey(recs[i]);
      (key in known <==> key in raw) && (key in known ==> known[key] == raw[key].place)
  }

  lemma PlaceStepMirrors<C, R>(w: World<C, R>, p: Placed<R>, raw: RawIndex, recs: seq<Record>, n: nat)
    requires n < |recs| && Mirrors(p.known, raw, recs)
    ensures var p', l := PlaceStep(w, p, recs[n], false), Locate(w, raw, p.files, recs[n]);
            && Mirrors(p'.known, l.raw, recs) && p'.files == l.files
            && p'.places == p.places + [l.place] && p'.dups == p.dups + [l.dup]
            && ((p'.news == p.news && l.raw == raw) ||
                (p'.news == p.news + [(recs[n], l.place)] && l.raw == Indexed(raw, recs[n], l.place)))
  {
  }

  lemma IndexedAllSnoc(raw: RawIndex, rows: seq<(Record, Place)>, row: (Record, Place))
    ensures IndexedAll(raw, rows + [row]) == Indexed(IndexedAll(raw, rows), row.0, row.1)
  {
    assert (rows + [row])[..|rows|] == rows;
  }

  lemma KnownMirrors(raw: RawIndex, recs: seq<Record>)
    ensures Mirrors(Known(raw, recs, NO_FAULTS), raw, recs)
  {
  }

  lemma LocatesInPlace<C, R>(w: World<C, R>, s: State<C, R>, env: Envelope)
    requires Decodable(w, env)
    ensures var l, o := Locate(w, s.raw, s.files, RecordOf(w, env, Payload(w, env))), Processed(w, s, env);
            o.state.raw == l.raw && o.state.files == l.files
  {
  }

  lemma {:induction false} PlacesAgree<C, R>(w: World<C, R>, st: State<C, R>, envs: seq<Envelope>, n: nat)
    requires n <= |envs| && forall i :: 0 <= i < |envs| ==> Decodable(w, envs[i])
    ensures var recs, s := Records(w, envs), OneByOne(w, st, envs[..n]).0;
            var p := PlaceAll(w, st.files, Known(st.raw, recs, NO_FAULTS), recs, NO_FAULTS, n);
            && Mirrors(p.known, s.raw, recs)
            && p.files == s.files && IndexedAll(st.raw, p.news) == s.raw
  {
    hide PlaceAll, PlaceStep, OneByOne, Known, Mirrors, Processed, Locate;
    var recs := Records(w, envs);
    PlaceAllNone(w, st.files, Known(st.raw, recs, NO_FAULTS), recs, NO_FAULTS);
    if n == 0 {
      OneByOneNone(w, st, envs);
      KnownMirrors(st.raw, recs);
    } else {
      PlacesAgree(w, st, envs, n - 1);
      OneMore(w, st, envs, n - 1);
      PlaceAllNext(w, st.files, Known(st.raw, recs, NO_FAULTS), recs, NO_FAULTS, n - 1);
      var s := OneByOne(w, st, envs[..n - 1]).0;
      var p := PlaceAll(w, st.files, Known(st.raw, recs, NO_FAULTS), recs, NO_FAULTS, n - 1);
      PlaceStepMirrors(w, p, s.raw, recs, n - 1);
      LocatesInPlace(w, s, envs[n - 1]);
      IndexedAllSnoc(st.raw, p.news, (recs[n - 1], Locate(w, s.raw, p.files, recs[n - 1]).place));
    }
  }

  lemma OneByOneNone<C, R>(w: World<C, R>, st: State<C, R>, envs: seq<Envelope>)
    ensures OneByOne(w, st, envs[..0]) == (st, [])
  {
  }

  lemma {:induction false} PlacesStable<C, R>(w: World<C, R>, files: R, known: map<TenantKey, Place>,
      recs: seq<Record>, f: Faults, n: nat, m: nat)
    requires n <= m <= |recs|
    ensures PlaceAll(w, files, known, recs, f, n).places == PlaceAll(w, files, known, recs, f, m).places[..n]
    ensures PlaceAll(w, files, known, recs, f, n).dups == PlaceAll(w, files, known, recs, f, m).dups[..n]
    decreases m
  {
    hide PlaceAll, PlaceStep;
    if n < m {
      PlacesStable(w, files, known, recs, f, n, m - 1);
      PlaceAllNext(w, files, known, recs, f, m - 1);
      PlaceStepExtends(w, PlaceAll(w, files, known, recs, f, m - 1), recs[m - 1], f.append(m - 1));
    }
  }

  lemma PlaceStepExtends<C, R>(w: World<C, R>, p: Placed<R>, rec: Record, failed: bool)
    ensures var p' := PlaceStep(w, p, rec, failed);
            p'.places[..|p.places|] == p.places && p'.dups[..|p.dups|] == p.dups
  {
  }

  /** The place a batch gives envelope n is the one it would get after the first n envelopes, one at a time. */
  lemma {:induction false} PlaceOf<C, R>(w: World<C, R>, st: State<C, R>, envs: seq<Envelope>, n: nat)
    requires n < |envs| && forall i :: 0 <= i < |envs| ==> Decodable(w, envs[i])
    ensures var s, p := OneByOne(w, st, envs[..n]).0, AllOf(w, st, envs, NO_FAULTS);
            var l := Locate(w, s.raw, s.files, RecordOf(w, envs[n], Payload(w, envs[n])));
            p.places[n] == l.place && p.dups[n] == l.dup
  {
    hide OneByOne, PlaceStep, Known, Mirrors, Locate;
    PlacesAgree(w, st, envs, n);
    var recs, s := Records(w, envs), OneByOne(w, st, envs[..n]).0;
    var known := Known(st.raw, recs, NO_FAULTS);
    var p := PlaceAll(w, st.files, known, recs, NO_FAULTS, n);
    PlaceStepMirrors(w, p, s.raw, recs, n);
    PlacesStable(w, st.files, known, recs, NO_FAULTS, n + 1, |recs|);
    assert PlaceAll(w, st.files, known, recs, NO_FAULTS, n + 1) == PlaceStep(w, p, recs[n], false);
  }

  lemma UpsertedAllAt(sources: Sources, incs: map<TenantKey, Increment>, k: TenantKey)
    ensures var all := UpsertedAll(sources, incs, NO_FAULTS);
            && (k in all <==> k in sources || k in incs)
            && (k in all ==> all[k] == if k in incs then Counted(RowOr(sources, k), incs[k]) else sources[k])
  {
  }

  /** Marking a source degraded and counting its events commute. */
  lemma {:induction false} CountsCommute(sources: Sources, incs: map<TenantKey, Increment>, key: TenantKey,
      degraded: bool, transport: string, parserId: string)
    ensures UpsertedAll(Degraded(sources, key, degraded), Added(incs, key, transport, parserId), NO_FAULTS)
            == Upserted(Degraded(UpsertedAll(sources, incs, NO_FAULTS), key, degraded), key,
                Increment(1, transport, parserId))
  {
    hide UpsertedAll;
    var left := UpsertedAll(Degraded(sources, key, degraded), Added(incs, key, transport, parserId), NO_FAULTS);
    var right := Upserted(Degraded(UpsertedAll(sources, incs, NO_FAULTS), key, degraded), key,
        Increment(1, transport, parserId));
    forall k
      ensures (k in left <==> k in right) && (k in left ==> left[k] == right[k])
    {
      UpsertedAllAt(Degraded(sources, key, degraded), Added(incs, key, transport, parserId), k);
      UpsertedAllAt(sources, incs, k);
    }
    assert left.Keys == right.Keys;
  }

  /** Without failures so far, parsing a prefix of the batch has produced what one at a time produced. */
  ghost predicate Agrees<C, R>(r: Parsing<C, R>, base: State<C, R>, st: State<C, R>, s: State<C, R>,
      evs: seq<Option<Event>>) {
    && r.state.inner == s.inner && r.state.events == st.events
    && r.state.raw == base.raw && r.state.files == base.files
    && |evs| == |r.results| == |r.kept|
    && (forall i :: 0 <= i < |evs| ==> evs[i] == Some(r.results[i]) && r.kept[i] == i)
    && s.events == st.events + r.results
    && s.sources == UpsertedAll(r.state.sources, r.incs, NO_FAULTS)
  }

  lemma {:induction false} ParseStepAgrees<C, R>(w: World<C, R>, r: Parsing<C, R>, base: State<C, R>,
      st: State<C, R>, s: State<C, R>, evs: seq<Option<Event>>, env: Envelope)
    requires Agrees(r, base, st, s, evs) && Decodable(w, env) && Processed(w, s, env).event.Some?
    ensures var l := Locate(w, s.raw, s.files, RecordOf(w, env, Payload(w, env)));
            var o := Processed(w, s, env);
            Agrees(ParseStep(w, r, env, l.place, l.dup, NO_FAULTS, |r.results|), base, st, o.state, evs + [o.event])
  {
    hide UpsertedAll, Upserted, Degraded, Added, Locate;
    var rec := RecordOf(w, env, Payload(w, env));
    var l, o := Locate(w, s.raw, s.files, rec), Processed(w, s, env);
    var c := w.compute(s.inner, env, rec, l.dup);
    CountsCommute(r.state.sources, r.incs, SourceKey(env), c.degraded, env.transport, c.parsed.parserId);
    var r' := ParseStep(w, r, env, l.place, l.dup, NO_FAULTS, |r.results|);
    assert o.state.events == st.events + r'.results;
  }

  /** Every event of the first n envelopes came out. */
  ghost predicate AllFinish<C, R>(w: World<C, R>, st: State<C, R>, envs: seq<Envelope>) {
    forall n :: 0 <= n < |envs| ==>
      Decodable(w, envs[n]) && Processed(w, OneByOne(w, st, envs[..n]).0, envs[n]).event.Some?
  }

  lemma {:induction false} ParsingAgrees<C, R>(w: World<C, R>, st: State<C, R>, base: State<C, R>,
      envs: seq<Envelope>, n: nat)
    requires n <= |envs| && AllFinish(w, st, envs)
    requires base.inner == st.inner && base.events == st.events && base.sources == st.sources
    ensures var (s, evs) := OneByOne(w, st, envs[..n]);
            Agrees(ParseAll(w, base, envs, AllOf(w, st, envs, NO_FAULTS), NO_FAULTS, n), base, st, s, evs)
  {
    hide OneByOne, ParseStep, AllOf, Agrees, Processed;
    var p := AllOf(w, st, envs, NO_FAULTS);
    if n == 0 {
      OneByOneNone(w, st, envs);
      NothingParsed(st, base);
    } else {
      ParsingAgrees(w, st, base, envs, n - 1);
      OneMore(w, st, envs, n - 1);
      PlaceOf(w, st, envs, n - 1);
      var (s, evs) := OneByOne(w, st, envs[..n - 1]);
      ParseStepAgrees(w, ParseAll(w, base, envs, p, NO_FAULTS, n - 1), base, st, s, evs, envs[n - 1]);
    }
  }

  lemma NothingParsed<C, R>(st: State<C, R>, base: State<C, R>)
    requires base.inner == st.inner && base.events == st.events && base.sources == st.sources
    ensures Agrees(Parsing(base, [], [], map[]), base, st, st, [])
  {
    assert st.sources == UpsertedAll(base.sources, map[], NO_FAULTS);
  }

  /** With working statements a batch leaves the tables, and returns the events, of one envelope at a time. */
  lemma {:induction false} BatchIsOneByOne<C, R>(w: World<C, R>, st: State<C, R>, envs: seq<Envelope>)
    requires AllFinish(w, st, envs)
    ensures var (s, evs) := OneByOne(w, st, envs);
            var (s', results) := Batch(w, st, envs, NO_FAULTS);
            && s' == s
            && results.Some? && |results.value| == |evs| == |envs|
            && forall i :: 0 <= i < |envs| ==> evs[i] == Some(results.value[i])
  {
    hide OneByOne, PlaceAll, ParseAll, UpsertedAll, Processed, Known;
    PlacesAgree(w, st, envs, |envs|);
    var p := AllOf(w, st, envs, NO_FAULTS);
    var base := st.(raw := IndexedAll(st.raw, p.news), files := p.files);
    ParsingAgrees(w, st, base, envs, |envs|);
    assert envs[..|envs|] == envs;
    var r := ParseAll(w, base, envs, p, NO_FAULTS, |envs|);
    assert Rows(r.results, r.kept) == r.results;
  }

  lemma {:induction false} OneByOneConcat<C, R>(w: World<C, R>, st: State<C, R>, a: seq<Envelope>, b: seq<Envelope>)
    ensures var (s, evs) := OneByOne(w, st, a);
            var (s', evs') := OneByOne(w, s, b);
            OneByOne(w, st, a + b) == (s', evs + evs')
    decreases |b|
  {
    hide Processed;
    var (s, evs) := OneByOne(w, st, a);
    if b == [] {
      assert a + b == a;
      assert evs + [] == evs;
    } else {
      var init, last := b[..|b| - 1], b[|b| - 1];
      OneByOneConcat(w, st, a, init);
      assert (a + b)[..|a + b| - 1] == a + init;
      var (s', evs') := OneByOne(w, s, init);
      assert (evs + evs') + [Processed(w, s', last).event] == evs + (evs' + [Processed(w, s', last).event]);
    }
  }

  lemma {:induction false} PartsFinish<C, R>(w: World<C, R>, st: State<C, R>, a: seq<Envelope>, b: seq<Envelope>)
    requires AllFinish(w, st, a + b)
    ensures AllFinish(w, st, a) && AllFinish(w, OneByOne(w, st, a).0, b)
  {
    hide OneByOne, Processed, Decodable;
    forall n | 0 <= n < |a|
      ensures Decodable(w, a[n]) && Processed(w, OneByOne(w, st, a[..n]).0, a[n]).event.Some?
    {
      assert (a + b)[..n] == a[..n] && (a + b)[n] == a[n];
    }
    var s := OneByOne(w, st, a).0;
    forall n | 0 <= n < |b|
      ensures Decodable(w, b[n]) && Processed(w, OneByOne(w, s, b[..n]).0, b[n]).event.Some?
    {
      assert (a + b)[..|a| + n] == a + b[..n] && (a + b)[|a| + n] == b[n];
      OneByOneConcat(w, st, a, b[..n]);
    }
  }

  /** Where a stream of envelopes is cut into batches makes no difference to the tables. */
  lemma {:induction false} BoundariesDoNotMatter<C,
      R>(w: World<C, R>, st: State<C, R>, a: seq<Envelope>, b: seq<Envelope>)
    requires AllFinish(w, st, a + b)
    ensures var (s, first) := Batch(w, st, a, NO_FAULTS);
            var (s', second) := Batch(w, s, b, NO_FAULTS);
            first.Some? && second.Some? && Batch(w, st, a + b, NO_FAULTS) == (s', Some(first.value + second.value))
  {
    hide OneByOne, Batch, AllFinish;
    PartsFinish(w, st, a, b);
    BatchIsOneByOne(w, st, a);
    BatchIsOneByOne(w, OneByOne(w, st, a).0, b);
    BatchIsOneByOne(w, st, a + b);
    OneByOneConcat(w, st, a, b);
    var s := Batch(w, st, a, NO_FAULTS).0;
    var first, second := Batch(w, st, a, NO_FAULTS).1.value, Batch(w, s, b, NO_FAULTS).1.value;
    var all := Batch(w, st, a + b, NO_FAULTS).1.value;
    forall i | 0 <= i < |a + b|
      ensures all[i] == (first + second)[i]
    {
      assert Some(all[i]) == OneByOne(w, st, a + b).1[i];
      if i < |a| {
        assert Some(first[i]) == OneByOne(w, st, a).1[i];
      } else {
        assert Some(second[i - |a|]) == OneByOne(w, s, b).1[i - |a|];
      }
    }
    assert all == first + second;
  }

  // ------------------------------------------------------------ content addressing

  function ContentOf<C, R>(w: World<C, R>, env: Envelope): TenantKey {
    (env.tenant, w.sha256(Payload(w, env)))
  }

  /** One envelope indexes its content, never moves a content indexed before, and its event points to the indexed
      place. */
  lemma ProcessedIndexes<C, R>(w: World<C, R>, st: State<C, R>, env: Envelope)
    ensures var (raw, ev, k) := (Processed(w, st, env).state.raw, Processed(w, st, env).event, ContentOf(w, env));
            && raw.Keys == st.raw.Keys + (if Decodable(w, env) then {k} else {})
            && (forall j :: j in st.raw ==> raw[j] == st.raw[j])
            && (Decodable(w, env) && k !in st.raw ==>
                  raw[k].source == env.source && raw[k].receivedAt == env.receivedAt)
            && (ev.Some? ==> Decodable(w, env) && ev.value.place == raw[k].place && ev.value.rawId == k.1
                             && ev.value.duplicateOf == if k in st.raw then Some(k.1) else None)
  {
    hide Degraded, Upserted;
  }

  /** Some decodable envelope has this content. */
  ghost predicate Occurs<C, R>(w: World<C, R>, envs: seq<Envelope>, k: TenantKey) {
    exists i :: 0 <= i < |envs| && Decodable(w, envs[i]) && ContentOf(w, envs[i]) == k
  }

  lemma OccursSnoc<C, R>(w: World<C, R>, envs: seq<Envelope>, k: TenantKey)
    requires envs != []
    ensures var init, last := envs[..|envs| - 1], envs[|envs| - 1];
            Occurs(w, envs, k) <==> Occurs(w, init, k) || (Decodable(w, last) && ContentOf(w, last) == k)
  {
    var n := |envs| - 1;
    if Occurs(w, envs, k) {
      var i :| 0 <= i < |envs| && Decodable(w, envs[i]) && ContentOf(w, envs[i]) == k;
      assert i < n ==> envs[..n][i] == envs[i];
    }
    if Occurs(w, envs[..n], k) {
      var i :| 0 <= i < n && Decodable(w, envs[..n][i]) && ContentOf(w, envs[..n][i]) == k;
      assert envs[i] == envs[..n][i];
    }
  }

  lemma {:induction false} IndexedIffSeen<C, R>(w: World<C, R>, st: State<C, R>, envs: seq<Envelope>, k: TenantKey)
    ensures var raw := OneByOne(w, st, envs).0.raw;
            && (k in raw <==> k in st.raw || Occurs(w, envs, k))
            && (k in st.raw ==> raw[k] == st.raw[k])
  {
    hide Processed, Occurs, Decodable, ContentOf;
    if envs == [] {
      NothingOccurs(w, k);
    } else {
      var init, last := envs[..|envs| - 1], envs[|envs| - 1];
      IndexedIffSeen(w, st, init, k);
      OccursSnoc(w, envs, k);
      ProcessedIndexes(w, OneByOne(w, st, init).0, last);
    }
  }

  lemma NothingOccurs<C, R>(w: World<C, R>, k: TenantKey)
    ensures !Occurs(w, [], k)
  {
  }

  /** The event for envelope n is the one it gets after the n envelopes before it. */
  lemma {:induction false} EventAt<C, R>(w: World<C, R>, st: State<C, R>, envs: seq<Envelope>, n: nat)
    requires n < |envs|
    ensures |OneByOne(w, st, envs).1| == |envs|
    ensures OneByOne(w, st, envs).1[n] == Processed(w, OneByOne(w, st, envs[..n]).0, envs[n]).event
    decreases |envs|
  {
    hide Processed;
    var init := envs[..|envs| - 1];
    if n < |init| {
      EventAt(w, st, init, n);
      assert init[..n] == envs[..n];
    } else if init != [] {
      EventAt(w, st, init, |init| - 1);
    }
  }

  /** An event is marked a duplicate exactly if its content was indexed before the run or came with an earlier
      envelope. */
  lemma DuplicateIffSeenBefore<C, R>(w: World<C, R>, st: State<C, R>, envs: seq<Envelope>, n: nat)
    requires n < |envs|
    ensures |OneByOne(w, st, envs).1| == |envs|
    ensures var ev := OneByOne(w, st, envs).1[n];
            ev.Some? ==>
              (ev.value.duplicateOf.Some?
               <==> ContentOf(w, envs[n]) in st.raw || Occurs(w, envs[..n], ContentOf(w, envs[n])))
  {
    hide OneByOne, Processed, Occurs;
    EventAt(w, st, envs, n);
    IndexedIffSeen(w, st, envs[..n], ContentOf(w, envs[n]));
    ProcessedIndexes(w, OneByOne(w, st, envs[..n]).0, envs[n]);
  }

  /** All events of a run with the same tenant and content point to one place, the one in the index at the end. */
  lemma SameContentSamePlace<C, R>(w: World<C, R>, st: State<C, R>, envs: seq<Envelope>, n: nat)
    requires n < |envs|
    ensures |OneByOne(w, st, envs).1| == |envs|
    ensures var (s, evs) := OneByOne(w, st, envs);
            evs[n].Some? ==> ContentOf(w, envs[n]) in s.raw && evs[n].value.place == s.raw[ContentOf(w, envs[n])].place
  {
    hide OneByOne, Processed, Occurs;
    EventAt(w, st, envs, n);
    OneMore(w, st, envs, n);
    ProcessedIndexes(w, OneByOne(w, st, envs[..n]).0, envs[n]);
    var s := OneByOne(w, st, envs[..n + 1]).0;
    OneByOneConcat(w, st, envs[..n + 1], envs[n + 1..]);
    assert envs == envs[..n + 1] + envs[n + 1..];
    IndexedIffSeen(w, s, envs[n + 1..], ContentOf(w, envs[n]));
  }

  // ------------------------------------------------------------ what survives failures

  ghost predicate Answers<C, R>(w: World<C, R>, ev: Event, env: Envelope) {
    && ev.rawId == w.sha256(Payload(w, env))
    && ev.tenant == env.tenant && ev.project == env.project && ev.source == env.source
    && ev.transport == env.transport && ev.peer == env.peer && ev.receivedAt == env.receivedAt
  }

  lemma {:induction false} ParsedAnswers<C, R>(w: World<C, R>, st: State<C, R>, envs: seq<Envelope>, p: Placed<R>,
      f: Faults, n: nat, i: nat)
    requires i < n <= |envs| == |p.places| == |p.dups|
    ensures Answers(w, ParseAll(w, st, envs, p, f, n).results[i], envs[i])
    decreases n
  {
    if i < n - 1 { ParsedAnswers(w, st, envs, p, f, n - 1, i); }
  }

  /** Whatever else fails, every envelope gets exactly one event, in its place, with its own payload's hash, if and only
      if all payloads are base64; otherwise the batch raises and changes nothing. */
  lemma OneEventPerEnvelope<C, R>(w: World<C, R>, st: State<C, R>, envs: seq<Envelope>, f: Faults)
    ensures var (st', results) := Batch(w, st, envs, f);
            && (results.Some? <==> AllDecodable(w, envs))
            && (results.None? ==> st' == st)
            && (results.Some? ==>
                  |results.value| == |envs| && forall i :: 0 <= i < |envs| ==> Answers(w, results.value[i], envs[i]))
  {
    hide ParseAll, AllDecodable;
    var p, base := AllOf(w, st, envs, f), BaseOf(w, st, envs, f);
    forall i | 0 <= i < |envs|
      ensures Answers(w, ParseAll(w, base, envs, p, f, |envs|).results[i], envs[i])
    {
      ParsedAnswers(w, base, envs, p, f, |envs|, i);
    }
  }

  /** The emergency events that were written, in order. */
  ghost function Salvaged(results: seq<Event>, kept: seq<nat>, f: Faults, n: nat): seq<Event>
    requires n <= |results|
  {
    if n == 0 then []
    else Salvaged(results, kept, f, n - 1) + if n - 1 in kept || f.emergencyWrite(n - 1) then [] else [results[n - 1]]
  }

  lemma {:induction false} SalvagedStable(results: seq<Event>, kept: seq<nat>, ev: Event, kept': seq<nat>, f: Faults,
      n: nat)
    requires n <= |results| && (kept' == kept || kept' == kept + [|results|])
    ensures Salvaged(results + [ev], kept', f, n) == Salvaged(results, kept, f, n)
  {
    if n > 0 {
      SalvagedStable(results, kept, ev, kept', f, n - 1);
      assert n - 1 in kept' <==> n - 1 in kept;
    }
  }

  lemma {:induction false} ParsedSalvages<C, R>(w: World<C, R>, st: State<C, R>, envs: seq<Envelope>, p: Placed<R>,
      f: Faults, n: nat)
    requires n <= |envs| == |p.places| == |p.dups|
    ensures var r := ParseAll(w, st, envs, p, f, n);
            r.state.events == st.events + Salvaged(r.results, r.kept, f, n)
  {
    hide ParseAll, ParseStep;
    ParseAllNone(w, st, envs, p, f);
    if n > 0 {
      ParsedSalvages(w, st, envs, p, f, n - 1);
      ParseAllNext(w, st, envs, p, f, n - 1);
      var r, r' := ParseAll(w, st, envs, p, f, n - 1), ParseAll(w, st, envs, p, f, n);
      SalvageStep(w, r, envs[n - 1], p.places[n - 1], p.dups[n - 1], f, n - 1);
      SalvagedStable(r.results, r.kept, r'.results[n - 1], r'.kept, f, n - 1);
    }
  }

  /** A step keeps its envelope's index exactly when parsing finished, and writes the event itself otherwise. */
  lemma SalvageStep<C, R>(w: World<C, R>, r: Parsing<C, R>, env: Envelope, place: Place, dup: Option<string>,
      f: Faults, i: nat)
    requires |r.results| == i && IncreasingBelow(r.kept, i)
    ensures var r' := ParseStep(w, r, env, place, dup, f, i);
            var ev := r'.results[i];
            && r'.results == r.results + [ev]
            && (i in r'.kept <==> w.compute(r.state.inner, env, RecordOf(w, env, Payload(w, env)), dup).Finished?)
            && (r'.kept == r.kept || r'.kept == r.kept + [i])
            && r'.state.events == r.state.events + if i in r'.kept || f.emergencyWrite(i) then [] else [ev]
  {
  }

  lemma WrittenSinglyNone(rows: seq<Event>, f: Faults)
    ensures WrittenSingly(rows, f, 0) == []
  {
  }

  lemma WrittenSinglyNext(rows: seq<Event>, f: Faults, n: nat)
    requires n < |rows|
    ensures WrittenSingly(rows, f, n + 1) == WrittenSingly(rows, f, n) + if f.write(n) then [] else [rows[n]]
  {
  }

  /** The state with which phase 2 of a batch starts. */
  ghost function BaseOf<C, R>(w: World<C, R>, st: State<C, R>, envs: seq<Envelope>, f: Faults): State<C, R> {
    var p := AllOf(w, st, envs, f);
    st.(raw := if f.indexBulk then st.raw else IndexedAll(st.raw, p.news), files := p.files)
  }

  /** Parsing envelope i of the batch ends in an event rather than an exception. */
  ghost predicate Parses<C, R>(w: World<C, R>, st: State<C, R>, envs: seq<Envelope>, f: Faults, i: nat)
    requires i < |envs|
  {
    var p := AllOf(w, st, envs, f);
    var r := ParseAll(w, BaseOf(w, st, envs, f), envs, p, f, i);
    w.compute(r.state.inner, envs[i], RecordOf(w, envs[i], Payload(w, envs[i])), p.dups[i]).Finished?
  }

  lemma {:induction false} KeptIffParses<C, R>(w: World<C, R>, st: State<C, R>, envs: seq<Envelope>, f: Faults,
      n: nat, i: nat)
    requires i < n <= |envs|
    ensures i in ParseAll(w, BaseOf(w, st, envs, f), envs, AllOf(w, st, envs, f), f, n).kept
            <==> Parses(w, st, envs, f, i)
    decreases n
  {
    hide ParseStep, AllOf, BaseOf;
    var p, base := AllOf(w, st, envs, f), BaseOf(w, st, envs, f);
    var r := ParseAll(w, base, envs, p, f, n - 1);
    SalvageStep(w, r, envs[n - 1], p.places[n - 1], p.dups[n - 1], f, n - 1);
    if i < n - 1 {
      KeptIffParses(w, st, envs, f, n - 1, i);
      var r' := ParseAll(w, base, envs, p, f, n);
      assert r'.kept == r.kept || r'.kept == r.kept + [n - 1];
    }
  }

  /** The envelopes whose events go into the bulk insert. */
  ghost function KeptOf<C, R>(w: World<C, R>, st: State<C, R>, envs: seq<Envelope>, f: Faults): (kept: seq<nat>)
    ensures IncreasingBelow(kept, |envs|)
  {
    ParseAll(w, BaseOf(w, st, envs, f), envs, AllOf(w, st, envs, f), f, |envs|).kept
  }

  /** A batch stores the emergency events that could be written and then, in order, the rows of the envelopes that
      parsed. */
  lemma {:induction false} StoredInOrder<C, R>(w: World<C, R>, st: State<C, R>, envs: seq<Envelope>, f: Faults)
    ensures var (st', results) := Batch(w, st, envs, f);
            var kept := KeptOf(w, st, envs, f);
            && (forall i :: 0 <= i < |envs| ==> (i in kept <==> Parses(w, st, envs, f, i)))
            && (results.Some? ==>
                  && |results.value| == |envs|
                  && st'.events == st.events + Salvaged(results.value, kept, f, |envs|)
                      + StoredRows(Rows(results.value, kept), f))
            && (results.None? ==> st'.events == st.events)
  {
    hide PlaceAll, ParseAll, AllOf, Parses, StoredRows, AllDecodable;
    var p, base := AllOf(w, st, envs, f), BaseOf(w, st, envs, f);
    ParsedSalvages(w, base, envs, p, f, |envs|);
    forall i | 0 <= i < |envs|
      ensures i in KeptOf(w, st, envs, f) <==> Parses(w, st, envs, f, i)
    {
      KeptIffParses(w, st, envs, f, |envs|, i);
    }
  }

  lemma {:induction false} IncreasingIsShort(kept: seq<nat>, n: nat)
    requires IncreasingBelow(kept, n)
    ensures |kept| <= n
  {
    if kept != [] { IncreasingIsShort(kept[..|kept| - 1], kept[|kept| - 1]); }
  }

  // ------------------------------------------------------------ the batch against `process`

  lemma OneMoreOf<T>(a: seq<T>, b: seq<T>, x: T)
    ensures multiset(a + (b + [x])) == multiset(a + b) + multiset{x}
    ensures multiset((a + [x]) + b) == multiset(a + b) + multiset{x}
  {
    assert a + (b + [x]) == (a + b) + [x];
    assert multiset((a + [x]) + b) == multiset(a) + multiset{x} + multiset(b);
  }

  /** The row of an envelope in the bulk insert. */
  function RowNumber(kept: seq<nat>, i: nat): nat {
    if kept == [] then 0 else RowNumber(kept[..|kept| - 1], i) + if kept[|kept| - 1] < i then 1 else 0
  }

  /** The write meant for an envelope's own event works: the bulk insert, its single write, or its emergency write. */
  predicate OwnWriteWorks(f: Faults, kept: seq<nat>, i: nat) {
    if i in kept then !f.writeBulk || !f.write(RowNumber(kept, i)) else !f.emergencyWrite(i)
  }

  /** The results whose own write works. */
  ghost function Written(results: seq<Event>, kept: seq<nat>, f: Faults, n: nat): seq<Event>
    requires n <= |results|
  {
    if n == 0 then []
    else Written(results, kept, f, n - 1) + if OwnWriteWorks(f, kept, n - 1) then [results[n - 1]] else []
  }

  lemma {:induction false} LastRow(kept: seq<nat>, n: nat)
    requires IncreasingBelow(kept, n)
    ensures RowNumber(kept, n) == |kept|
  {
    if kept != [] { LastRow(kept[..|kept| - 1], n); }
  }

  lemma OwnWriteStable(f: Faults, kept: seq<nat>, n: nat, kept': seq<nat>, i: nat)
    requires i <= n && (kept' == kept || kept' == kept + [n])
    ensures RowNumber(kept', i) == RowNumber(kept, i)
    ensures i < n ==> OwnWriteWorks(f, kept', i) == OwnWriteWorks(f, kept, i)
  {
    if kept' == kept + [n] { assert kept'[..|kept'| - 1] == kept; }
  }

  lemma {:induction false} WrittenStable(results: seq<Event>, kept: seq<nat>, ev: Event, kept': seq<nat>, f: Faults,
      n: nat)
    requires n <= |results| && (kept' == kept || kept' == kept + [|results|])
    ensures Written(results + [ev], kept', f, n) == Written(results, kept, f, n)
  {
    hide OwnWriteWorks;
    if n > 0 {
      WrittenStable(results, kept, ev, kept', f, n - 1);
      OwnWriteStable(f, kept, |results|, kept', n - 1);
    }
  }

  lemma WrittenNext(results: seq<Event>, kept: seq<nat>, f: Faults, n: nat)
    requires n < |results|
    ensures Written(results, kept, f, n + 1)
            == Written(results, kept, f, n) + if OwnWriteWorks(f, kept, n) then [results[n]] else []
  {
  }

  lemma {:induction false} WrittenSinglyStable(rows: seq<Event>, ev: Event, f: Faults, n: nat)
    requires n <= |rows|
    ensures WrittenSingly(rows + [ev], f, n) == WrittenSingly(rows, f, n)
  {
    if n > 0 { WrittenSinglyStable(rows, ev, f, n - 1); }
  }

  lemma OneMoreRow(rows: seq<Event>, ev: Event, f: Faults)
    ensures StoredRows(rows + [ev], f) == StoredRows(rows, f) + if f.writeBulk && f.write(|rows|) then [] else [ev]
  {
    hide WrittenSingly;
    WrittenSinglyStable(rows, ev, f, |rows|);
    WrittenSinglyNext(rows + [ev], f, |rows|);
  }

  /** One more result, parsed: it adds itself to the rows if its own write works. */
  lemma OneMoreKept(init: seq<Event>, kept: seq<nat>, ev: Event, f: Faults)
    requires IncreasingBelow(kept, |init|)
    ensures var n, results, kept' := |init|, init + [ev], kept + [|init|];
            && Salvaged(results, kept', f, n + 1) == Salvaged(init, kept, f, n)
            && StoredRows(Rows(results, kept'), f) == StoredRows(Rows(init, kept), f) + if OwnWriteWorks(f, kept', n)
                then [ev] else []
  {
    hide Salvaged, Rows, StoredRows, RowNumber;
    var n := |init|;
    SalvagedStable(init, kept, ev, kept + [n], f, n);
    SalvagedNext(init + [ev], kept + [n], f, n);
    RowsNext(init, kept, ev);
    OneMoreRow(Rows(init, kept), ev, f);
    LastRow(kept, n);
    OwnWriteStable(f, kept, n, kept + [n], n);
  }

  /** One more result, an emergency's: it adds itself to the salvaged ones if its own write works. */
  lemma OneMoreSalvaged(init: seq<Event>, kept: seq<nat>, ev: Event, f: Faults)
    requires IncreasingBelow(kept, |init|)
    ensures var n, results := |init|, init + [ev];
            && Salvaged(results, kept, f, n + 1) == Salvaged(init, kept, f, n)
                + (if OwnWriteWorks(f, kept, n) then [ev] else [])
            && Rows(results, kept) == Rows(init, kept)
  {
    hide Salvaged, Rows;
    var n := |init|;
    assert n !in kept;
    SalvagedStable(init, kept, ev, kept, f, n);
    SalvagedNext(init + [ev], kept, f, n);
    RowsNext(init, kept, ev);
  }

  lemma {:induction false} SalvagedAndRows(results: seq<Event>, kept: seq<nat>, f: Faults)
    requires IncreasingBelow(kept, |results|)
    ensures multiset(Salvaged(results, kept, f, |results|) + StoredRows(Rows(results, kept), f))
            == multiset(Written(results, kept, f, |results|))
  {
    hide Salvaged, Rows, StoredRows, Written, OwnWriteWorks;
    if results == [] {
      NothingSalvaged(results, kept, f);
    } else {
      var n := |results| - 1;
      var init, ev := results[..n], results[n];
      assert results == init + [ev];
      WrittenNext(results, kept, f, n);
      if kept != [] && kept[|kept| - 1] == n {
        var kept' := kept[..|kept| - 1];
        assert kept == kept' + [n];
        SalvagedAndRows(init, kept', f);
        WrittenStable(init, kept', ev, kept, f, n);
        OneMoreKept(init, kept', ev, f);
        OneMoreOf(Salvaged(init, kept', f, n), StoredRows(Rows(init, kept'), f), ev);
      } else {
        SalvagedAndRows(init, kept, f);
        WrittenStable(init, kept, ev, kept, f, n);
        OneMoreSalvaged(init, kept, ev, f);
        OneMoreOf(Salvaged(init, kept, f, n), StoredRows(Rows(init, kept), f), ev);
      }
    }
  }

  lemma NothingSalvaged(results: seq<Event>, kept: seq<nat>, f: Faults)
    ensures Salvaged(results, kept, f, 0) == [] && Written(results, kept, f, 0) == []
    ensures results == [] && IncreasingBelow(kept, 0) ==> StoredRows(Rows(results, kept), f) == []
  {
    if IncreasingBelow(kept, 0) { IncreasingIsShort(kept, 0); }
  }

  lemma SalvagedNext(results: seq<Event>, kept: seq<nat>, f: Faults, n: nat)
    requires n < |results|
    ensures Salvaged(results, kept, f, n + 1)
            == Salvaged(results, kept, f, n) + if n in kept || f.emergencyWrite(n) then [] else [results[n]]
  {
  }

  /** The event of every envelope can be written, in the bulk insert or singly. */
  ghost predicate WritesWork(f: Faults, n: nat) {
    (!f.writeBulk || forall k :: 0 <= k < n ==> !f.write(k)) && forall i :: 0 <= i < n ==> !f.emergencyWrite(i)
  }

  /** Under any failures, a batch of base64 payloads stores exactly those of its results whose own write works, each
      once. */
  lemma {:induction false} StoredIffOwnWriteWorks<C, R>(w: World<C, R>, st: State<C, R>, envs: seq<Envelope>, f: Faults)
    ensures var (st', results) := Batch(w, st, envs, f);
            && (results.Some? ==>
                  && |results.value| == |envs|
                  && multiset(st'.events) == multiset(st.events)
                      + multiset(Written(results.value, KeptOf(w, st, envs, f), f, |envs|)))
            && (results.None? ==> st'.events == st.events)
  {
    hide Batch, Parses, Salvaged, Rows, StoredRows, Written, KeptOf;
    StoredInOrder(w, st, envs, f);
    var (st', results) := Batch(w, st, envs, f);
    if results.Some? {
      var kept := KeptOf(w, st, envs, f);
      SalvagedAndRows(results.value, kept, f);
      var stored := Salvaged(results.value, kept, f, |envs|) + StoredRows(Rows(results.value, kept), f);
      assert st'.events == st.events + stored;
    }
  }

  lemma {:induction false} AllWritten(results: seq<Event>, kept: seq<nat>, f: Faults, n: nat)
    requires n <= |results| && IncreasingBelow(kept, |results|) && WritesWork(f, |results|)
    ensures Written(results, kept, f, n) == results[..n]
  {
    hide WritesWork, OwnWriteWorks;
    if n > 0 {
      AllWritten(results, kept, f, n - 1);
      OwnWriteOf(f, kept, |results|, n - 1);
    }
  }

  lemma OwnWriteOf(f: Faults, kept: seq<nat>, n: nat, i: nat)
    requires IncreasingBelow(kept, n) && WritesWork(f, n) && i < n
    ensures OwnWriteWorks(f, kept, i)
  {
    RowIsShort(kept, i);
    IncreasingIsShort(kept, n);
    if i in kept { RowOfKept(kept, i); }
  }

  lemma {:induction false} RowIsShort(kept: seq<nat>, i: nat)
    ensures RowNumber(kept, i) <= |kept|
  {
    if kept != [] { RowIsShort(kept[..|kept| - 1], i); }
  }

  lemma {:induction false} RowOfKept(kept: seq<nat>, i: nat)
    requires i in kept
    ensures RowNumber(kept, i) < |kept|
  {
    var init := kept[..|kept| - 1];
    if kept[|kept| - 1] == i {
      RowIsShort(init, i);
    } else {
      RowOfKept(init, i);
    }
  }

  /** While writes work, a batch of base64 payloads stores exactly its results. */
  lemma {:induction false} BatchStoresItsResults<C, R>(w: World<C, R>, st: State<C, R>, envs: seq<Envelope>, f: Faults)
    requires WritesWork(f, |envs|)
    ensures var (st', results) := Batch(w, st, envs, f);
            results.Some? ==>
              && |results.value| == |envs| && |st'.events| == |st.events| + |envs|
              && multiset(st'.events) == multiset(st.events) + multiset(results.value)
  {
    hide Batch, Parses, Written, KeptOf, WritesWork;
    StoredIffOwnWriteWorks(w, st, envs, f);
    var (st', results) := Batch(w, st, envs, f);
    if results.Some? {
      AllWritten(results.value, KeptOf(w, st, envs, f), f, |envs|);
      assert results.value[..|envs|] == results.value;
      assert |multiset(st'.events)| == |multiset(st.events)| + |multiset(results.value)|;
    }
  }

  lemma {:induction false} OneByOneEvents<C, R>(w: World<C, R>, st: State<C, R>, envs: seq<Envelope>)
    ensures var (s, evs) := OneByOne(w, st, envs);
            && |evs| == |envs| && |st.events| <= |s.events| <= |st.events| + |envs| && st.events <= s.events
            && (|s.events| == |st.events| + |envs| <==> forall n :: 0 <= n < |envs| ==> evs[n].Some?)
            && (|s.events| == |st.events| <==> forall n :: 0 <= n < |envs| ==> evs[n].None?)
  {
    hide Processed;
    if envs != [] {
      var init, last := envs[..|envs| - 1], envs[|envs| - 1];
      OneByOneEvents(w, st, init);
      ProcessedEvents(w, OneByOne(w, st, init).0, last);
      var evs0, evs := OneByOne(w, st, init).1, OneByOne(w, st, envs).1;
      assert evs == evs0 + [evs[|init|]];
      assert forall n :: 0 <= n < |init| ==> evs[n] == evs0[n];
    }
  }

  lemma ProcessedEvents<C, R>(w: World<C, R>, st: State<C, R>, env: Envelope)
    ensures var o := Processed(w, st, env);
            o.state.events == st.events + if o.event.Some? then [o.event.value] else []
  {
    hide Degraded, Upserted, Locate;
  }

  /** Some envelope goes through `_process_inner` without raising. */
  ghost predicate SomeFinishes<C, R>(w: World<C, R>, st: State<C, R>, envs: seq<Envelope>) {
    exists n :: 0 <= n < |envs| && Processed(w, OneByOne(w, st, envs[..n]).0, envs[n]).event.Some?
  }

  /** With working statements, a batch of base64 payloads leaves the tables of `_process_inner` one envelope at a time
      if and only if no envelope raises. For all batches, it leaves the same events if and only if none raises, or some
      payload is not base64 and every envelope raises. */
  lemma {:induction false} TablesAgreeIffAllFinish<C, R>(w: World<C, R>, st: State<C, R>, envs: seq<Envelope>)
    ensures var (s, s') := (OneByOne(w, st, envs).0, Batch(w, st, envs, NO_FAULTS).0);
            && (AllDecodable(w, envs) ==> (s' == s <==> AllFinish(w, st, envs)))
            && (s'.events == s.events
                <==> AllFinish(w, st, envs) || (!AllDecodable(w, envs) && !SomeFinishes(w, st, envs)))
  {
    hide OneByOne, Processed, Phases;
    if AllFinish(w, st, envs) { BatchIsOneByOne(w, st, envs); }
    BatchStoresItsResults(w, st, envs, NO_FAULTS);
    OneByOneEvents(w, st, envs);
    forall n | 0 <= n < |envs|
      ensures OneByOne(w, st, envs).1[n] == Processed(w, OneByOne(w, st, envs[..n]).0, envs[n]).event
      ensures OneByOne(w, st, envs).1[n].Some? ==> Decodable(w, envs[n])
    {
      EventAt(w, st, envs, n);
      ProcessedIndexes(w, OneByOne(w, st, envs[..n]).0, envs[n]);
    }
  }

  // ------------------------------------------------------------ what parsing comes to, and what the sources count

  /** The state of parsing before envelope n, handed on from one envelope to the next. */
  ghost function InnerAt<C, R>(w: World<C, R>, inner: C, envs: seq<Envelope>, dups: seq<Option<string>>, n: nat): C
    requires n <= |envs| == |dups|
    decreases n, 0
  {
    if n == 0 then inner else ComputedAt(w, inner, envs, dups, n - 1).next
  }

  /** What parsing envelope i comes to. */
  ghost function ComputedAt<C, R>(w: World<C, R>, inner: C, envs: seq<Envelope>, dups: seq<Option<string>>,
      i: nat): Computed<C>
    requires i < |envs| == |dups|
    decreases i, 1
  {
    w.compute(InnerAt(w, inner, envs, dups, i), envs[i], RecordOf(w, envs[i], Payload(w, envs[i])), dups[i])
  }

  /** For each envelope of a batch, the content it is marked a duplicate of. */
  ghost function DupsOf<C, R>(w: World<C, R>, st: State<C, R>, envs: seq<Envelope>,
      f: Faults): (dups: seq<Option<string>>)
    ensures |dups| == |envs|
  {
    AllOf(w, st, envs, f).dups
  }

  /** Envelope i is of this source and parsed. */
  ghost predicate Counts<C, R>(w: World<C, R>, inner: C, envs: seq<Envelope>, dups: seq<Option<string>>,
      k: TenantKey, i: nat)
    requires |envs| == |dups|
  {
    i < |envs| && envs[i].tenant == k.0 && envs[i].source == k.1 && ComputedAt(w, inner, envs, dups, i).Finished?
  }

  /** Parsing envelope i, which is of this source, found its parser to drift. */
  ghost predicate Marks<C, R>(w: World<C, R>, inner: C, envs: seq<Envelope>, dups: seq<Option<string>>,
      k: TenantKey, i: nat)
    requires |envs| == |dups|
  {
    i < |envs| && envs[i].tenant == k.0 && envs[i].source == k.1 && ComputedAt(w, inner, envs, dups, i).degraded
  }

  /** How many of the first n envelopes are of this source and parsed. */
  ghost function ParsedCount<C, R>(w: World<C, R>, inner: C, envs: seq<Envelope>, dups: seq<Option<string>>,
      k: TenantKey, n: nat): nat
    requires n <= |envs| == |dups|
  {
    if n == 0 then 0
    else ParsedCount(w, inner, envs, dups, k, n - 1) + if Counts(w, inner, envs, dups, k, n - 1) then 1 else 0
  }

  /** The transport and the parser are those of the last of the first n envelopes that is of this source and parsed. */
  ghost predicate OfLast<C, R>(w: World<C, R>, inner: C, envs: seq<Envelope>, dups: seq<Option<string>>,
      k: TenantKey, n: nat, transport: string, parserId: string)
    requires n <= |envs| == |dups|
  {
    exists i: nat :: i < n && Counts(w, inner, envs, dups, k, i)
      && transport == envs[i].transport && parserId == ComputedAt(w, inner, envs, dups, i).parsed.parserId
      && forall j: nat :: i < j < n ==> !Counts(w, inner, envs, dups, k, j)
  }

  ghost predicate MarkedBelow<C, R>(w: World<C, R>, inner: C, envs: seq<Envelope>, dups: seq<Option<string>>,
      k: TenantKey, n: nat)
    requires n <= |envs| == |dups|
  {
    exists i: nat :: i < n && Marks(w, inner, envs, dups, k, i)
  }

  /** What phase 2 has gathered about one source after n envelopes. */
  ghost predicate Gathered<C, R>(w: World<C, R>, st: State<C, R>, envs: seq<Envelope>, dups: seq<Option<string>>,
      r: Parsing<C, R>, k: TenantKey, n: nat)
    requires n <= |envs| == |dups|
  {
    var count := ParsedCount(w, st.inner, envs, dups, k, n);
    var marked := MarkedBelow(w, st.inner, envs, dups, k, n);
    var was := if k in st.sources then st.sources[k] else SourceRow(0, None, None, "unknown");
    && (k in r.incs <==> count > 0)
    && (count > 0 ==>
          r.incs[k].inc == count && OfLast(w, st.inner, envs, dups, k, n, r.incs[k].transport, r.incs[k].parserId))
    && (k in r.state.sources <==> k in st.sources || marked)
    && (k in r.state.sources ==> r.state.sources[k] == if marked then was.(health := "degraded") else was)
  }

  lemma LastStays<C, R>(w: World<C, R>, inner: C, envs: seq<Envelope>, dups: seq<Option<string>>, k: TenantKey, n: nat,
      transport: string, parserId: string)
    requires n < |envs| == |dups|
    ensures Counts(w, inner, envs, dups, k, n) ==>
              OfLast(w, inner, envs, dups, k, n + 1, envs[n].transport,
                  ComputedAt(w, inner, envs, dups, n).parsed.parserId)
    ensures !Counts(w, inner, envs, dups, k, n) && OfLast(w, inner, envs, dups, k, n, transport, parserId) ==>
              OfLast(w, inner, envs, dups, k, n + 1, transport, parserId)
    ensures MarkedBelow(w, inner, envs, dups, k, n + 1)
            <==> MarkedBelow(w, inner, envs, dups, k, n) || Marks(w, inner, envs, dups, k, n)
  {
    hide Marks, ComputedAt;
    if !Counts(w, inner, envs, dups, k, n) && OfLast(w, inner, envs, dups, k, n, transport, parserId) {
      var i: nat :| i < n && Counts(w, inner, envs, dups, k, i)
        && transport == envs[i].transport && parserId == ComputedAt(w, inner, envs, dups, i).parsed.parserId
        && forall j: nat :: i < j < n ==> !Counts(w, inner, envs, dups, k, j);
      assert forall j: nat :: i < j < n + 1 ==> !Counts(w, inner, envs, dups, k, j);
    }
    if Marks(w, inner, envs, dups, k, n) { assert n < n + 1; }
    if MarkedBelow(w, inner, envs, dups, k, n) {
      var i: nat :| i < n && Marks(w, inner, envs, dups, k, i);
      assert i < n + 1;
    }
  }

  /** One step of phase 2: what it does to the parse state, the increments and the source rows. */
  lemma StepGathers<C, R>(w: World<C, R>, r: Parsing<C, R>, env: Envelope, place: Place, dup: Option<string>, f: Faults,
      i: nat)
    ensures var c := w.compute(r.state.inner, env, RecordOf(w, env, Payload(w, env)), dup);
            var r' := ParseStep(w, r, env, place, dup, f, i);
            && r'.state.inner == c.next
            && r'.state.sources == Degraded(r.state.sources, SourceKey(env), c.degraded)
            && r'.incs == (if c.Finished? then Added(r.incs, SourceKey(env), env.transport, c.parsed.parserId)
                           else r.incs)
            && r'.results[..|r.results|] == r.results
            && Carries(w, r'.results[|r.results|], env, c, dup)
  {
    hide Degraded, Added, Indexed;
  }

  lemma {:induction false} GatheredNext<C, R>(w: World<C, R>, st: State<C, R>, envs: seq<Envelope>,
      dups: seq<Option<string>>, r: Parsing<C, R>, place: Place, f: Faults, k: TenantKey, n: nat)
    requires n < |envs| == |dups| && Gathered(w, st, envs, dups, r, k, n)
    requires r.state.inner == InnerAt(w, st.inner, envs, dups, n)
    ensures Gathered(w, st, envs, dups, ParseStep(w, r, envs[n], place, dups[n], f, n), k, n + 1)
    ensures ParseStep(w, r, envs[n], place, dups[n], f, n).state.inner == InnerAt(w, st.inner, envs, dups, n + 1)
  {
    hide ParseStep, OfLast, MarkedBelow, RecordOf, Payload, InnerAt;
    StepGathers(w, r, envs[n], place, dups[n], f, n);
    InnerNext(w, st.inner, envs, dups, n);
    var inc := if k in r.incs then r.incs[k] else Increment(0, "", "");
    LastStays(w, st.inner, envs, dups, k, n, inc.transport, inc.parserId);
    assert SourceKey(envs[n]) == k <==> envs[n].tenant == k.0 && envs[n].source == k.1;
  }

  lemma InnerNext<C, R>(w: World<C, R>, inner: C, envs: seq<Envelope>, dups: seq<Option<string>>, n: nat)
    requires n < |envs| == |dups|
    ensures InnerAt(w, inner, envs, dups, n + 1) == ComputedAt(w, inner, envs, dups, n).next
  {
  }

  lemma {:induction false} ParsingGathers<C, R>(w: World<C, R>, st: State<C, R>, envs: seq<Envelope>, p: Placed<R>,
      f: Faults, k: TenantKey, n: nat)
    requires n <= |envs| == |p.places| == |p.dups|
    ensures var r := ParseAll(w, st, envs, p, f, n);
            Gathered(w, st, envs, p.dups, r, k, n) && r.state.inner == InnerAt(w, st.inner, envs, p.dups, n)
  {
    hide ParseAll, ParseStep, ParsedCount, OfLast;
    ParseAllNone(w, st, envs, p, f);
    if n == 0 {
      NothingGathered(w, st, envs, p.dups, k);
    } else {
      ParsingGathers(w, st, envs, p, f, k, n - 1);
      ParseAllNext(w, st, envs, p, f, n - 1);
      GatheredNext(w, st, envs, p.dups, ParseAll(w, st, envs, p, f, n - 1), p.places[n - 1], f, k, n - 1);
    }
  }

  lemma NothingGathered<C, R>(w: World<C, R>, st: State<C, R>, envs: seq<Envelope>, dups: seq<Option<string>>,
      k: TenantKey)
    requires |envs| == |dups|
    ensures Gathered(w, st, envs, dups, Parsing(st, [], [], map[]), k, 0)
  {
  }

  /** The row of every source after a batch, whatever fails: it counts the source's parsed envelopes and takes the
      transport and the parser of the last one, unless the tenant's upsert fails; drift marks it in any case. */
  lemma {:induction false} SourcesAfterBatch<C, R>(w: World<C, R>, st: State<C, R>, envs: seq<Envelope>, f: Faults,
      k: TenantKey)
    requires AllDecodable(w, envs)
    ensures var sources, dups := Batch(w, st, envs, f).0.sources, DupsOf(w, st, envs, f);
            var count := ParsedCount(w, st.inner, envs, dups, k, |envs|);
            var marked := MarkedBelow(w, st.inner, envs, dups, k, |envs|);
            var was := if k in st.sources then st.sources[k] else SourceRow(0, None, None, "unknown");
            && (k in sources <==> k in st.sources || marked || (count > 0 && !f.upsert(k.0)))
            && (k in sources ==>
                  && sources[k].health == (if marked then "degraded" else was.health)
                  && if count > 0 && !f.upsert(k.0) then
                       && sources[k].count == was.count + count
                       && sources[k].transport.Some? && sources[k].parserId.Some?
                       && OfLast(w, st.inner, envs, dups, k, |envs|, sources[k].transport.value,
                            sources[k].parserId.value)
                     else
                       && sources[k].count == was.count
                       && sources[k].transport == was.transport && sources[k].parserId == was.parserId)
  {
    hide ParseAll, AllOf, ParsedCount, OfLast, MarkedBelow;
    var p, base := AllOf(w, st, envs, f), BaseOf(w, st, envs, f);
    ParsingGathers(w, base, envs, p, f, k, |envs|);
  }

  /** An event says what parsing its envelope came to, and what content it repeats if it parsed. */
  ghost predicate Carries<C, R>(w: World<C, R>, ev: Event, env: Envelope, c: Computed<C>, dup: Option<string>) {
    match c
    case Finished(_, _, parsed) => ev.parsed == parsed && ev.duplicateOf == dup
    case Raised(_, _, error) => ev.parsed == w.emergency(Payload(w, env), error) && ev.duplicateOf == None
  }

  lemma {:induction false} ResultsAreComputed<C, R>(w: World<C, R>, st: State<C, R>, envs: seq<Envelope>, f: Faults,
      n: nat, i: nat)
    requires i < n <= |envs|
    ensures var dups := DupsOf(w, st, envs, f);
            Carries(w, ParseAll(w, BaseOf(w, st, envs, f), envs, AllOf(w, st, envs, f), f, n).results[i], envs[i],
                ComputedAt(w, st.inner, envs, dups, i), dups[i])
    decreases n
  {
    hide ParseAll, ParseStep, AllOf, ComputedAt, Carries;
    var p, base := AllOf(w, st, envs, f), BaseOf(w, st, envs, f);
    var r := ParseAll(w, base, envs, p, f, n - 1);
    ParseAllNext(w, base, envs, p, f, n - 1);
    StepGathers(w, r, envs[n - 1], p.places[n - 1], p.dups[n - 1], f, n - 1);
    if i < n - 1 {
      ResultsAreComputed(w, st, envs, f, n - 1, i);
      var r' := ParseAll(w, base, envs, p, f, n);
      assert r'.results[i] == r'.results[..n - 1][i];
    } else {
      ComputedIsParsed(w, st, envs, f, i);
    }
  }

  /** Every event of a batch carries what parsing its envelope came to, and no envelope's parsing sees anything of
      the others but the parse state they hand on. */
  lemma {:induction false} BatchEventsAreComputed<C, R>(w: World<C, R>, st: State<C, R>, envs: seq<Envelope>, f: Faults)
    requires AllDecodable(w, envs)
    ensures var (st', results) := Batch(w, st, envs, f);
            var dups := DupsOf(w, st, envs, f);
            && results.Some? && |results.value| == |envs|
            && (forall i :: 0 <= i < |envs| ==>
                  Carries(w, results.value[i], envs[i], ComputedAt(w, st.inner, envs, dups, i), dups[i]))
            && st'.inner == InnerAt(w, st.inner, envs, dups, |envs|)
  {
    hide ParseAll, AllOf, ComputedAt, Carries;
    forall i | 0 <= i < |envs|
      ensures var dups := DupsOf(w, st, envs, f);
              Carries(w, ParseAll(w, BaseOf(w, st, envs, f), envs, AllOf(w, st, envs, f), f, |envs|).results[i],
                  envs[i], ComputedAt(w, st.inner, envs, dups, i), dups[i])
    {
      ResultsAreComputed(w, st, envs, f, |envs|, i);
    }
    ParsingGathers(w, BaseOf(w, st, envs, f), envs, AllOf(w, st, envs, f), f, ("", ""), |envs|);
  }

  lemma ComputedIsParsed<C, R>(w: World<C, R>, st: State<C, R>, envs: seq<Envelope>, f: Faults, i: nat)
    requires i < |envs|
    ensures var p := AllOf(w, st, envs, f);
            var r := ParseAll(w, BaseOf(w, st, envs, f), envs, p, f, i);
            ComputedAt(w, st.inner, envs, DupsOf(w, st, envs, f), i)
            == w.compute(r.state.inner, envs[i], RecordOf(w, envs[i], Payload(w, envs[i])), p.dups[i])
    ensures Parses(w, st, envs, f, i) <==> ComputedAt(w, st.inner, envs, DupsOf(w, st, envs, f), i).Finished?
  {
    hide ParseAll, AllOf;
    ParsingGathers(w, BaseOf(w, st, envs, f), envs, AllOf(w, st, envs, f), f, ("", ""), i);
  }

  /** One envelope, whatever raises: its source counts one more exactly if `_process_inner` came through, and its
      event then carries what parsing came to; else the event is the emergency one and only the mark may be new. */
  lemma {:induction false} OneEnvelopeCounts<C, R>(w: World<C, R>, st: State<C, R>, env: Envelope, b: Broken,
      error: string, f: Faults)
    requires Decodable(w, env)
    ensures var (st', ev) := Rescued(w, st, env, b, error, f);
            var k, content := (env.tenant, env.source), (env.tenant, w.sha256(Payload(w, env)));
            var dup := if content in st.raw then Some(content.1) else None;
            var c := w.compute(st.inner, env, RecordOf(w, env, Payload(w, env)), dup);
            var reached := !b.LookupBroken? && (content in st.raw || !(b.AppendBroken? || b.IndexBroken?));
            var through := reached && c.Finished? && !b.WriteBroken? && !b.UpsertBroken?;
            var marked := reached && c.degraded;
            var was := if k in st.sources then st.sources[k] else SourceRow(0, None, None, "unknown");
            var health := if marked then "degraded" else was.health;
            && st'.sources - {k} == st.sources - {k}
            && (k in st'.sources <==> k in st.sources || marked || through)
            && (k in st'.sources && through ==>
                  st'.sources[k] == SourceRow(was.count + 1, Some(env.transport), Some(c.parsed.parserId), health))
            && (k in st'.sources && !through ==> st'.sources[k] == was.(health := health))
            && ev.Some?
            && ev.value.parsed == (if through then c.parsed else w.emergency(Payload(w, env), error))
            && st'.inner == if reached then c.next else st.inner
  {
    hide Indexed;
  }

  function ErrorOf<C>(c: Computed<C>): string {
    match c
    case Finished(_, _, _) => ""
    case Raised(_, _, error) => error
  }

  /** What parsing this envelope in this state comes to. */
  function ComputedFor<C, R>(w: World<C, R>, inner: C, env: Envelope, isDup: bool): Computed<C> {
    var rec := RecordOf(w, env, Payload(w, env));
    w.compute(inner, env, rec, if isDup then Some(rec.rawId) else None)
  }

  /** `process` with working statements: only parsing may raise. */
  function Saved<C, R>(w: World<C, R>, st: State<C, R>, env: Envelope): (State<C, R>, Option<Event>) {
    Rescued(w, st, env, NothingBroken, ErrorOf(ComputedFor(w, st.inner, env, ContentOf(w, env) in st.raw)), NO_FAULTS)
  }

  function EachSaved<C, R>(w: World<C, R>, st: State<C, R>, envs: seq<Envelope>): (State<C, R>, seq<Option<Event>>) {
    if envs == [] then (st, [])
    else
      var (st', evs) := EachSaved(w, st, envs[..|envs| - 1]);
      var (st'', ev) := Saved(w, st', envs[|envs| - 1]);
      (st'', evs + [ev])
  }

  /** The event an envelope ends in, but for its place. */
  function Ended<C, R>(w: World<C, R>, env: Envelope, c: Computed<C>, isDup: bool): Event {
    var payload := Payload(w, env);
    var rec := RecordOf(w, env, payload);
    match c
    case Finished(_, _, parsed) => EventOf(env, rec, Unrecoverable(0), if isDup then Some(rec.rawId) else None, parsed)
    case Raised(_, _, error) => EventOf(env, rec, Unrecoverable(0), None, w.emergency(payload, error))
  }

  ghost predicate SameButPlace(a: Event, b: Event) { a.(place := Unrecoverable(0)) == b.(place := Unrecoverable(0)) }

  /** The same contents are indexed, with rows that differ in the place at most. */
  ghost predicate SameRows(a: RawIndex, b: RawIndex) {
    a.Keys == b.Keys && forall k :: k in a ==> a[k].(place := Unrecoverable(0)) == b[k].(place := Unrecoverable(0))
  }

  function CountedIf<C>(sources: Sources, env: Envelope, c: Computed<C>): Sources {
    var marked := Degraded(sources, SourceKey(env), c.degraded);
    match c
    case Finished(_, _, parsed) => Upserted(marked, SourceKey(env), Increment(1, env.transport, parsed.parserId))
    case Raised(_, _, _) => marked
  }

  /** What `process` does for one envelope. */
  lemma SavedStep<C, R>(w: World<C, R>, st: State<C, R>, env: Envelope)
    requires Decodable(w, env)
    ensures var isDup := ContentOf(w, env) in st.raw;
            var c := ComputedFor(w, st.inner, env, isDup);
            var (st', ev) := Saved(w, st, env);
            && ev.Some? && SameButPlace(ev.value, Ended(w, env, c, isDup)) && st'.events == st.events + [ev.value]
            && st'.inner == c.next && st'.sources == CountedIf(st.sources, env, c)
            && (if isDup then st'.raw == st.raw
                else exists place :: st'.raw == Indexed(st.raw, RecordOf(w, env, Payload(w, env)), place))
  {
    hide Degraded, Upserted;
    var rec := RecordOf(w, env, Payload(w, env));
    var l := Locate(w, st.raw, st.files, rec);
    assert Saved(w, st, env).0.raw == l.raw;
    assert RawKey(rec) !in st.raw ==> l.raw == Indexed(st.raw, rec, l.place);
  }

  /** What phase 2 does for one envelope whose content is indexed. */
  lemma {:induction false} ParsedStep<C, R>(w: World<C, R>, r: Parsing<C, R>, env: Envelope, place: Place, isDup: bool)
    requires ContentOf(w, env) in r.state.raw
    ensures var c := ComputedFor(w, r.state.inner, env, isDup);
            var dup := if isDup then Some(w.sha256(Payload(w, env))) else None;
            var r' := ParseStep(w, r, env, place, dup, NO_FAULTS, |r.results|);
            && |r'.results| == |r.results| + 1 && r'.results[..|r.results|] == r.results
            && SameButPlace(r'.results[|r.results|], Ended(w, env, c, isDup))
            && r'.state.inner == c.next && r'.state.raw == r.state.raw
            && UpsertedAll(r'.state.sources, r'.incs, NO_FAULTS)
                == CountedIf(UpsertedAll(r.state.sources, r.incs, NO_FAULTS), env, c)
  {
    hide Degraded, Upserted, UpsertedAll, Added;
    var c := ComputedFor(w, r.state.inner, env, isDup);
    if c.Finished? {
      CountsCommute(r.state.sources, r.incs, SourceKey(env), c.degraded, env.transport, c.parsed.parserId);
    } else {
      MarksCommute(r.state.sources, r.incs, SourceKey(env), c.degraded);
    }
  }

  lemma MarksCommute(sources: Sources, incs: map<TenantKey, Increment>, key: TenantKey, degraded: bool)
    ensures UpsertedAll(Degraded(sources, key, degraded), incs, NO_FAULTS)
            == Degraded(UpsertedAll(sources, incs, NO_FAULTS), key, degraded)
  {
    hide UpsertedAll;
    var left := UpsertedAll(Degraded(sources, key, degraded), incs, NO_FAULTS);
    var right := Degraded(UpsertedAll(sources, incs, NO_FAULTS), key, degraded);
    forall k
      ensures (k in left <==> k in right) && (k in left ==> left[k] == right[k])
    {
      UpsertedAllAt(Degraded(sources, key, degraded), incs, k);
      UpsertedAllAt(sources, incs, k);
    }
    assert left.Keys == right.Keys;
  }

  lemma {:induction false} DupOf<C, R>(w: World<C, R>, files: R, known: map<TenantKey, Place>, recs: seq<Record>,
      f: Faults, n: nat)
    requires n < |recs|
    ensures PlaceAll(w, files, known, recs, f, |recs|).dups[n]
            == if RawKey(recs[n]) in PlaceAll(w, files, known, recs, f, n).known then Some(recs[n].rawId) else None
  {
    hide PlaceAll;
    PlacesStable(w, files, known, recs, f, n + 1, |recs|);
    PlaceAllNext(w, files, known, recs, f, n);
    var p := PlaceAll(w, files, known, recs, f, n);
    assert PlaceAll(w, files, known, recs, f, n + 1).dups[n]
        == PlaceAll(w, files, known, recs, f, |recs|).dups[..n + 1][n];
  }

  /** The dedup loop and `process` know the same contents of the batch. */
  ghost predicate KnowsSame(known: map<TenantKey, Place>, raw: RawIndex, recs: seq<Record>) {
    forall i :: 0 <= i < |recs| ==> (RawKey(recs[i]) in known <==> RawKey(recs[i]) in raw)
  }

  lemma {:induction false} ContentsAgree<C, R>(w: World<C, R>, st: State<C, R>, envs: seq<Envelope>, n: nat)
    requires n <= |envs| && forall i :: 0 <= i < |envs| ==> Decodable(w, envs[i])
    ensures var recs, raw := Records(w, envs), EachSaved(w, st, envs[..n]).0.raw;
            var p := PlaceAll(w, st.files, Known(st.raw, recs, NO_FAULTS), recs, NO_FAULTS, n);
            KnowsSame(p.known, raw, recs) && SameRows(IndexedAll(st.raw, p.news), raw)
  {
    hide PlaceAll, PlaceStep, EachSaved, Known, Saved, KnowsSame, SameRows, IndexedAll, Decodable;
    var recs := Records(w, envs);
    PlaceAllNone(w, st.files, Known(st.raw, recs, NO_FAULTS), recs, NO_FAULTS);
    if n == 0 {
      NothingSaved(w, st, envs);
      NothingIndexed(st.raw);
      KnownIsSame(st.raw, recs);
    } else {
      ContentsAgree(w, st, envs, n - 1);
      OneMoreSaved(w, st, envs, n - 1);
      PlaceAllNext(w, st.files, Known(st.raw, recs, NO_FAULTS), recs, NO_FAULTS, n - 1);
      var s := EachSaved(w, st, envs[..n - 1]).0;
      var p := PlaceAll(w, st.files, Known(st.raw, recs, NO_FAULTS), recs, NO_FAULTS, n - 1);
      assert ContentOf(w, envs[n - 1]) == RawKey(recs[n - 1]);
      SavedStep(w, s, envs[n - 1]);
      PlaceStepContents(w, p, s.raw, Saved(w, s, envs[n - 1]).0.raw, st.raw, recs, n - 1);
    }
  }

  lemma PlaceStepContents<C, R>(w: World<C, R>, p: Placed<R>, raw: RawIndex, raw': RawIndex, raw0: RawIndex,
      recs: seq<Record>, n: nat)
    requires n < |recs| && KnowsSame(p.known, raw, recs) && SameRows(IndexedAll(raw0, p.news), raw)
    requires if RawKey(recs[n]) in raw then raw' == raw else exists place :: raw' == Indexed(raw, recs[n], place)
    ensures var p' := PlaceStep(w, p, recs[n], false);
            KnowsSame(p'.known, raw', recs) && SameRows(IndexedAll(raw0, p'.news), raw')
  {
    hide IndexedAll;
    if RawKey(recs[n]) !in raw {
      var (_, loc) := w.append(p.files, recs[n]);
      IndexedAllSnoc(raw0, p.news, (recs[n], At(loc)));
    }
  }

  lemma {:induction false} PlacedIsKnown<C, R>(w: World<C, R>, files: R, known: map<TenantKey, Place>,
      recs: seq<Record>, f: Faults, n: nat, j: nat)
    requires j < n <= |recs|
    ensures RawKey(recs[j]) in PlaceAll(w, files, known, recs, f, n).known
    decreases n
  {
    if j < n - 1 { PlacedIsKnown(w, files, known, recs, f, n - 1, j); }
  }

  lemma NothingSaved<C, R>(w: World<C, R>, st: State<C, R>, envs: seq<Envelope>)
    ensures EachSaved(w, st, envs[..0]) == (st, [])
  {
  }

  lemma KnownIsSame(raw: RawIndex, recs: seq<Record>)
    ensures KnowsSame(Known(raw, recs, NO_FAULTS), raw, recs) && SameRows(raw, raw)
  {
  }

  lemma OneMoreSaved<C, R>(w: World<C, R>, st: State<C, R>, envs: seq<Envelope>, n: nat)
    requires n < |envs|
    ensures var (s, evs) := EachSaved(w, st, envs[..n]);
            var (s', ev) := Saved(w, s, envs[n]);
            EachSaved(w, st, envs[..n + 1]) == (s', evs + [ev])
  {
    TakeSnoc(envs, n);
  }

  /** Parsing a prefix of the batch and `process` over the same prefix, but for places and the order of events. */
  ghost predicate Alike<C, R>(r: Parsing<C, R>, raw: RawIndex, st: State<C, R>, s: State<C, R>,
      evs: seq<Option<Event>>) {
    && r.state.inner == s.inner && r.state.raw == raw
    && |evs| == |r.results| && (forall i :: 0 <= i < |evs| ==> evs[i].Some? && SameButPlace(evs[i].value, r.results[i]))
    && s.events == st.events + Values(evs)
    && s.sources == UpsertedAll(r.state.sources, r.incs, NO_FAULTS)
  }

  function Values(evs: seq<Option<Event>>): seq<Event>
    requires forall i :: 0 <= i < |evs| ==> evs[i].Some?
  {
    seq(|evs|, i requires 0 <= i < |evs| => evs[i].value)
  }

  lemma {:induction false} AlikeStep<C,
      R>(w: World<C, R>, r: Parsing<C, R>, raw: RawIndex, st: State<C, R>, s: State<C, R>,
      evs: seq<Option<Event>>,
      env: Envelope, place: Place)
    requires Alike(r, raw, st, s, evs) && Decodable(w, env) && ContentOf(w, env) in raw
    ensures var dup := if ContentOf(w, env) in s.raw then Some(w.sha256(Payload(w, env))) else None;
            var (s', ev) := Saved(w, s, env);
            Alike(ParseStep(w, r, env, place, dup, NO_FAULTS, |r.results|), raw, st, s', evs + [ev])
  {
    hide ParseStep, Saved, ComputedFor, Ended, CountedIf, UpsertedAll, Decodable;
    SavedStep(w, s, env);
    ParsedStep(w, r, env, place, ContentOf(w, env) in s.raw);
    var ev := Saved(w, s, env).1;
    assert Values(evs + [ev]) == Values(evs) + [ev.value];
    var dup := if ContentOf(w, env) in s.raw then Some(w.sha256(Payload(w, env))) else None;
    var r' := ParseStep(w, r, env, place, dup, NO_FAULTS, |r.results|);
    assert forall i :: 0 <= i < |r.results| ==> r'.results[i] == r'.results[..|r.results|][i];
  }

  lemma {:induction false} SavedAgrees<C, R>(w: World<C, R>, st: State<C, R>, envs: seq<Envelope>, n: nat)
    requires n <= |envs| && forall i :: 0 <= i < |envs| ==> Decodable(w, envs[i])
    ensures var base := BaseOf(w, st, envs, NO_FAULTS);
            var (s, evs) := EachSaved(w, st, envs[..n]);
            Alike(ParseAll(w, base, envs, AllOf(w, st, envs, NO_FAULTS), NO_FAULTS, n), base.raw, st, s, evs)
  {
    hide PlaceAll, ParseAll, EachSaved, ParseStep, Alike, Saved, Known, KnowsSame, SameRows, IndexedAll, Decodable;
    var p, base, recs := AllOf(w, st, envs, NO_FAULTS), BaseOf(w, st, envs, NO_FAULTS), Records(w, envs);
    ParseAllNone(w, base, envs, p, NO_FAULTS);
    if n == 0 {
      NothingSaved(w, st, envs);
      NothingAlike(base, st);
    } else {
      SavedAgrees(w, st, envs, n - 1);
      OneMoreSaved(w, st, envs, n - 1);
      ParseAllNext(w, base, envs, p, NO_FAULTS, n - 1);
      var (s, evs) := EachSaved(w, st, envs[..n - 1]);
      ContentsAgree(w, st, envs, n - 1);
      DupOf(w, st.files, Known(st.raw, recs, NO_FAULTS), recs, NO_FAULTS, n - 1);
      ContentIsIndexed(w, st, envs, n - 1);
      KnowsAt(PlaceAll(w, st.files, Known(st.raw, recs, NO_FAULTS), recs, NO_FAULTS, n - 1).known, s.raw, recs, n - 1);
      AlikeStep(w, ParseAll(w, base, envs, p, NO_FAULTS, n - 1), base.raw, st, s, evs, envs[n - 1], p.places[n - 1]);
    }
  }

  lemma KnowsAt(known: map<TenantKey, Place>, raw: RawIndex, recs: seq<Record>, n: nat)
    requires n < |recs| && KnowsSame(known, raw, recs)
    ensures RawKey(recs[n]) in known <==> RawKey(recs[n]) in raw
  {
  }

  lemma NothingAlike<C, R>(base: State<C, R>, st: State<C, R>)
    requires base.inner == st.inner && base.sources == st.sources
    ensures Alike(Parsing(base, [], [], map[]), base.raw, st, st, [])
  {
    assert UpsertedAll(base.sources, map[], NO_FAULTS) == base.sources;
    assert st.events + Values([]) == st.events;
  }

  /** Every content of the batch is indexed before parsing starts. */
  lemma ContentIsIndexed<C, R>(w: World<C, R>, st: State<C, R>, envs: seq<Envelope>, n: nat)
    requires n < |envs| && forall i :: 0 <= i < |envs| ==> Decodable(w, envs[i])
    ensures ContentOf(w, envs[n]) in BaseOf(w, st, envs, NO_FAULTS).raw
  {
    hide PlaceAll, EachSaved, Known, IndexedAll, Decodable;
    var recs := Records(w, envs);
    ContentsAgree(w, st, envs, |envs|);
    assert RawKey(recs[n]) == ContentOf(w, envs[n]);
    PlacedIsKnown(w, st.files, Known(st.raw, recs, NO_FAULTS), recs, NO_FAULTS, |recs|, n);
  }

  /** With working statements, and whichever envelopes raise in parsing, a batch of base64 payloads leaves the contents,
      source rows and parser state of `process` one envelope at a time, and returns and stores the same events: only
      places differ, as emergencies append again, and stored emergencies come first. */
  lemma {:induction false} BatchIsProcess<C, R>(w: World<C, R>, st: State<C, R>, envs: seq<Envelope>)
    requires forall i :: 0 <= i < |envs| ==> Decodable(w, envs[i])
    ensures var (s, evs) := EachSaved(w, st, envs);
            var (s', results) := Batch(w, st, envs, NO_FAULTS);
            && SameRows(s'.raw, s.raw) && s'.sources == s.sources && s'.inner == s.inner
            && results.Some? && |evs| == |results.value| == |envs|
            && (forall i :: 0 <= i < |envs| ==> evs[i].Some? && SameButPlace(evs[i].value, results.value[i]))
            && s.events == st.events + Values(evs)
            && multiset(s'.events) == multiset(st.events) + multiset(results.value)
  {
    hide PlaceAll, ParseAll, EachSaved, UpsertedAll, SameRows, Known, Decodable, SameButPlace, IndexedAll;
    assert envs[..|envs|] == envs;
    ContentsAgree(w, st, envs, |envs|);
    SavedAgrees(w, st, envs, |envs|);
    BatchStoresItsResults(w, st, envs, NO_FAULTS);
  }

  // ------------------------------------------------------------ when a content's place is lost

  ghost predicate FirstAt(recs: seq<Record>, k: TenantKey, i: nat) {
    i < |recs| && RawKey(recs[i]) == k && forall j :: 0 <= j < i ==> RawKey(recs[j]) != k
  }

  /** The raw append fails at the first envelope of the batch that has this content. */
  ghost predicate FirstAppendFails<C, R>(w: World<C, R>, envs: seq<Envelope>, f: Faults, k: TenantKey) {
    exists i: nat :: FirstAt(Records(w, envs), k, i) && f.append(i)
  }

  lemma {:induction false} FirstExists(recs: seq<Record>, k: TenantKey, n: nat) returns (i: nat)
    requires n < |recs| && RawKey(recs[n]) == k
    ensures i <= n && FirstAt(recs, k, i)
  {
    if j: nat :| j < n && RawKey(recs[j]) == k {
      i := FirstExists(recs, k, j);
    } else {
      i := n;
    }
  }

  /** What one turn of the dedup loop means for one content. */
  lemma PlaceStepAt<C, R>(w: World<C, R>, p: Placed<R>, rec: Record, failed: bool, k: TenantKey)
    ensures var p' := PlaceStep(w, p, rec, failed);
            && (k in p'.known <==> k in p.known || RawKey(rec) == k)
            && (k in p.known ==> p'.known[k] == p.known[k])
            && (k !in p.known && RawKey(rec) == k ==>
                  (p'.known[k].Unrecoverable? <==> failed) && p'.news == p.news + [(rec, p'.known[k])])
            && (k in p.known || RawKey(rec) != k ==>
                  p'.news == p.news || (RawKey(rec) != k && p'.news == p.news + [(rec, p'.places[|p.places|])]))
            && p'.places[..|p.places|] == p.places
            && (RawKey(rec) == k ==> p'.places[|p.places|] == p'.known[k])
  {
  }

  ghost predicate SeenIn(recs: seq<Record>, k: TenantKey, n: nat)
    requires n <= |recs|
  {
    exists j :: 0 <= j < n && RawKey(recs[j]) == k
  }

  lemma SeenNext(recs: seq<Record>, k: TenantKey, n: nat)
    requires n < |recs|
    ensures SeenIn(recs, k, n + 1) <==> SeenIn(recs, k, n) || RawKey(recs[n]) == k
    ensures FirstAt(recs, k, n) <==> !SeenIn(recs, k, n) && RawKey(recs[n]) == k
  {
  }

  /** A content not known before becomes known with its first envelope, and with the outcome of that envelope's
      append. */
  lemma {:induction false} KnownOfContent<C,
      R>(w: World<C, R>, files: R, known: map<TenantKey, Place>, recs: seq<Record>,
      f: Faults, n: nat, k: TenantKey)
    requires n <= |recs| && k !in known
    ensures var p := PlaceAll(w, files, known, recs, f, n);
            && (k in p.known <==> SeenIn(recs, k, n))
            && (forall i: nat :: FirstAt(recs, k, i) && i < n ==>
                  k in p.known && (p.known[k].Unrecoverable? <==> f.append(i)))
  {
    hide PlaceAll, PlaceStep, SeenIn, FirstAt;
    PlaceAllNone(w, files, known, recs, f);
    if n == 0 {
      NothingSeen(recs, k);
    } else {
      KnownOfContent(w, files, known, recs, f, n - 1, k);
      PlaceAllNext(w, files, known, recs, f, n - 1);
      PlaceStepAt(w, PlaceAll(w, files, known, recs, f, n - 1), recs[n - 1], f.append(n - 1), k);
      SeenNext(recs, k, n - 1);
      forall i: nat | FirstAt(recs, k, i) && i < n - 1 ensures SeenIn(recs, k, n - 1) { SeenFrom(recs, k, i, n - 1); }
    }
  }

  lemma {:induction false} KnownIffSeen<C, R>(w: World<C, R>, files: R, known: map<TenantKey, Place>,
      recs: seq<Record>, f: Faults, n: nat, k: TenantKey)
    requires n <= |recs|
    ensures var p := PlaceAll(w, files, known, recs, f, n);
            && (k in p.known <==> k in known || SeenIn(recs, k, n))
            && (k in known ==> p.known[k] == known[k])
  {
    hide PlaceAll, PlaceStep, SeenIn, FirstAt;
    PlaceAllNone(w, files, known, recs, f);
    if n == 0 {
      NothingSeen(recs, k);
    } else {
      KnownIffSeen(w, files, known, recs, f, n - 1, k);
      PlaceAllNext(w, files, known, recs, f, n - 1);
      PlaceStepAt(w, PlaceAll(w, files, known, recs, f, n - 1), recs[n - 1], f.append(n - 1), k);
      SeenNext(recs, k, n - 1);
    }
  }

  /** Phase 1 for one envelope of a batch: its mark, and the place that all envelopes of its content share. */
  lemma {:induction false} PlacedInBatch<C, R>(w: World<C, R>, files: R, known: map<TenantKey, Place>,
      recs: seq<Record>, f: Faults, n: nat, i: nat)
    requires i < n <= |recs|
    ensures var p, k := PlaceAll(w, files, known, recs, f, n), RawKey(recs[i]);
            && p.dups[i] == (if k in known || SeenIn(recs, k, i) then Some(recs[i].rawId) else None)
            && k in p.known && p.places[i] == p.known[k]
            && (p.dups[i].None? ==> (p.places[i].Unrecoverable? <==> f.append(i)))
    decreases n
  {
    hide PlaceAll, PlaceStep, SeenIn;
    var before, k := PlaceAll(w, files, known, recs, f, n - 1), RawKey(recs[i]);
    PlaceAllNext(w, files, known, recs, f, n - 1);
    PlaceStepAt(w, before, recs[n - 1], f.append(n - 1), k);
    PlaceStepMarks(w, before, recs[n - 1], f.append(n - 1));
    if i < n - 1 {
      PlacedInBatch(w, files, known, recs, f, n - 1, i);
      var p := PlaceAll(w, files, known, recs, f, n);
      assert p.dups[i] == p.dups[..n - 1][i] && p.places[i] == p.places[..n - 1][i];
    } else {
      KnownIffSeen(w, files, known, recs, f, i, k);
    }
  }

  lemma PlaceStepMarks<C, R>(w: World<C, R>, p: Placed<R>, rec: Record, failed: bool)
    ensures var p' := PlaceStep(w, p, rec, failed);
            && p'.dups[..|p.dups|] == p.dups
            && p'.dups[|p.dups|] == if RawKey(rec) in p.known then Some(rec.rawId) else None
  {
  }

  /** Whatever fails, an envelope of a batch is marked a duplicate exactly if its content is indexed and the lookup for
      its tenant worked, or if it came with an earlier envelope of the batch; all events of a content get one place, the
      indexed one if that is known. */
  lemma {:induction false} BatchDuplicateIff<C, R>(w: World<C, R>, st: State<C, R>, envs: seq<Envelope>, f: Faults,
      i: nat)
    requires i < |envs|
    ensures var p, k := AllOf(w, st, envs, f), ContentOf(w, envs[i]);
            var known := k in st.raw && !f.lookup(envs[i].tenant);
            && p.dups[i] == (if known || exists j :: 0 <= j < i && ContentOf(w, envs[j]) == k
                             then Some(k.1) else None)
            && (known ==> p.places[i] == st.raw[k].place)
            && (p.dups[i].None? ==> (p.places[i].Unrecoverable? <==> f.append(i)))
            && forall j :: 0 <= j < |envs| && ContentOf(w, envs[j]) == k ==> p.places[j] == p.places[i]
  {
    hide PlaceAll;
    var recs, k := Records(w, envs), ContentOf(w, envs[i]);
    var known := Known(st.raw, recs, f);
    assert RawKey(recs[i]) in KeysOf(recs) && k.0 in TenantsOf(KeysOf(recs));
    KnownIffSeen(w, st.files, known, recs, f, |recs|, k);
    PlacedInBatch(w, st.files, known, recs, f, |recs|, i);
    forall j | 0 <= j < |envs| && ContentOf(w, envs[j]) == k
      ensures AllOf(w, st, envs, f).places[j] == AllOf(w, st, envs, f).places[i]
    {
      PlacedInBatch(w, st.files, known, recs, f, |recs|, j);
    }
    assert forall j :: 0 <= j < i ==> ContentOf(w, envs[j]) == RawKey(recs[j]);
  }

  lemma NothingSeen(recs: seq<Record>, k: TenantKey)
    ensures !SeenIn(recs, k, 0)
  {
  }

  lemma SeenFrom(recs: seq<Record>, k: TenantKey, i: nat, n: nat)
    requires i < n <= |recs| && FirstAt(recs, k, i)
    ensures SeenIn(recs, k, n)
  {
  }

  /** Its row, and every place given out for it, are the known one. */
  lemma {:induction false} PlacesOfContent<C, R>(w: World<C, R>, files: R, known: map<TenantKey, Place>,
      raw: RawIndex, recs: seq<Record>, f: Faults, n: nat, k: TenantKey)
    requires n <= |recs| && k !in known && k !in raw
    ensures var p := PlaceAll(w, files, known, recs, f, n);
            var raw' := IndexedAll(raw, p.news);
            && (k in raw' <==> k in p.known)
            && (k in raw' ==> raw'[k].place == p.known[k])
            && (forall j :: 0 <= j < n && RawKey(recs[j]) == k ==> k in p.known && p.places[j] == p.known[k])
  {
    hide PlaceAll, PlaceStep, IndexedAll;
    PlaceAllNone(w, files, known, recs, f);
    if n == 0 {
      assert IndexedAll(raw, []) == raw by { NothingIndexed(raw); }
    } else {
      PlacesOfContent(w, files, known, raw, recs, f, n - 1, k);
      PlaceAllNext(w, files, known, recs, f, n - 1);
      var p, p' := PlaceAll(w, files, known, recs, f, n - 1), PlaceAll(w, files, known, recs, f, n);
      PlaceStepAt(w, p, recs[n - 1], f.append(n - 1), k);
      IndexedAllSnoc(raw, p.news, (recs[n - 1], p'.places[n - 1]));
      forall j | 0 <= j < n && RawKey(recs[j]) == k
        ensures k in p'.known && p'.places[j] == p'.known[k]
      {
        if j < n - 1 { assert p'.places[j] == p'.places[..n - 1][j]; }
      }
    }
  }

  lemma NothingIndexed(raw: RawIndex)
    ensures IndexedAll(raw, []) == raw
  {
  }

  /** Parsing adds rows only by way of emergencies, which know the place, and changes none. */
  lemma {:induction false} ParsingKeepsRows<C, R>(w: World<C, R>, st: State<C, R>, envs: seq<Envelope>, p: Placed<R>,
      f: Faults, n: nat, k: TenantKey)
    requires n <= |envs| == |p.places| == |p.dups|
    ensures var raw := ParseAll(w, st, envs, p, f, n).state.raw;
            && (k in st.raw ==> k in raw && raw[k] == st.raw[k])
            && (k !in st.raw && k in raw ==> raw[k].place.At?)
  {
    hide ParseAll, ParseStep;
    ParseAllNone(w, st, envs, p, f);
    if n > 0 {
      ParsingKeepsRows(w, st, envs, p, f, n - 1, k);
      ParseAllNext(w, st, envs, p, f, n - 1);
      ParseStepRows(w, ParseAll(w, st, envs, p, f, n - 1), envs[n - 1], p.places[n - 1], p.dups[n - 1], f, n - 1, k);
    }
  }

  lemma ParseStepRows<C, R>(w: World<C, R>, r: Parsing<C, R>, env: Envelope, place: Place, dup: Option<string>,
      f: Faults, i: nat, k: TenantKey)
    ensures var raw := ParseStep(w, r, env, place, dup, f, i).state.raw;
            && (k in r.state.raw ==> k in raw && raw[k] == r.state.raw[k])
            && (k !in r.state.raw && k in raw ==> raw[k].place.At?)
  {
    hide Degraded;
  }

  /** A failed raw append is never made good, not even when the emergency path stores the payload after all. After a
      batch the row of a content that was new to it has no place exactly if the bulk index statement worked and the
      append failed at the content's first envelope. In a batch with a payload that is not base64 nothing happens. */
  lemma LostIffFirstAppendFails<C, R>(w: World<C, R>, st: State<C, R>, envs: seq<Envelope>, f: Faults, k: TenantKey)
    requires k !in st.raw
    ensures var raw := Batch(w, st, envs, f).0.raw;
            (k in raw && raw[k].place.Unrecoverable?)
            <==> AllDecodable(w, envs) && !f.indexBulk && FirstAppendFails(w, envs, f, k)
  {
    hide PlaceAll, ParseAll, Known, FirstAt, AllDecodable;
    var recs, p := Records(w, envs), AllOf(w, st, envs, f);
    KnownIsIndexed(st.raw, recs, f);
    PlacesOfContent(w, st.files, Known(st.raw, recs, f), st.raw, recs, f, |recs|, k);
    ParsingKeepsRows(w, BaseOf(w, st, envs, f), envs, p, f, |envs|, k);
    KnownOfContent(w, st.files, Known(st.raw, recs, f), recs, f, |recs|, k);
    if j :| 0 <= j < |recs| && RawKey(recs[j]) == k {
      var i := FirstExists(recs, k, j);
      FirstIsUnique(recs, k, i);
    } else {
      NoFirst(recs, k);
    }
  }

  lemma FirstIsUnique(recs: seq<Record>, k: TenantKey, i: nat)
    requires FirstAt(recs, k, i)
    ensures forall j: nat :: FirstAt(recs, k, j) ==> j == i
  {
    forall j: nat | FirstAt(recs, k, j) ensures j == i { assert !(i < j) && !(j < i); }
  }

  lemma NoFirst(recs: seq<Record>, k: TenantKey)
    requires forall j :: 0 <= j < |recs| ==> RawKey(recs[j]) != k
    ensures forall i: nat :: !FirstAt(recs, k, i)
  {
  }

  /** The next arrival of the content is then, and only then, an event without a place: it is taken for a duplicate of
      nothing, and nothing is appended for it although the raw store works again. */
  lemma LaterDuplicateIsLostIff<C, R>(w: World<C, R>, st: State<C, R>, envs: seq<Envelope>, f: Faults, again: Envelope)
    requires ContentOf(w, again) !in st.raw
    ensures var st', k := Batch(w, st, envs, f).0, ContentOf(w, again);
            var o := Processed(w, st', again);
            && (o.event.Some? ==>
                  (o.event.value.place.Unrecoverable?
                   <==> AllDecodable(w, envs) && !f.indexBulk && FirstAppendFails(w, envs, f, k)))
            && (o.event.Some? && o.event.value.place.Unrecoverable? ==>
                  o.event.value.duplicateOf.Some? && o.state.files == st'.files && o.state.raw == st'.raw)
  {
    hide Batch, FirstAppendFails, AllDecodable, Degraded, Upserted;
    LostIffFirstAppendFails(w, st, envs, f, ContentOf(w, again));
  }

  /** Within the batch, all events of such a content that come from parsing lack a place exactly if its first append
      failed, whether or not the index statement works. */
  lemma {:induction false} BatchEventIsLostIff<C,
      R>(w: World<C, R>, st: State<C, R>, envs: seq<Envelope>, f: Faults, n: nat)
    requires n < |envs| && ContentOf(w, envs[n]) !in st.raw && Parses(w, st, envs, f, n)
    ensures var results := Batch(w, st, envs, f).1;
            results.Some? ==>
              n < |results.value| &&
              (results.value[n].place.Unrecoverable? <==> FirstAppendFails(w, envs, f, ContentOf(w, envs[n])))
  {
    hide PlaceAll, ParseAll, Known, FirstAt, Parses;
    var recs, p, k := Records(w, envs), AllOf(w, st, envs, f), ContentOf(w, envs[n]);
    KnownIsIndexed(st.raw, recs, f);
    PlacesOfContent(w, st.files, Known(st.raw, recs, f), st.raw, recs, f, |recs|, k);
    KnownOfContent(w, st.files, Known(st.raw, recs, f), recs, f, |recs|, k);
    assert RawKey(recs[n]) == k;
    var i := FirstExists(recs, k, n);
    FirstIsUnique(recs, k, i);
    KeptIffParses(w, st, envs, f, |envs|, n);
    KeptHasPlace(w, BaseOf(w, st, envs, f), envs, p, f, |envs|, n);
  }

  lemma {:induction false} KeptHasPlace<C,
      R>(w: World<C, R>, st: State<C, R>, envs: seq<Envelope>, p: Placed<R>, f: Faults,
      n: nat, i: nat)
    requires i < n <= |envs| == |p.places| == |p.dups|
    ensures var r := ParseAll(w, st, envs, p, f, n);
            i in r.kept ==> r.results[i].place == p.places[i] && r.results[i].duplicateOf == p.dups[i]
  {
    hide ParseAll, ParseStep;
    ParseAllNext(w, st, envs, p, f, n - 1);
    var r := ParseAll(w, st, envs, p, f, n - 1);
    SalvageStep(w, r, envs[n - 1], p.places[n - 1], p.dups[n - 1], f, n - 1);
    if i < n - 1 {
      KeptHasPlace(w, st, envs, p, f, n - 1, i);
    } else {
      KeptPlace(w, r, envs[i], p.places[i], p.dups[i], f, i);
    }
  }

  lemma KeptPlace<C, R>(w: World<C, R>, r: Parsing<C, R>, env: Envelope, place: Place, dup: Option<string>,
      f: Faults, i: nat)
    requires |r.results| == i && IncreasingBelow(r.kept, i)
    ensures var r' := ParseStep(w, r, env, place, dup, f, i);
            i in r'.kept ==> r'.results[i].place == place && r'.results[i].duplicateOf == dup
  {
    hide Degraded;
  }

  lemma KnownIsIndexed(raw: RawIndex, recs: seq<Record>, f: Faults)
    ensures forall k :: k in Known(raw, recs, f) ==> k in raw
  {
  }

  // ------------------------------------------------------------ the storage

  class SqlStorage {
    var rawIndex: RawIndex
    var events: seq<Event>
    var sources: Sources

    constructor ()
      ensures rawIndex == map[] && events == [] && sources == map[]
    {
      rawIndex, events, sources := map[], [], map[];
    }

    /** One SELECT for all contents of a tenant; no value when the statement fails. */
    method FindRawLocations(tenant: string, ids: set<string>, fails: bool) returns (found: Option<map<string, Place>>)
      ensures found == if fails then None
                       else Some(map id | id in ids && (tenant, id) in rawIndex :: rawIndex[(tenant, id)].place)
    {
      if fails {
        return None;
      }
      var rows: map<string, Place> := map[];
      var todo := ids;
      while todo != {}
        invariant todo <= ids
        invariant rows == map id | id in ids && id !in todo && (tenant, id) in rawIndex :: rawIndex[(tenant, id)].place
        decreases todo
      {
        var id :| id in todo;
        if (tenant, id) in rawIndex {
          rows := rows[id := rawIndex[(tenant, id)].place];
        }
        todo := todo - {id};
      }
      assert rows == map id | id in ids && (tenant, id) in rawIndex :: rawIndex[(tenant, id)].place;
      found := Some(rows);
    }

    method IndexRaw(rec: Record, place: Place, fails: bool) returns (ok: bool)
      modifies this`rawIndex
      ensures ok == !fails && rawIndex == if fails then old(rawIndex) else Indexed(old(rawIndex), rec, place)
    {
      ok := !fails;
      if ok && (rec.key.tenant, rec.rawId) !in rawIndex {
        rawIndex := rawIndex[(rec.key.tenant, rec.rawId) := RawRow(rec.key.source, place, rec.receivedAt)];
      }
    }

    /** One INSERT that does nothing on conflict, atomic. */
    method IndexRawBulk(items: seq<(Record, Place)>, fails: bool)
      modifies this`rawIndex
      ensures rawIndex == if fails then old(rawIndex) else IndexedAll(old(rawIndex), items)
    {
      if fails {
        return;
      }
      for k := 0 to |items|
        invariant rawIndex == IndexedAll(old(rawIndex), items[..k])
      {
        var (rec, place) := items[k];
        assert items[..k + 1] == items[..k] + [items[k]];
        IndexedAllSnoc(old(rawIndex), items[..k], items[k]);
        if (rec.key.tenant, rec.rawId) !in rawIndex {
          rawIndex := rawIndex[(rec.key.tenant, rec.rawId) := RawRow(rec.key.source, place, rec.receivedAt)];
        }
      }
      assert items[..|items|] == items;
    }

    method WriteEvent(ev: Event, fails: bool)
      modifies this`events
      ensures events == if fails then old(events) else old(events) + [ev]
    {
      if !fails {
        events := events + [ev];
      }
    }

    /** One INSERT of many rows, atomic. */
    method WriteEventsBulk(rows: seq<Event>, fails: bool) returns (ok: bool)
      modifies this`events
      ensures ok == !fails && events == if fails then old(events) else old(events) + rows
    {
      ok := !fails;
      if ok {
        events := events + rows;
      }
    }

    /** Select, then insert or update: counts an event for a source. */
    method UpsertSource(key: TenantKey, i: Increment)
      modifies this`sources
      ensures sources == Upserted(old(sources), key, i)
      ensures AddsTo(old(sources), sources, key, i) && sources - {key} == old(sources) - {key}
    {
      if key !in sources {
        sources := sources[key := SourceRow(i.inc, Some(i.transport), Some(i.parserId), "unknown")];
      } else {
        var row := sources[key];
        sources := sources[key := SourceRow(row.count + i.inc, Some(i.transport), Some(i.parserId), row.health)];
      }
    }

    /** The health update the drift monitor makes, which inserts the row if it is not there. */
    method MarkDegraded(key: TenantKey)
      modifies this`sources
      ensures sources == Degraded(old(sources), key, true)
    {
      if key !in sources {
        sources := sources[key := SourceRow(0, None, None, "degraded")];
      } else {
        sources := sources[key := sources[key].(health := "degraded")];
      }
    }

    /** One INSERT for all of a tenant's sources that adds to the counts on conflict, atomic. */
    method UpsertSourcesBulk(tenant: string, aggs: map<string, Increment>, fails: bool)
      modifies this`sources
      ensures sources == if fails then old(sources) else UpsertedTenant(old(sources), tenant, aggs, aggs.Keys)
      ensures !fails ==> forall s :: s in aggs ==> AddsTo(old(sources), sources, (tenant, s), aggs[s])
      ensures forall k: TenantKey :: fails || k.0 != tenant || k.1 !in aggs ==> SameRowAt(old(sources), sources, k)
    {
      if fails {
        return;
      }
      var todo := aggs.Keys;
      assert sources == UpsertedTenant(old(sources), tenant, aggs, aggs.Keys - todo);
      while todo != {}
        invariant todo <= aggs.Keys
        invariant sources == UpsertedTenant(old(sources), tenant, aggs, aggs.Keys - todo)
        decreases todo
      {
        var source :| source in todo;
        UpsertedTenantStep(old(sources), tenant, aggs, aggs.Keys - todo, source);
        assert aggs.Keys - todo + {source} == aggs.Keys - (todo - {source});
        UpsertSource((tenant, source), aggs[source]);
        todo := todo - {source};
      }
      assert aggs.Keys - todo == aggs.Keys;
    }
  }

  /** The row of one source grows by an increment and takes its transport and parser. */
  ghost predicate AddsTo(before: Sources, after: Sources, k: TenantKey, i: Increment) {
    var was := if k in before then before[k] else SourceRow(0, None, None, "unknown");
    k in after && after[k] == SourceRow(was.count + i.inc, Some(i.transport), Some(i.parserId), was.health)
  }

  ghost predicate SameRowAt(before: Sources, after: Sources, k: TenantKey) {
    (k in after <==> k in before) && (k in after ==> after[k] == before[k])
  }

  lemma UpsertedAllAdds(sources: Sources, incs: map<TenantKey, Increment>, f: Faults, k: TenantKey)
    ensures var after := UpsertedAll(sources, incs, f);
            if k in incs && !f.upsert(k.0) then AddsTo(sources, after, k, incs[k]) else SameRowAt(sources, after, k)
  {
  }

  function UpsertedTenant(sources: Sources, tenant: string, aggs: map<string, Increment>, done: set<string>): Sources
    requires done <= aggs.Keys
  {
    map k | k in sources.Keys + (set s | s in done :: (tenant, s)) ::
      if k.0 == tenant && k.1 in done then Counted(RowOr(sources, k), aggs[k.1]) else sources[k]
  }

  lemma UpsertedTenantStep(sources: Sources, tenant: string, aggs: map<string, Increment>, done: set<string>,
      source: string)
    requires done <= aggs.Keys && source in aggs && source !in done
    ensures UpsertedTenant(sources, tenant, aggs, done + {source})
            == Upserted(UpsertedTenant(sources, tenant, aggs, done), (tenant, source), aggs[source])
  {
    var before := UpsertedTenant(sources, tenant, aggs, done);
    assert RowOr(before, (tenant, source)) == RowOr(sources, (tenant, source));
    var left := UpsertedTenant(sources, tenant, aggs, done + {source});
    var right := Upserted(before, (tenant, source), aggs[source]);
    forall k
      ensures k in left <==> k in right
      ensures k in left ==> left[k] == right[k]
    {
    }
    assert left.Keys == right.Keys;
  }

  /** One tenant's lookup, under the keys of the batch. */
  function Tagged(tenant: string, found: map<string, Place>): map<TenantKey, Place> {
    map id | id in found :: (tenant, id) := found[id]
  }

  lemma TaggedAt(tenant: string, found: map<string, Place>, k: TenantKey)
    ensures k in Tagged(tenant, found) <==> k.0 == tenant && k.1 in found
    ensures k in Tagged(tenant, found) ==> Tagged(tenant, found)[k] == found[k.1]
  {
    assert k == (k.0, k.1);
  }

  lemma KnownForAt(raw: RawIndex, keys: set<TenantKey>, f: Faults, tenants: set<string>, k: TenantKey)
    ensures var known := KnownFor(raw, keys, f, tenants);
            && (k in known <==> k in keys && k in raw && k.0 in tenants && !f.lookup(k.0))
            && (k in known ==> known[k] == raw[k].place)
  {
  }

  lemma {:induction false} KnownForStep(raw: RawIndex, keys: set<TenantKey>, f: Faults, done: set<string>,
      tenant: string, found: map<string, Place>)
    requires !f.lookup(tenant)
    requires found == map id | id in IdsOf(keys, tenant) && (tenant, id) in raw :: raw[(tenant, id)].place
    ensures KnownFor(raw, keys, f, done + {tenant}) == KnownFor(raw, keys, f, done) + Tagged(tenant, found)
  {
    var left := KnownFor(raw, keys, f, done + {tenant});
    var right := KnownFor(raw, keys, f, done) + Tagged(tenant, found);
    hide IdsOf, KnownFor, Tagged;
    forall k
      ensures (k in left <==> k in right) && (k in left ==> left[k] == right[k])
    {
      IdsOfAt(keys, k);
      TaggedAt(tenant, found, k);
      KnownForAt(raw, keys, f, done + {tenant}, k);
      KnownForAt(raw, keys, f, done, k);
    }
    assert left.Keys == right.Keys;
  }

  function IdsOf(keys: set<TenantKey>, tenant: string): set<string> {
    set k | k in keys && k.0 == tenant :: k.1
  }

  lemma IdsOfAt(keys: set<TenantKey>, k: TenantKey)
    ensures k.1 in IdsOf(keys, k.0) <==> k in keys
  {
    if k.1 in IdsOf(keys, k.0) {
      var k' :| k' in keys && k'.0 == k.0 && k'.1 == k.1;
      assert k' == k;
    }
  }

  function UpsertedSome(sources: Sources, incs: map<TenantKey, Increment>, f: Faults, tenants: set<string>): Sources {
    map k | k in sources.Keys + incs.Keys && (k in sources || (k.0 in tenants && !f.upsert(k.0))) ::
      if k in incs && k.0 in tenants && !f.upsert(k.0) then Counted(RowOr(sources, k), incs[k]) else sources[k]
  }

  lemma UpsertedSomeStep(sources: Sources, incs: map<TenantKey, Increment>, f: Faults, done: set<string>,
      tenant: string, aggs: map<string, Increment>)
    requires tenant !in done && !f.upsert(tenant)
    requires aggs == map k | k in incs && k.0 == tenant :: k.1 := incs[k]
    ensures UpsertedSome(sources, incs, f, done + {tenant})
            == UpsertedTenant(UpsertedSome(sources, incs, f, done), tenant, aggs, aggs.Keys)
  {
    var before := UpsertedSome(sources, incs, f, done);
    var left := UpsertedSome(sources, incs, f, done + {tenant});
    var right := UpsertedTenant(before, tenant, aggs, aggs.Keys);
    hide UpsertedSome, UpsertedTenant;
    forall k
      ensures (k in left <==> k in right) && (k in left ==> left[k] == right[k])
    {
      UpsertedSomeAt(sources, incs, f, done + {tenant}, k);
      UpsertedSomeAt(sources, incs, f, done, k);
      UpsertedTenantAt(before, tenant, aggs, k);
      if k.0 == tenant {
        assert k.1 in aggs <==> k in incs by { if k in incs { assert k.1 in aggs; } }
      }
    }
    assert left.Keys == right.Keys;
  }

  lemma UpsertedSomeAt(sources: Sources, incs: map<TenantKey, Increment>, f: Faults, tenants: set<string>, k: TenantKey)
    ensures var all, counted := UpsertedSome(sources, incs, f, tenants), k in incs && k.0 in tenants && !f.upsert(k.0);
            && (k in all <==> k in sources || counted)
            && (k in all ==> all[k] == if counted then Counted(RowOr(sources, k), incs[k]) else sources[k])
  {
  }

  lemma UpsertedTenantAt(sources: Sources, tenant: string, aggs: map<string, Increment>, k: TenantKey)
    ensures var all, counted := UpsertedTenant(sources, tenant, aggs, aggs.Keys), k.0 == tenant && k.1 in aggs;
            && (k in all <==> k in sources || counted)
            && (k in all ==> all[k] == if counted then Counted(RowOr(sources, k), aggs[k.1]) else sources[k])
  {
  }

  lemma UpsertedSomeFailed(sources: Sources, incs: map<TenantKey, Increment>, f: Faults, done: set<string>,
      tenant: string)
    requires f.upsert(tenant)
    ensures UpsertedSome(sources, incs, f, done + {tenant}) == UpsertedSome(sources, incs, f, done)
  {
  }

  lemma UpsertedSomeEnds(sources: Sources, incs: map<TenantKey, Increment>, f: Faults, tenants: set<string>)
    requires forall k :: k in incs ==> k.0 in tenants
    ensures UpsertedSome(sources, incs, f, {}) == sources
    ensures UpsertedSome(sources, incs, f, tenants) == UpsertedAll(sources, incs, f)
  {
  }

  lemma KnownForNone(raw: RawIndex, keys: set<TenantKey>, f: Faults)
    ensures KnownFor(raw, keys, f, {}) == map[]
  {
  }

  lemma KnownForFailed(raw: RawIndex, keys: set<TenantKey>, f: Faults, done: set<string>, tenant: string)
    requires f.lookup(tenant)
    ensures KnownFor(raw, keys, f, done + {tenant}) == KnownFor(raw, keys, f, done)
  {
  }

  lemma RowsNext(results: seq<Event>, kept: seq<nat>, ev: Event)
    requires forall k :: 0 <= k < |kept| ==> kept[k] < |results|
    ensures Rows(results + [ev], kept) == Rows(results, kept)
    ensures Rows(results + [ev], kept + [|results|]) == Rows(results, kept) + [ev]
  {
  }

  // ------------------------------------------------------------ the pipeline

  class Runner<C, R> {
    const w: World<C, R>
    const storage: SqlStorage
    var files: R
    var inner: C

    constructor (w: World<C, R>, storage: SqlStorage, files: R, inner: C)
      ensures this.w == w && this.storage == storage && this.files == files && this.inner == inner
    {
      this.w, this.storage, this.files, this.inner := w, storage, files, inner;
    }

    ghost function Now(): State<C, R>
      reads this, storage
    {
      State(storage.rawIndex, storage.events, storage.sources, files, inner)
    }

    /** Parsing one envelope, with its effects on drift and cluster state and on the source's health. */
    method Compute(env: Envelope, rec: Record, dup: Option<string>) returns (c: Computed<C>)
      modifies this`inner, storage`sources
      ensures c == w.compute(old(inner), env, rec, dup) && inner == c.next
      ensures storage.sources == Degraded(old(storage.sources), SourceKey(env), c.degraded)
    {
      c := w.compute(inner, env, rec, dup);
      inner := c.next;
      if c.degraded {
        storage.MarkDegraded((env.tenant, env.source));
      }
    }

    /** One envelope; no event stands for an exception. */
    method ProcessInner(env: Envelope, b: Broken) returns (ev: Option<Event>)
      modifies this, storage
      ensures Outcome(Now(), ev) == Attempted(w, old(Now()), env, b)
    {
      var payload := w.b64decode(env.payloadB64);
      if payload.None? || b.LookupBroken? {
        return None;
      }
      var rec := RecordOf(w, env, payload.value);
      var place, dup := At(RawStore.Location(RawStore.Path([], "", 0), 0, 0)), None;
      if RawKey(rec) !in storage.rawIndex {
        if b.AppendBroken? {
          return None;
        }
        var (files', loc) := w.append(files, rec);
        files := files';
        place := At(loc);
        var ok := storage.IndexRaw(rec, place, b.IndexBroken?);
        if !ok {
          return None;
        }
      } else {
        place, dup := storage.rawIndex[RawKey(rec)].place, Some(rec.rawId);
      }
      var c := Compute(env, rec, dup);
      if c.Raised? || b.WriteBroken? {
        return None;
      }
      var event := EventOf(env, rec, place, dup, c.parsed);
      storage.WriteEvent(event, false);
      if b.UpsertBroken? {
        return None;
      }
      storage.UpsertSource((env.tenant, env.source), Increment(1, env.transport, c.parsed.parserId));
      ev := Some(event);
    }

    /** One envelope, exceptions turned into an emergency event; no event means that the caller sees one. */
    method Process(env: Envelope, b: Broken, error: string, f: Faults) returns (ev: Option<Event>)
      modifies this, storage
      ensures (Now(), ev) == Rescued(w, old(Now()), env, b, error, f)
      ensures ev.Some? <==> Decodable(w, env)
    {
      hide Attempted, Emergency;
      ProcessIsTotalIffDecodable(w, Now(), env, b, error, f);
      ev := ProcessInner(env, b);
      if ev.None? && w.b64decode(env.payloadB64).Some? {
        var rescue := EmergencyEvent(env, error, f, 0, f.emergencyAppend(0), f.emergencyIndex(0), f.emergencyWrite(0));
        ev := Some(rescue);
      }
    }

    method LookUp(keys: set<TenantKey>, f: Faults) returns (known: map<TenantKey, Place>)
      ensures known == KnownFor(storage.rawIndex, keys, f, TenantsOf(keys))
    {
      hide KnownFor;
      var tenants := TenantsOf(keys);
      var todo := tenants;
      known := map[];
      KnownForNone(storage.rawIndex, keys, f);
      assert tenants - todo == {};
      while todo != {}
        invariant todo <= tenants
        invariant known == KnownFor(storage.rawIndex, keys, f, tenants - todo)
        decreases todo
      {
        var t :| t in todo;
        var found := storage.FindRawLocations(t, IdsOf(keys, t), f.lookup(t));
        assert tenants - (todo - {t}) == (tenants - todo) + {t};
        if found.Some? {
          KnownForStep(storage.rawIndex, keys, f, tenants - todo, t, found.value);
          known := known + Tagged(t, found.value);
        } else {
          KnownForFailed(storage.rawIndex, keys, f, tenants - todo, t);
        }
        todo := todo - {t};
      }
      assert tenants - todo == tenants;
    }

    /** The dedup loop: duplicates share a place, new contents are appended. */
    method AppendNew(recs: seq<Record>, known: map<TenantKey, Place>, f: Faults)
      returns (places: seq<Place>, dups: seq<Option<string>>, rows: seq<(Record, Place)>,
          ghost existing: map<TenantKey, Place>)
      modifies this`files
      ensures Placed(files, existing, places, dups, rows) == PlaceAll(w, old(files), known, recs, f, |recs|)
    {
      hide PlaceAll;
      var seen := known;
      places, dups, rows := [], [], [];
      PlaceAllNone(w, files, known, recs, f);
      for i := 0 to |recs|
        invariant Placed(files, seen, places, dups, rows) == PlaceAll(w, old(files), known, recs, f, i)
      {
        PlaceAllNext(w, old(files), known, recs, f, i);
        var rec := recs[i];
        var key := RawKey(rec);
        if key in seen {
          places, dups := places + [seen[key]], dups + [Some(rec.rawId)];
          continue;
        }
        var place := Unrecoverable(|rec.payload|);
        if !f.append(i) {
          var (files', loc) := w.append(files, rec);
          files := files';
          place := At(loc);
        }
        places, dups := places + [place], dups + [None];
        rows := rows + [(rec, place)];
        seen := seen[key := place];
      }
      existing := seen;
    }

    /** Phase 1: every envelope gets a place, new contents are appended and indexed. */
    method PlaceBatch(recs: seq<Record>, f: Faults) returns (places: seq<Place>, dups: seq<Option<string>>)
      modifies this`files, storage`rawIndex
      ensures var p := PlaceAll(w, old(files), Known(old(storage.rawIndex), recs, f), recs, f, |recs|);
              && places == p.places && dups == p.dups && files == p.files
              && storage.rawIndex == if f.indexBulk then old(storage.rawIndex)
                  else IndexedAll(old(storage.rawIndex), p.news)
    {
      hide PlaceAll, KnownFor;
      var known := LookUp(KeysOf(recs), f);
      var rows;
      ghost var existing;
      places, dups, rows, existing := AppendNew(recs, known, f);
      if rows != [] {
        storage.IndexRawBulk(rows, f.indexBulk);
      }
    }

    /** The last resort for one envelope. */
    method EmergencyEvent(env: Envelope, error: string, f: Faults, ghost i: nat, appendFails: bool, indexFails: bool,
        writeFails: bool)
      returns (ev: Event)
      requires appendFails == f.emergencyAppend(i) && indexFails == f.emergencyIndex(i) &&
              writeFails == f.emergencyWrite(i)
      modifies this`files, storage
      ensures (Now(), ev) == Emergency(w, old(Now()), env, error, f, i)
    {
      var payload := Payload(w, env);
      var rec := RecordOf(w, env, payload);
      var place := Unrecoverable(|payload|);
      if !appendFails {
        var (files', loc) := w.append(files, rec);
        files := files';
        var ok := storage.IndexRaw(rec, At(loc), indexFails);
        if ok {
          place := At(loc);
        }
      }
      ev := EventOf(env, rec, place, None, w.emergency(payload, error));
      storage.WriteEvent(ev, writeFails);
    }

    /** One event of phase 2; `parserId` is absent when parsing raised and the event is an emergency. */
    method ParseOne(env: Envelope, rec: Record, place: Place, dup: Option<string>, f: Faults, i: nat,
        ghost r: Parsing<C, R>)
      returns (ev: Event, parserId: Option<string>)
      requires rec == RecordOf(w, env, Payload(w, env)) && r.state == Now()
      modifies this, storage
      ensures var r' := ParseStep(w, r, env, place, dup, f, i);
              && Now() == r'.state && r'.results == r.results + [ev]
              && r'.kept == (if parserId.Some? then r.kept + [i] else r.kept)
              && r'.incs == if parserId.Some? then Added(r.incs, SourceKey(env), env.transport, parserId.value)
                  else r.incs
    {
      hide Degraded, Emergency;
      var c := Compute(env, rec, dup);
      match c {
        case Finished(_, _, parsed) =>
          ev, parserId := EventOf(env, rec, place, dup, parsed), Some(parsed.parserId);
        case Raised(_, _, error) =>
          ev := EmergencyEvent(env, error, f, i, f.emergencyAppend(i), f.emergencyIndex(i), f.emergencyWrite(i));
          parserId := None;
      }
    }

    /** Phase 2: parsing, event by event; nothing but emergencies and health marks is written. */
    method ParseBatch(envs: seq<Envelope>, recs: seq<Record>, places: seq<Place>, dups: seq<Option<string>>,
        f: Faults, ghost p: Placed<R>)
      returns (results: seq<Event>, rows: seq<Event>, incs: map<TenantKey, Increment>)
      requires recs == Records(w, envs) && |places| == |dups| == |envs| && places == p.places && dups == p.dups
      modifies this, storage
      ensures var r := ParseAll(w, old(Now()), envs, p, f, |envs|);
              Now() == r.state && results == r.results && incs == r.incs && rows == Rows(r.results, r.kept)
    {
      hide ParseAll, ParseStep;
      results, rows, incs := [], [], map[];
      ghost var kept: seq<nat> := [];
      ParseAllNone(w, Now(), envs, p, f);
      for i := 0 to |envs|
        invariant Parsing(Now(), results, kept, incs) == ParseAll(w, old(Now()), envs, p, f, i)
        invariant IncreasingBelow(kept, |results|) && rows == Rows(results, kept)
      {
        ParseAllNext(w, old(Now()), envs, p, f, i);
        var env := envs[i];
        ghost var r := Parsing(Now(), results, kept, incs);
        var ev, parserId := ParseOne(env, recs[i], places[i], dups[i], f, i, r);
        RowsNext(results, kept, ev);
        results := results + [ev];
        if parserId.Some? {
          rows := rows + [ev];
          kept := kept + [i];
          var key := SourceKey(env);
          var before := if key in incs then incs[key].inc else 0;
          incs := incs[key := Increment(before + 1, env.transport, parserId.value)];
        }
      }
    }

    method WriteRows(rows: seq<Event>, f: Faults)
      modifies storage`events
      ensures storage.events == old(storage.events) + if f.writeBulk then WrittenSingly(rows, f, |rows|) else rows
    {
      hide WrittenSingly;
      WrittenSinglyNone(rows, f);
      if rows != [] {
        var ok := storage.WriteEventsBulk(rows, f.writeBulk);
        if !ok {
          ghost var before := storage.events;
          assert before + [] == before;
          for k := 0 to |rows|
            invariant storage.events == before + WrittenSingly(rows, f, k)
          {
            WrittenSinglyNext(rows, f, k);
            ghost var sofar := WrittenSingly(rows, f, k);
            storage.WriteEvent(rows[k], f.write(k));
            assert before + (sofar + [rows[k]]) == (before + sofar) + [rows[k]] && sofar + [] == sofar;
          }
        }
      }
    }

    /** Source counts, tenant by tenant. */
    method CountSources(incs: map<TenantKey, Increment>, f: Faults)
      modifies storage`sources
      ensures storage.sources == UpsertedAll(old(storage.sources), incs, f)
      ensures forall k: TenantKey :: k in incs && !f.upsert(k.0) ==>
                AddsTo(old(storage.sources), storage.sources, k, incs[k])
      ensures forall k: TenantKey :: k !in incs || f.upsert(k.0) ==> SameRowAt(old(storage.sources), storage.sources, k)
    {
      hide UpsertedSome, UpsertedTenant, UpsertedAll, AddsTo, SameRowAt;
      forall k
        ensures var after := UpsertedAll(storage.sources, incs, f);
                if k in incs && !f.upsert(k.0) then AddsTo(storage.sources, after, k, incs[k])
                else SameRowAt(storage.sources, after, k)
      {
        UpsertedAllAdds(storage.sources, incs, f, k);
      }
      var tenants := set k | k in incs :: k.0;
      var todo := tenants;
      ghost var before := storage.sources;
      assert tenants - todo == {};
      UpsertedSomeEnds(before, incs, f, tenants);
      while todo != {}
        invariant todo <= tenants
        invariant storage.sources == UpsertedSome(before, incs, f, tenants - todo)
        decreases todo
      {
        var t :| t in todo;
        var aggs := map k | k in incs && k.0 == t :: k.1 := incs[k];
        assert tenants - (todo - {t}) == (tenants - todo) + {t};
        if !f.upsert(t) {
          UpsertedSomeStep(before, incs, f, tenants - todo, t, aggs);
        } else {
          UpsertedSomeFailed(before, incs, f, tenants - todo, t);
        }
        storage.UpsertSourcesBulk(t, aggs, f.upsert(t));
        todo := todo - {t};
      }
      assert tenants - todo == tenants;
    }

    /** Decoding all payloads; it raises at the first one that is not base64. */
    method DecodeAll(envs: seq<Envelope>) returns (recs: Option<seq<Record>>)
      ensures recs.None? <==> exists i :: 0 <= i < |envs| && !Decodable(w, envs[i])
      ensures recs.Some? ==> recs.value == Records(w, envs)
    {
      var done: seq<Record> := [];
      for i := 0 to |envs|
        invariant |done| == i
        invariant forall k :: 0 <= k < i ==>
                    Decodable(w, envs[k]) && done[k] == RecordOf(w, envs[k], Payload(w, envs[k]))
      {
        var payload := w.b64decode(envs[i].payloadB64);
        if payload.None? {
          assert !Decodable(w, envs[i]);
          return None;
        }
        done := done + [RecordOf(w, envs[i], payload.value)];
      }
      assert done == Records(w, envs);
      recs := Some(done);
    }

    /** A batch under any failing statements; no results stand for the exception it raises. */
    method ProcessBatch(envs: seq<Envelope>, f: Faults) returns (results: Option<seq<Event>>)
      modifies this, storage
      ensures (Now(), results) == Batch(w, old(Now()), envs, f)
      ensures results.None? <==> exists i :: 0 <= i < |envs| && !Decodable(w, envs[i])
    {
      var decoded := DecodeAll(envs);
      if decoded.None? {
        return None;
      }
      hide PlaceAll, ParseAll, UpsertedAll, Known, IndexedAll, WrittenSingly, Decodable;
      var recs := decoded.value;
      ghost var p := AllOf(w, Now(), envs, f);
      var places, dups := PlaceBatch(recs, f);
      var events, rows, incs := ParseBatch(envs, recs, places, dups, f, p);
      WriteRows(rows, f);
      CountSources(incs, f);
      results := Some(events);
    }
  }
}

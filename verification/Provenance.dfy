/**
 The pipeline over the actual raw store: an event that names a place can be traced back to its payload
 (uli/pipeline.py with uli/storage/raw_store.py).
 */
module Provenance {
  import opened Basics
  import RawStore
  import opened Pipeline

  /** A raw store's settings and codec, what re-reading a compressed file yields at each append, and the keys in use. */
  datatype Store = Store(cfg: RawStore.Config, codec: RawStore.Codec, stored: (RawStore.State, Record) -> Bytes,
                         keys: set<RawStore.Key>)

  /** The directory tree with its open segments, and the byte streams they stand for. */
  datatype Files = Files(disk: RawStore.State, streams: RawStore.Streams)

  ghost predicate Good(store: Store, files: Files) {
    && store.codec.Lawful()
    && RawStore.Represents(files.disk, files.streams) && RawStore.Wellformed(files.disk)
    && files.disk.open.Keys <= store.keys && RawStore.Distinct(files.disk.root, store.keys)
  }

  ghost function Appended(store: Store, files: Files, rec: Record): (Files, RawStore.Location) {
    if !RawStore.Wellformed(files.disk) then (files, RawStore.Location(RawStore.Path([], "", 0), 0, 0))
    else
      var stored := store.stored(files.disk, rec);
      var loc := RawStore.LocationOf(store.cfg, store.codec, files.disk, rec, stored);
      (Files(RawStore.Step(store.cfg, store.codec, files.disk, RawStore.Append(rec, stored)),
             RawStore.Extended(files.streams, loc.segment, store.codec.Encode(rec))),
       loc)
  }

  /** A pipeline that appends to this raw store. */
  ghost predicate Uses<C(!new)>(store: Store, w: World<C, Files>) {
    w.sha256 == store.codec.sha256 && forall files, rec :: w.append(files, rec) == Appended(store, files, rec)
  }

  /** The place, if there is one, holds a record whose payload has this hash. */
  ghost predicate Provides(store: Store, files: Files, place: Place, hash: string) {
    place.At? ==>
      exists rec: Record :: RawStore.Holds(files.streams, place.loc, store.codec.Encode(rec)) &&
          store.codec.sha256(rec.payload) == hash
  }

  ghost predicate RawProvides(store: Store, files: Files, raw: RawIndex) {
    forall k :: k in raw ==> Provides(store, files, raw[k].place, k.1)
  }

  /** The place, if there is one, holds just this record. */
  ghost predicate IsOwn(store: Store, files: Files, place: Place, rec: Record) {
    place.At? ==> RawStore.Holds(files.streams, place.loc, store.codec.Encode(rec))
  }

  /** The record an event tells of, but for its payload. */
  function RecordFor(ev: Event, payload: Bytes): Record {
    RawStore.Record(ev.rawId, RawStore.Key(ev.tenant, ev.source), ev.transport, ev.peer, ev.receivedAt, payload)
  }

  /** An event's place leads to what it is named by; if the event repeats nothing, to its own record. */
  ghost predicate EventOk(store: Store, files: Files, ev: Event) {
    && Provides(store, files, ev.place, ev.rawId)
    && (ev.duplicateOf.None? ==>
          exists payload: Bytes :: store.codec.sha256(payload) == ev.rawId
            && IsOwn(store, files, ev.place, RecordFor(ev, payload)))
  }

  ghost predicate EventsProvide(store: Store, files: Files, events: seq<Event>) {
    forall i :: 0 <= i < |events| ==> EventOk(store, files, events[i])
  }

  /** Every indexed place and every event's place lead to what they are indexed and named by. */
  ghost predicate Sound<C>(store: Store, st: State<C, Files>) {
    Good(store, st.files) && RawProvides(store, st.files, st.raw) && EventsProvide(store, st.files, st.events)
  }

  ghost predicate Later(files: Files, files': Files) {
    RawStore.Grows(files.streams, files'.streams)
  }

  lemma LaterIsTransitive(a: Files, b: Files, c: Files)
    requires Later(a, b) && Later(b, c)
    ensures Later(a, c)
  {
    forall p | p in a.streams ensures p in c.streams && a.streams[p] <= c.streams[p] {
      PrefixIsTransitive(a.streams[p], b.streams[p], c.streams[p]);
    }
  }

  lemma PrefixIsTransitive(a: Bytes, b: Bytes, c: Bytes)
    requires a <= b && b <= c
    ensures a <= c
  {
  }

  lemma ProvidesForever(store: Store, files: Files, files': Files, place: Place, hash: string)
    requires Provides(store, files, place, hash) && Later(files, files')
    ensures Provides(store, files', place, hash)
  {
    if place.At? {
      var rec: Record :| RawStore.Holds(files.streams, place.loc, store.codec.Encode(rec)) &&
          store.codec.sha256(rec.payload) == hash;
      RawStore.HoldsForever(files.streams, files'.streams, place.loc, store.codec.Encode(rec));
    }
  }

  lemma OwnForever(store: Store, files: Files, files': Files, place: Place, rec: Record)
    requires IsOwn(store, files, place, rec) && Later(files, files')
    ensures IsOwn(store, files', place, rec)
  {
    if place.At? { RawStore.HoldsForever(files.streams, files'.streams, place.loc, store.codec.Encode(rec)); }
  }

  lemma OkForever(store: Store, files: Files, files': Files, ev: Event)
    requires EventOk(store, files, ev) && Later(files, files')
    ensures EventOk(store, files', ev)
  {
    hide Provides, IsOwn, Later;
    ProvidesForever(store, files, files', ev.place, ev.rawId);
    if ev.duplicateOf.None? {
      var payload: Bytes :| store.codec.sha256(payload) == ev.rawId
        && IsOwn(store, files, ev.place, RecordFor(ev, payload));
      OwnForever(store, files, files', ev.place, RecordFor(ev, payload));
    }
  }

  /** The event of an envelope whose place is its own, or leads at least to its content. */
  lemma EventIsOk<C>(store: Store, w: World<C, Files>, files: Files, env: Envelope, place: Place, dup: Option<string>,
      parsed: Parsed)
    requires w.sha256 == store.codec.sha256
    requires Provides(store, files, place, w.sha256(Payload(w, env)))
    requires dup.None? ==> IsOwn(store, files, place, RecordOf(w, env, Payload(w, env)))
    ensures EventOk(store, files, EventOf(env, RecordOf(w, env, Payload(w, env)), place, dup, parsed))
  {
    hide Provides, IsOwn;
    var payload := Payload(w, env);
    var ev := EventOf(env, RecordOf(w, env, payload), place, dup, parsed);
    assert RecordFor(ev, payload) == RecordOf(w, env, payload);
  }

  lemma AllProvideForever(store: Store, files: Files, files': Files, raw: RawIndex, events: seq<Event>)
    requires RawProvides(store, files, raw) && EventsProvide(store, files, events) && Later(files, files')
    ensures RawProvides(store, files', raw) && EventsProvide(store, files', events)
  {
    hide Provides, Later, EventOk;
    forall k | k in raw
      ensures Provides(store, files', raw[k].place, k.1)
    {
      ProvidesForever(store, files, files', raw[k].place, k.1);
    }
    forall i | 0 <= i < |events| ensures EventOk(store, files', events[i]) {
      OkForever(store, files, files', events[i]);
    }
  }

  /** An append keeps everything that was stored, and its own location provides the payload. */
  lemma {:induction false} AppendedProvides(store: Store, files: Files, rec: Record)
    requires Good(store, files) && rec.key in store.keys
    ensures var (files', loc) := Appended(store, files, rec);
            && Good(store, files') && Later(files, files')
            && Provides(store, files', At(loc), store.codec.sha256(rec.payload)) && IsOwn(store, files', At(loc), rec)
  {
    hide RawStore.Represents, RawStore.DirOf, RawStore.Prepared;
    var stored, line := store.stored(files.disk, rec), store.codec.Encode(rec);
    var day := store.codec.utcDay(rec.receivedAt);
    RawStore.AppendedExtends(store.cfg, store.codec.sha256, files.disk, files.streams, rec.key, day, line, stored);
    RawStore.AppendedKeys(store.cfg, store.codec.sha256, files.disk, rec.key, day, line, stored);
    RawStore.RepresentsIsWellformed(Appended(store, files, rec).0.disk, Appended(store, files, rec).0.streams);
  }

  // ------------------------------------------------------------ a batch

  /** Records under the store's keys, named by the hash of their payload. */
  ghost predicate Filed(store: Store, recs: seq<Record>) {
    forall i :: 0 <= i < |recs| ==> recs[i].key in store.keys && recs[i].rawId == store.codec.sha256(recs[i].payload)
  }

  ghost predicate KnownProvides(store: Store, files: Files, known: map<TenantKey, Place>) {
    forall k :: k in known ==> Provides(store, files, known[k], k.1)
  }

  ghost predicate PlacedProvides(store: Store, p: Placed<Files>, recs: seq<Record>) {
    && |p.places| <= |recs| && |p.dups| == |p.places|
    && (forall j :: 0 <= j < |p.dups| && p.dups[j].None? ==> IsOwn(store, p.files, p.places[j], recs[j]))
    && KnownProvides(store, p.files, p.known)
    && (forall j :: 0 <= j < |p.places| ==> Provides(store, p.files, p.places[j], recs[j].rawId))
    && (forall j :: 0 <= j < |p.news| ==> Provides(store, p.files, p.news[j].1, p.news[j].0.rawId))
  }

  lemma {:induction false} PlaceStepProvides<C(!new)>(store: Store, w: World<C, Files>, p: Placed<Files>,
      recs: seq<Record>, failed: bool)
    requires Uses(store, w) && Good(store, p.files) && Filed(store, recs) && PlacedProvides(store, p, recs) &&
            |p.places| < |recs|
    ensures var p' := PlaceStep(w, p, recs[|p.places|], failed);
            Good(store, p'.files) && Later(p.files, p'.files) && PlacedProvides(store, p', recs)
  {
    hide Good, Provides, Later, IsOwn;
    var rec := recs[|p.places|];
    NoLater(p.files);
    if RawKey(rec) !in p.known {
      AppendedProvides(store, p.files, rec);
      UnrecoverableProvides(store, p.files, rec);
      var files' := if failed then p.files else w.append(p.files, rec).0;
      forall j | 0 <= j < |p.dups| && p.dups[j].None? ensures IsOwn(store, files', p.places[j], recs[j]) {
        OwnForever(store, p.files, files', p.places[j], recs[j]);
      }
      forall k | k in p.known
        ensures Provides(store, files', p.known[k], k.1)
      {
        ProvidesForever(store, p.files, files', p.known[k], k.1);
      }
      forall j | 0 <= j < |p.places| ensures Provides(store, files', p.places[j], recs[j].rawId) {
        ProvidesForever(store, p.files, files', p.places[j], recs[j].rawId);
      }
      forall j | 0 <= j < |p.news| ensures Provides(store, files', p.news[j].1, p.news[j].0.rawId) {
        ProvidesForever(store, p.files, files', p.news[j].1, p.news[j].0.rawId);
      }
    }
  }

  lemma NoLater(files: Files)
    ensures Later(files, files)
  {
  }

  lemma UnrecoverableProvides(store: Store, files: Files, rec: Record)
    ensures Provides(store, files, Unrecoverable(|rec.payload|), rec.rawId)
    ensures IsOwn(store, files, Unrecoverable(|rec.payload|), rec)
  {
  }

  lemma {:induction false} PlacesProvide<C(!new)>(store: Store, w: World<C, Files>, files: Files,
      known: map<TenantKey, Place>, recs: seq<Record>, f: Faults, n: nat)
    requires Uses(store, w) && Good(store, files) && Filed(store, recs) && KnownProvides(store, files, known) &&
            n <= |recs|
    ensures var p := PlaceAll(w, files, known, recs, f, n);
            Good(store, p.files) && Later(files, p.files) && PlacedProvides(store, p, recs)
  {
    hide PlaceAll, PlaceStep, Good, Later, Filed, Uses;
    PlaceAllNone(w, files, known, recs, f);
    NoLater(files);
    if n > 0 {
      PlacesProvide(store, w, files, known, recs, f, n - 1);
      PlaceAllNext(w, files, known, recs, f, n - 1);
      var p, p' := PlaceAll(w, files, known, recs, f, n - 1), PlaceAll(w, files, known, recs, f, n);
      PlaceStepProvides(store, w, p, recs, f.append(n - 1));
      LaterIsTransitive(files, p.files, p'.files);
    }
  }

  lemma {:induction false} IndexedProvides(store: Store, files: Files, raw: RawIndex, rows: seq<(Record, Place)>)
    requires RawProvides(store, files, raw)
    requires forall j :: 0 <= j < |rows| ==> Provides(store, files, rows[j].1, rows[j].0.rawId)
    ensures RawProvides(store, files, IndexedAll(raw, rows))
  {
    hide Provides;
    if rows != [] { IndexedProvides(store, files, raw, rows[..|rows| - 1]); }
  }

  /** An emergency keeps everything, and its event's place, if it has one, provides the payload. */
  lemma {:induction false} EmergencyIsSound<C(!new)>(store: Store, w: World<C, Files>, st: State<C, Files>,
      env: Envelope, error: string, f: Faults, i: nat)
    requires Uses(store, w) && Sound(store, st) && RawStore.Key(env.tenant, env.source) in store.keys
    ensures var (st', ev) := Emergency(w, st, env, error, f, i);
            Sound(store, st') && Later(st.files, st'.files) && EventOk(store, st'.files, ev)
  {
    hide Good, Provides, Later, IsOwn, EventOk, EventOf;
    var rec := RecordOf(w, env, Payload(w, env));
    AppendedProvides(store, st.files, rec);
    NoLater(st.files);
    var (st', ev) := Emergency(w, st, env, error, f, i);
    UnrecoverableProvides(store, st'.files, rec);
    var stored := !f.emergencyAppend(i);
    var place := if stored && !f.emergencyIndex(i) then At(w.append(st.files, rec).1) else Unrecoverable(|rec.payload|);
    EventIsOk(store, w, st'.files, env, place, None, w.emergency(Payload(w, env), error));
    AllProvideForever(store, st.files, st'.files, st.raw, st.events);
  }

  ghost predicate ParsedProvides<C>(store: Store, r: Parsing<C, Files>) {
    Sound(store, r.state) && EventsProvide(store, r.state.files, r.results)
  }

  lemma {:induction false} ParseStepProvides<C(!new)>(store: Store, w: World<C, Files>, r: Parsing<C, Files>,
      env: Envelope, place: Place, dup: Option<string>, f: Faults, i: nat)
    requires Uses(store, w) && ParsedProvides(store, r) && RawStore.Key(env.tenant, env.source) in store.keys
    requires Provides(store, r.state.files, place, w.sha256(Payload(w, env)))
    requires dup.None? ==> IsOwn(store, r.state.files, place, RecordOf(w, env, Payload(w, env)))
    ensures var r' := ParseStep(w, r, env, place, dup, f, i);
            ParsedProvides(store, r') && Later(r.state.files, r'.state.files)
  {
    hide Good, Provides, Later, Emergency, Degraded, IsOwn, EventOk, EventOf;
    NoLater(r.state.files);
    var c := w.compute(r.state.inner, env, RecordOf(w, env, Payload(w, env)), dup);
    if c.Raised? {
      var st := r.state.(inner := c.next, sources := Degraded(r.state.sources, SourceKey(env), c.degraded));
      EmergencyIsSound(store, w, st, env, c.error, f, i);
      AllProvideForever(store, st.files, Emergency(w, st, env, c.error, f, i).0.files, map[], r.results);
    } else {
      EventIsOk(store, w, r.state.files, env, place, dup, c.parsed);
    }
  }

  /** The place of an envelope leads to its content, and holds its own record if the content is not repeated. */
  ghost predicate PlaceIsOk<C>(store: Store, w: World<C, Files>, files: Files, env: Envelope, place: Place,
      dup: Option<string>) {
    && Provides(store, files, place, w.sha256(Payload(w, env)))
    && (dup.None? ==> IsOwn(store, files, place, RecordOf(w, env, Payload(w, env))))
  }

  lemma PlaceStaysOk<C>(store: Store, w: World<C, Files>, files: Files, files': Files, env: Envelope, place: Place,
      dup: Option<string>)
    requires PlaceIsOk(store, w, files, env, place, dup) && Later(files, files')
    ensures PlaceIsOk(store, w, files', env, place, dup)
  {
    hide Provides, IsOwn, Later;
    ProvidesForever(store, files, files', place, w.sha256(Payload(w, env)));
    if dup.None? { OwnForever(store, files, files', place, RecordOf(w, env, Payload(w, env))); }
  }

  lemma {:induction false} ParsingProvides<C(!new)>(store: Store, w: World<C, Files>, st: State<C, Files>,
      envs: seq<Envelope>, p: Placed<Files>, f: Faults, n: nat)
    requires n <= |envs| == |p.places| == |p.dups| && Uses(store, w) && Sound(store, st)
    requires forall i :: 0 <= i < |envs| ==> RawStore.Key(envs[i].tenant, envs[i].source) in store.keys
    requires forall i :: 0 <= i < |envs| ==> PlaceIsOk(store, w, st.files, envs[i], p.places[i], p.dups[i])
    ensures var r := ParseAll(w, st, envs, p, f, n);
            ParsedProvides(store, r) && Later(st.files, r.state.files)
  {
    hide ParseAll, ParseStep, Good, Provides, Later, Uses, IsOwn, RecordOf;
    ParseAllNone(w, st, envs, p, f);
    NoLater(st.files);
    if n > 0 {
      ParsingProvides(store, w, st, envs, p, f, n - 1);
      ParseAllNext(w, st, envs, p, f, n - 1);
      var r, r' := ParseAll(w, st, envs, p, f, n - 1), ParseAll(w, st, envs, p, f, n);
      PlaceStaysOk(store, w, st.files, r.state.files, envs[n - 1], p.places[n - 1], p.dups[n - 1]);
      ParseStepProvides(store, w, r, envs[n - 1], p.places[n - 1], p.dups[n - 1], f, n - 1);
      LaterIsTransitive(st.files, r.state.files, r'.state.files);
    }
  }

  /** The tenants' sources of these envelopes have directories of their own. */
  ghost predicate InUse(store: Store, envs: seq<Envelope>) {
    forall i :: 0 <= i < |envs| ==> RawStore.Key(envs[i].tenant, envs[i].source) in store.keys
  }

  lemma BatchBaseIsSound<C(!new)>(store: Store, w: World<C, Files>, st: State<C, Files>, envs: seq<Envelope>, f: Faults)
    requires Uses(store, w) && Sound(store, st) && InUse(store, envs)
    ensures var base, p := BaseOf(w, st, envs, f), AllOf(w, st, envs, f);
            && Sound(store, base) && Later(st.files, base.files)
            && forall i :: 0 <= i < |envs| ==> PlaceIsOk(store, w, base.files, envs[i], p.places[i], p.dups[i])
  {
    hide PlaceAll, Good, Provides, Later, IndexedAll, Known, EventOk, IsOwn;
    var recs, p := Records(w, envs), AllOf(w, st, envs, f);
    KnownArePlaces(st.raw, recs, f);
    PlacesProvide(store, w, st.files, Known(st.raw, recs, f), recs, f, |recs|);
    AllProvideForever(store, st.files, p.files, st.raw, st.events);
    IndexedProvides(store, p.files, st.raw, p.news);
  }

  lemma KnownArePlaces(raw: RawIndex, recs: seq<Record>, f: Faults)
    ensures forall k :: k in Known(raw, recs, f) ==> k in raw && Known(raw, recs, f)[k] == raw[k].place
  {
  }

  lemma {:induction false} WrittenAreRows(store: Store, files: Files, rows: seq<Event>, f: Faults, n: nat)
    requires n <= |rows| && EventsProvide(store, files, rows)
    ensures EventsProvide(store, files, WrittenSingly(rows, f, n))
  {
    hide EventOk;
    if n > 0 { WrittenAreRows(store, files, rows, f, n - 1); }
  }

  /** A batch, whatever fails in it, keeps every place sound, and the places of its results are. */
  lemma BatchIsSound<C(!new)>(store: Store, w: World<C, Files>, st: State<C, Files>, envs: seq<Envelope>, f: Faults)
    requires Uses(store, w) && Sound(store, st) && InUse(store, envs)
    ensures var (st', results) := Batch(w, st, envs, f);
            && Sound(store, st') && Later(st.files, st'.files)
            && (results.Some? ==> EventsProvide(store, st'.files, results.value))
  {
    hide PlaceAll, ParseAll, Good, Provides, Later, IndexedAll, Known, WrittenSingly, UpsertedAll, Uses, AllDecodable,
      EventOk, PlaceIsOk;
    NoLater(st.files);
    var p, base := AllOf(w, st, envs, f), BaseOf(w, st, envs, f);
    BatchBaseIsSound(store, w, st, envs, f);
    ParsingProvides(store, w, base, envs, p, f, |envs|);
    var r := ParseAll(w, base, envs, p, f, |envs|);
    LaterIsTransitive(st.files, base.files, r.state.files);
    WrittenAreRows(store, r.state.files, Rows(r.results, r.kept), f, |Rows(r.results, r.kept)|);
  }

  // ------------------------------------------------------------ one envelope

  lemma {:induction false} LocatedProvides<C(!new)>(store: Store, w: World<C, Files>, st: State<C, Files>, rec: Record)
    requires Uses(store, w) && Sound(store, st) && rec.key in store.keys && rec.rawId == store.codec.sha256(rec.payload)
    ensures var l := Locate(w, st.raw, st.files, rec);
            && Good(store, l.files) && Later(st.files, l.files)
            && RawProvides(store, l.files, st.raw) && EventsProvide(store, l.files, st.events)
            && RawProvides(store, l.files, l.raw) && Provides(store, l.files, l.place, rec.rawId)
            && (l.dup.None? ==> IsOwn(store, l.files, l.place, rec))
  {
    hide Good, Provides, Later, EventsProvide, IsOwn;
    NoLater(st.files);
    if RawKey(rec) !in st.raw {
      AppendedProvides(store, st.files, rec);
      AllProvideForever(store, st.files, w.append(st.files, rec).0, st.raw, st.events);
    }
  }

  lemma OneMoreProvides(store: Store, files: Files, events: seq<Event>, ev: Event)
    requires EventsProvide(store, files, events) && EventOk(store, files, ev)
    ensures EventsProvide(store, files, events + [ev])
  {
    hide EventOk;
  }

  lemma {:induction false} AttemptIsSound<C(!new)>(store: Store, w: World<C, Files>, st: State<C, Files>,
      env: Envelope, b: Broken)
    requires Uses(store, w) && Sound(store, st) && RawStore.Key(env.tenant, env.source) in store.keys
    ensures var o := Attempted(w, st, env, b);
            && Sound(store, o.state) && Later(st.files, o.state.files)
            && (o.event.Some? ==> EventOk(store, o.state.files, o.event.value))
  {
    hide Good, Provides, Later, Degraded, Upserted, Locate, RawProvides, EventsProvide, EventOk, EventOf, IsOwn;
    var rec := RecordOf(w, env, Payload(w, env));
    NoLater(st.files);
    LocatedProvides(store, w, st, rec);
    var l := Locate(w, st.raw, st.files, rec);
    var c := w.compute(st.inner, env, rec, l.dup);
    if c.Finished? {
      EventIsOk(store, w, l.files, env, l.place, l.dup, c.parsed);
      OneMoreProvides(store, l.files, st.events, EventOf(env, rec, l.place, l.dup, c.parsed));
    }
  }

  lemma {:induction false} RescueIsSound<C(!new)>(store: Store, w: World<C, Files>, st: State<C, Files>,
      env: Envelope, b: Broken, error: string, f: Faults)
    requires Uses(store, w) && Sound(store, st) && RawStore.Key(env.tenant, env.source) in store.keys
    ensures var (st', ev) := Rescued(w, st, env, b, error, f);
            && Sound(store, st') && Later(st.files, st'.files)
            && (ev.Some? ==> EventOk(store, st'.files, ev.value))
  {
    hide Attempted, Emergency, Sound, EventOk, Later, Uses;
    AttemptIsSound(store, w, st, env, b);
    var o := Attempted(w, st, env, b);
    if o.event.None? && Decodable(w, env) {
      EmergencyIsSound(store, w, o.state, env, error, f, 0);
      LaterIsTransitive(st.files, o.state.files, Emergency(w, o.state, env, error, f, 0).0.files);
    }
  }

  // ------------------------------------------------------------ all histories

  /** Work of the pipeline under any failures, and what the raw store does in between. */
  datatype Act =
    | Batched(envs: seq<Envelope>, f: Faults)
    | Single(env: Envelope, b: Broken, error: string, f: Faults)
    | Disk(op: RawStore.Op)

  ghost function Done<C>(store: Store, w: World<C, Files>, st: State<C, Files>, act: Act): State<C, Files> {
    match act
    case Batched(envs, f) => Batch(w, st, envs, f).0
    case Single(env, b, error, f) => Rescued(w, st, env, b, error, f).0
    case Disk(op) =>
      if op.Append? || !RawStore.Wellformed(st.files.disk) then st
      else st.(files := st.files.(disk := RawStore.Step(store.cfg, store.codec, st.files.disk, op)))
  }

  ghost function AfterActs<C>(store: Store, w: World<C, Files>, st: State<C, Files>, acts: seq<Act>): State<C, Files> {
    if acts == [] then st else Done(store, w, AfterActs(store, w, st, acts[..|acts| - 1]), acts[|acts| - 1])
  }

  ghost predicate ActInUse(store: Store, act: Act) {
    match act
    case Batched(envs, _) => InUse(store, envs)
    case Single(env, _, _, _) => InUse(store, [env])
    case Disk(_) => true
  }

  lemma {:induction false} DiskIsSound<C>(store: Store, st: State<C, Files>, op: RawStore.Op)
    requires Sound(store, st) && !op.Append?
    ensures Sound(store, st.(files := st.files.(disk := RawStore.Step(store.cfg, store.codec, st.files.disk, op))))
  {
    hide RawStore.Represents, RawStore.Step, RawStore.DirOf, Provides, EventOk;
    RawStore.DiskStepKeepsStreams(store.cfg, store.codec, st.files.disk, st.files.streams, op, store.keys);
    var files' := st.files.(disk := RawStore.Step(store.cfg, store.codec, st.files.disk, op));
    forall place, hash | Provides(store, st.files, place, hash) ensures Provides(store, files', place, hash) {
      SameStreams(store, st.files, files', place, hash);
    }
    NoLater(st.files);
    assert Later(st.files, files');
    forall i | 0 <= i < |st.events| ensures EventOk(store, files', st.events[i]) {
      OkForever(store, st.files, files', st.events[i]);
    }
  }

  lemma SameStreams(store: Store, files: Files, files': Files, place: Place, hash: string)
    requires files.streams == files'.streams
    ensures Provides(store, files, place, hash) == Provides(store, files', place, hash)
  {
  }

  lemma {:induction false} HistoriesAreSound<C(!new)>(store: Store, w: World<C, Files>, st: State<C, Files>,
      acts: seq<Act>)
    requires Uses(store, w) && Sound(store, st) && forall i :: 0 <= i < |acts| ==> ActInUse(store, acts[i])
    ensures Sound(store, AfterActs(store, w, st, acts))
  {
    hide Sound, Uses, Batch, Rescued;
    if acts != [] {
      var init, act := acts[..|acts| - 1], acts[|acts| - 1];
      HistoriesAreSound(store, w, st, init);
      var s := AfterActs(store, w, st, init);
      match act {
        case Batched(envs, f) => BatchIsSound(store, w, s, envs, f);
        case Single(env, b, error, f) =>
          assert [env][0] == env;
          RescueIsSound(store, w, s, env, b, error, f);
        case Disk(op) => if !op.Append? { DiskIsSound(store, s, op); }
      }
    }
  }

  /** Raw is truth: after any history of batches and single envelopes, with whatever failures, rotations, flushes and
      restarts, every stored event that names a place in the raw store can be read back from there, and the payload
      read has the hash the event is named by. If the event repeats nothing, the line read is its own: it says the
      same of the message as the event. */
  lemma {:induction false} EventsReadBack<C(!new)>(store: Store, w: World<C, Files>, st: State<C, Files>,
      acts: seq<Act>, order: seq<RawStore.Key>, i: nat)
    requires Uses(store, w) && Sound(store, st) && forall n :: 0 <= n < |acts| ==> ActInUse(store, acts[n])
    requires var st' := AfterActs(store, w, st, acts);
             i < |st'.events| && RawStore.CoversOpen(st'.files.disk, order)
    ensures var st' := AfterActs(store, w, st, acts);
            var ev := st'.events[i];
            ev.place.At? ==>
              var result := RawStore.ReadBack(store.codec, st'.files.disk, order, ev.place.loc);
              result.Payload? && store.codec.sha256(result.bytes) == ev.rawId
    ensures var st' := AfterActs(store, w, st, acts);
            var ev := st'.events[i];
            ev.place.At? && ev.duplicateOf.None? ==>
              var result := RawStore.LineReadBack(store.codec, st'.files.disk, order, ev.place.loc);
              && result.Loaded?
              && result.line.rawId == ev.rawId && result.line.sourceId == ev.source
              && result.line.transport == ev.transport && result.line.peer == ev.peer
              && result.line.receivedAt == ev.receivedAt
  {
    hide AfterActs, RawStore.Represents, RawStore.ReadBack, RawStore.LineReadBack, Uses, RawStore.DirOf, IsOwn;
    HistoriesAreSound(store, w, st, acts);
    var st' := AfterActs(store, w, st, acts);
    var ev := st'.events[i];
    assert EventOk(store, st'.files, ev);
    if ev.place.At? {
      assert Provides(store, st'.files, ev.place, ev.rawId);
      var rec: Record :| RawStore.Holds(st'.files.streams, ev.place.loc, store.codec.Encode(rec)) &&
          store.codec.sha256(rec.payload) == ev.rawId;
      RawStore.HeldReadsBack(store.codec, st'.files.disk, st'.files.streams, order, ev.place.loc, rec);
      if ev.duplicateOf.None? {
        var payload: Bytes :| store.codec.sha256(payload) == ev.rawId
          && IsOwn(store, st'.files, ev.place, RecordFor(ev, payload));
        OwnIsHeld(store, st'.files, ev.place, RecordFor(ev, payload));
        RawStore.HeldReadsBack(store.codec, st'.files.disk, st'.files.streams, order, ev.place.loc,
            RecordFor(ev, payload));
      }
    }
  }

  lemma OwnIsHeld(store: Store, files: Files, place: Place, rec: Record)
    requires IsOwn(store, files, place, rec) && place.At?
    ensures RawStore.Holds(files.streams, place.loc, store.codec.Encode(rec))
  {
  }
}

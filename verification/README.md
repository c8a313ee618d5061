# Verified model of the log pipeline's core

The repository is a log pipeline: a collector frames and forwards lines, a queue delivers them to workers, a worker
stores each payload in an append-only raw store, parses it, watches for drift, and writes normalized events. This
project models its self-contained algorithms and state machines in Dafny and proves what they promise. Check all of
it with `dafny verify dfyconfig.toml`.

| file | component |
|---|---|
| Evolution.dfy | label transfer between templates by global alignment |
| RawStore.dfy | the append-only raw store: segments, buffers, rotation, compression, reopening |
| Pipeline.dfy | one envelope at a time, the batch, and the SQL tables both write |
| Provenance.dfy | the pipeline over the modelled raw store: from an event back to its payload |
| Divergence.dfy, ParserDrift.dfy | Jensen-Shannon divergence; the windowed drift detector |
| Similarity.dfy | the de-duplicating similarity index |
| Delivery.dfy | the Redis consumer group and the worker loop |
| Worker.dfy | the worker loop over the pipeline: what an acknowledgement is worth |
| Framing.dfy, Batcher.dfy | the collector's TCP framing and its batcher |
| Routing.dfy, CircuitBreaker.dfy | the routing cache; the sidecar's circuit breaker |
| Paths.dfy, NestedDict.dfy | flattening, and building nested objects from dotted paths |
| Ulid.dfy | time-ordered identifiers |
| Basics.dfy | types and small facts the modules share |

Each module states what an operation does as a function of values, proves the operation's step-by-step form (a class,
a method with loops, an array) against it, and proves the promises about the function as lemmas. The two protocols
with concurrency, delivery and the batcher, are state machines whose steps interleave freely.

Foreign code appears as function parameters with stated laws: JSON and base64 are inverse pairs and SHA-256 has no
collisions (raw store), the binary logarithm turns products into sums and lies below its tangent at 1 (divergence).
The laws are gathered in `Codec.Lawful` and `Log.Lawful`. Clock readings, random bits, token classes, parser scores,
the outcome of each network call and the failure of each statement are inputs.

## What the code does not keep

Where the code falls short of its documentation, the model follows the code and a lemma says exactly when.

- The collector's header comment says that a failed forward never drops a batch (main.go, lines 9-10). A batch is
  dropped if and only if five posts fail: `Batcher.Send`, `Batcher.FiveFailuresDrop`.
- `process` and `process_batch` are documented never to raise. Both do if and only if a payload is not base64, because
  the emergency path decodes it again and the batch decodes all payloads first; one such envelope takes its whole
  batch down: `Pipeline.ProcessIsTotalIffDecodable`, `Pipeline.OneEventPerEnvelope`. The worker then acknowledges the
  batch although nothing of it is stored: `Worker.AckedIsAnsweredIffBatchesAreClean`.
- `process` writes the event before it counts the source. Exactly when only the count fails and the emergency event can
  be written, two events are stored for the envelope: `Pipeline.StoredTwiceIffCountFails`.
- A failed raw append is never made good. A content's row is left without a place if and only if, in a batch without a
  payload that is not base64, the append failed at its first envelope and the index statement worked; later copies are
  then taken for duplicates of nothing, even if the emergency path has stored the payload:
  `Pipeline.LostIffFirstAppendFails`, `Pipeline.LaterDuplicateIsLostIff`.
- The first records of two sources share byte ranges if and only if the sources' paths lead to one directory:
  `RawStore.FirstAppendsOverlapIffOneDirectory`. Names that differ in replaced characters do, and names of dots alone:
  `RawStore.TwoSourcesCollide`, `RawStore.DotsCollide`, `RawStore.PlainKeysCollideIffSlugsAgree`.
- The breaker's count is reset before the body is decoded, so responses without a JSON body never open it, if and only
  if more than one failure is required: `CircuitBreaker.BoundedIffFirstFailureOpens`.
- The routing cache changes no choice if and only if a parser that wins one event with confidence wins every other event
  of its shape that has a winner: `Routing.RegistryIsTransparentIffShapesDecide` for one registry,
  `Routing.CacheIsTransparentIffShapesDecide` over all histories. It also misroutes where a pack is registered under a
  structural parser's id, or registered or replaced between a scan and its cache write, each exactly as stated by
  `Routing.SharedIdsMisroute`, `Routing.LateMemoryOfNewPack` and `Routing.LateMemoryOfReplacedPack`.
- The size limit holds for every append to an open segment, `RawStore.SegmentsAreBounded`, but is not checked when the
  day's last plain file is resumed without one: `RawStore.AppendGoesTo`.
- A flat dictionary has at most 500 keys only up to the scalars of the objects entered before: `Paths.KeysAreBounded`.
- Normalization loses a value if and only if one dotted path is a prefix of another: `Paths.AllKeptIffPrefixFree`.
- Transfer between templates scores 1 for insertions only if there is a label at all: `Evolution.InsertionOnlyScoresOne`.
- Identifiers decode to their value if and only if the timestamp is below 2^50: `Ulid.IdentifierDecodes`.

## Model

| member | source | states |
|---|---|---|
| `Evolution.Align` | uli/drift/evolution.py:33-64 | the result is the one global alignment that is worth most, counting 4 for each pair of equal classes and 3 for each near pair, and of several the one with a pair rather than a gap, then an old index alone rather than a new one, at the last column where they differ |
| `Evolution.FillTable` | uli/drift/evolution.py:40-50 | every entry of the two-dimensional table holds the best score of its pair of prefixes, as defined by an independent recursion |
| `Evolution.FillRow` | uli/drift/evolution.py:45-50 | one pass of the inner loop completes one row and leaves the first column alone |
| `Evolution.WalkBack` | uli/drift/evolution.py:51-64 | the backward walk with its final reversal returns the alignment that the order of its three tests selects among the optimal ones |
| `Evolution.ExtendAlignment` | uli/drift/evolution.py:54-62 | each kind of column the walk appends extends an alignment by the next index of the sides it does not gap, and adds exactly its own cost |
| `Evolution.TraceIsAlignment` | uli/drift/evolution.py:51-64 | what the walk collects has every index of each side exactly once, in order, with no empty column, and scores what the table says |
| `Evolution.BestIsUpperBound` | uli/drift/evolution.py:45-50 | no alignment of two prefixes whatsoever scores more than the table entry |
| `Evolution.TraceIsOptimal` | uli/drift/evolution.py:33-64 | the walk's alignment is a maximum over all global alignments |
| `Evolution.CarriedIsMonotone` | uli/drift/evolution.py:75-83 | over any alignment, carried labels form a strictly increasing, hence injective, map from new to old indices, in range, between transferable classes only |
| `Evolution.CarriedIffPaired` | uli/drift/evolution.py:75-83 | a new index gets the name of an old one if and only if the alignment pairs the two, the old one has a label, and their classes are transferable |
| `Evolution.CarryOver` | uli/drift/evolution.py:73-83 | the loop over the columns returns the carried labels under their new indices, each with its own name, and counts each once |
| `Evolution.TransferLabels` | uli/drift/evolution.py:67-85 | the returned positions are the labels carried over the alignment of `Evolution.TraceIsTheAlignment`, with their names; the score is carried over labelled and lies between 0 and 1 |
| `Evolution.ScoreCountsMatches` | uli/drift/evolution.py:12-24 | for every alignment, score + n + m is exactly 4 times the pairs of equal classes plus 3 times the near pairs: a mismatch costs two gaps; the transferable pairs are these two kinds |
| `Evolution.TraceIsPreferred` | uli/drift/evolution.py:51-64 | of all alignments with the best score the walk's one has, read from the end, a pair before a gap and an old index alone before a new one alone |
| `Evolution.TraceIsTheAlignment` | uli/drift/evolution.py:19-64 | the walk's alignment has the greatest worth in pairs of classes of all alignments, and of those worth the same it is the preferred one: no costs and no table in the statement |
| `Evolution.TheAlignmentIsUnique` | uli/drift/evolution.py:33-64 | an alignment fits that description if and only if it is the walk's |
| `Evolution.BestBeatsCommonSubsequence` | uli/drift/evolution.py:45-50 | a common subsequence of length L gives a table entry of at least 4L - n - m |
| `Evolution.LostLabels` | uli/drift/evolution.py:75-83 | in-range labels that are lost are at most the old indices without a transferable partner |
| `Evolution.LossBound` | uli/drift/evolution.py:67-85 | an optimal alignment loses at most n - L in-range labels, for every common subsequence of length L of the two class sequences |
| `Evolution.InsertionOnlyKeepsAllLabels` | uli/drift/evolution.py:67-85 | drift that only inserts tokens keeps every in-range label; it keeps all labels if and only if all are in range |
| `Evolution.InsertionOnlyScoresOne` | uli/drift/evolution.py:84-85 | after insertions only, the score is 1 if and only if there is a label and none lies outside the old template; without labels it is 0 |
| `Evolution.SelfTrace` | uli/drift/evolution.py:51-64 | aligning a template with itself pairs every index with itself |
| `Evolution.SelfTransferIsIdentity` | uli/drift/evolution.py:67-85 | transferring a template's labels to itself is the identity on the labels in range |
| `RawStore.UpdatedRepresents` | uli/storage/raw_store.py:80-82 | changing one segment's file and buffer together changes exactly that segment's byte stream; every other file, open or not, keeps its own |
| `RawStore.SpilledKeepsStreams` | uli/storage/raw_store.py:48 | moving any part of a write buffer to disk changes no stream, so the moment at which a full buffer is written does not matter |
| `RawStore.DetachedKeepsStreams` | uli/storage/raw_store.py:88-90 | a flushed segment can be closed without any stream changing, and its file is then open under no other key |
| `RawStore.CompressedKeepsStreams` | uli/storage/raw_store.py:107-122 | whatever the compressed file reads back as, replacing the plain file only on equal digests keeps every stream |
| `RawStore.RetiredKeepsStreams` | uli/storage/raw_store.py:87-92 | flushing, closing and compressing the old segment keeps every stream |
| `RawStore.NextNoIsUsable` | uli/storage/raw_store.py:95-102 | the next segment number never names a compressed file, nor, after a rotation, an existing plain one |
| `RawStore.OpenedKeepsStreams` | uli/storage/raw_store.py:43-49 | opening a new file adds an empty stream, and reopening one resumes its stream at its end |
| `RawStore.RotatedKeepsStreams` | uli/storage/raw_store.py:86-105 | a rotation by size or by day, in whichever direction the day moves, keeps every stream |
| `RawStore.PreparedKeepsStreams` | uli/storage/raw_store.py:77-80 | whether or not an append rotates first, the segment it then writes to stands at the end of its stream |
| `RawStore.AppendedExtends` | uli/storage/raw_store.py:62-84 | an append extends one stream by its line, leaves the others, and returns the location of that line |
| `RawStore.FlushedAllKeepsStreams` | uli/storage/raw_store.py:124-127 | flushing the open segments in any order keeps every stream and empties their buffers |
| `RawStore.DiskStepKeepsStreams` | uli/storage/raw_store.py:124-161 | buffer spills, flushes and closes leave every stream as it is |
| `RawStore.AppendIsSafe` | uli/storage/raw_store.py:62-84 | an append lets streams grow at their ends and opens at most its own key |
| `RawStore.ReadsFromDisk` | uli/storage/raw_store.py:130-144 | with empty buffers, reading a location from the plain or the compressed file gives the bytes the stream holds there |
| `RawStore.StepIsSafe` | uli/storage/raw_store.py:52-161 | every operation, for any source, only lets streams grow at their ends |
| `RawStore.RunOnlyGrows` | uli/storage/raw_store.py:52-161 | over any run of appends, buffer spills, flushes and closes, from any consistent directory tree, streams only grow |
| `RawStore.LocationsStayValid` | uli/storage/raw_store.py:62-148 | every location an append returned reads back exactly that record's payload, and its line all other fields of the record, in every later state of the run |
| `RawStore.LocationsDoNotOverlap` | uli/storage/raw_store.py:80-84 | two appends of a run never get overlapping byte ranges of one segment |
| `RawStore.AppendGoesTo` | uli/storage/raw_store.py:77-105 | for every append in any state: the segment's directory is the key's and its day the record's; an open segment of that day with room for the line is kept, at its size; an open one otherwise gives way to offset 0 of a new segment numbered one higher than the day's last; without an open one the day's last plain file is resumed at its end, or a new one begun |
| `RawStore.SegmentsAreBounded` | uli/storage/raw_store.py:78 | with a segment open for the key, the line ends within max_bytes or stands at offset 0 of a segment that did not exist |
| `RawStore.NextNoIsNext` | uli/storage/raw_store.py:95-102 | the next number resumes the last plain segment, which only a key without an open one may, or is one higher than the last, or 1 |
| `RawStore.LeftSegment` | uli/storage/raw_store.py:86-122 | a segment that an append leaves keeps all its bytes, and is compressed if and only if compression is on and the compressed file reads back the same |
| `RawStore.ClosedIsOnDisk` | uli/storage/raw_store.py:153-161 | after closing no segment is open and the files alone are the streams |
| `RawStore.StoredLineDescribes` | uli/storage/raw_store.py:65-75 | the stored line of a record, loaded again, has the record's id, time, source, transport, peer, length and payload |
| `RawStore.SlugKeepsIff` | uli/storage/raw_store.py:26-30 | a name is its own directory name if and only if it has 1 to 120 characters, all of them allowed; every directory name is of that kind |
| `RawStore.SlugExamples` | uli/storage/raw_store.py:26-30 | two different names can have one directory name |
| `RawStore.TwoSourcesCollide` | uli/storage/raw_store.py:29-30 | sources `a/b` and `a b` of one tenant share a directory |
| `RawStore.DotsCollide` | uli/storage/raw_store.py:93 | the sources `..` of any two tenants share the root directory, and a source `.` shares with the source of its tenant's name under the tenant `.` |
| `RawStore.PlainKeysCollideIffSlugsAgree` | uli/storage/raw_store.py:93 | keys whose slugs are not `.` or `..` share a directory if and only if both slugs agree |
| `RawStore.FirstAppendsOverlapIffOneDirectory` | uli/storage/raw_store.py:93-105 | the first appends of two keys on a day get overlapping ranges if and only if the keys' paths lead to one directory, `.` and `..` resolved |
| `RawStore.LocalRawStore.constructor` | uli/storage/raw_store.py:52-59 | a store over the files of an earlier process starts with their bytes as its streams and no location handed out |
| `RawStore.LocalRawStore.Append` | uli/storage/raw_store.py:62-84 | the new state and location are those of the specification, and the segment is the one of `RawStore.AppendGoesTo`; if no other open segment lives in the key's directory, every location ever returned still holds its record |
| `RawStore.LocalRawStore.Prepare` | uli/storage/raw_store.py:77-79 | the segment to write to is the open one, or the one a rotation opens; `RawStore.AppendGoesTo` says which |
| `RawStore.LocalRawStore.Write` | uli/storage/raw_store.py:80-84 | the line joins the buffer, and the location is the old size with the line's length |
| `RawStore.LocalRawStore.Rotate` | uli/storage/raw_store.py:86-105 | the step-by-step rotation reaches the specified state |
| `RawStore.LocalRawStore.Retire` | uli/storage/raw_store.py:87-92 | flushing, closing and compressing reach the specified state |
| `RawStore.LocalRawStore.Compress` | uli/storage/raw_store.py:107-122 | of the two files exactly one is left, the plain one unless the digests agree |
| `RawStore.LocalRawStore.LastNumber` | uli/storage/raw_store.py:95-98 | the directory scan finds the highest segment number among plain and compressed files |
| `RawStore.LocalRawStore.NextNumber` | uli/storage/raw_store.py:96-101 | the number is one higher than the last unless the last plain segment is resumed |
| `RawStore.LocalRawStore.FlushSegments` | uli/storage/raw_store.py:124-127 | all buffers are empty and the streams are as before |
| `RawStore.LocalRawStore.ReadLine` | uli/storage/raw_store.py:130-144 | any bytes the streams hold at the location are what is read |
| `RawStore.LocalRawStore.ReadRecord` | uli/storage/raw_store.py:139-144 | for every location ever returned, the loaded line has all fields of that record |
| `RawStore.LocalRawStore.Read` | uli/storage/raw_store.py:146-148 | for every location ever returned, the result is that record's payload |
| `RawStore.LocalRawStore.Verify` | uli/storage/raw_store.py:150-151 | for every location ever returned, the answer is whether the payload's digest is the expected one |
| `RawStore.LocalRawStore.Close` | uli/storage/raw_store.py:153-161 | no segment stays open, the files alone are the streams, and every location handed out stays valid |
| `Pipeline.BatchIsOneByOne` | uli/pipeline.py:124-213 | with working statements, a batch leaves the raw index, files, events in order and source rows, and returns the events with their duplicate marks, of one envelope at a time |
| `Pipeline.TablesAgreeIffAllFinish` | uli/pipeline.py:124-213 | a batch of base64 payloads leaves the tables of `_process_inner` one envelope at a time if and only if no envelope raises; any batch leaves the same events if and only if none raises, or some payload is not base64 and every envelope raises |
| `Pipeline.BatchIsProcess` | uli/pipeline.py:36-213 | whichever envelopes raise in parsing, a batch of base64 payloads leaves the contents, source rows and parser state of `process` one envelope at a time, and returns and stores the same events up to places and the order of storing |
| `Pipeline.ContentsAgree` | uli/pipeline.py:153-174 | the dedup loop and `process` know the same contents at every envelope, and index the same rows up to places |
| `Pipeline.SavedAgrees` | uli/pipeline.py:176-196 | the parse phase over any prefix matches `process` over it: parser state, events up to places, and deferred source counts |
| `Pipeline.MarksCommute` | uli/storage/sql.py:287-318 | marking a source degraded commutes with counting other events of the batch |
| `Pipeline.BatchStoresItsResults` | uli/pipeline.py:198-213 | while every event can be written in bulk or singly, the events stored by a batch of base64 payloads are exactly the ones it returns |
| `Pipeline.StoredIffOwnWriteWorks` | uli/pipeline.py:180-213 | under any failures, a batch of base64 payloads stores exactly those results, each once, whose own bulk, single or emergency write works; another batch stores nothing |
| `Pipeline.BoundariesDoNotMatter` | uli/pipeline.py:124-213 | two batches one after the other leave the tables and return the events of the one batch of both |
| `Pipeline.PlacesAgree` | uli/pipeline.py:143-174 | after n envelopes the dedup loop knows, and has appended and is about to index, exactly what one at a time has by then |
| `Pipeline.PlaceOf` | uli/pipeline.py:153-169 | each envelope of a batch gets the place and the duplicate mark it would get one at a time |
| `Pipeline.CountsCommute` | uli/storage/sql.py:287-318 | marking a source degraded and counting its events can be exchanged, so counts may be deferred to the end of the batch |
| `Pipeline.SourcesAfterBatch` | uli/pipeline.py:176-212 | for any batch and any faults, the row of every source: if the tenant's statement works and some of the source's envelopes parsed, its count is the old one (0 if new) plus their number and transport and parser id are those of the last of them; else these three fields are as before; it is marked degraded if and only if it was or some parse found drift; no other row appears |
| `Pipeline.OneEnvelopeCounts` | uli/pipeline.py:36-66 | for one envelope, whatever raises: its source counts one more, with its transport and parser, if and only if every statement came through; the event then carries the parse result, else the emergency one; no other row changes |
| `Pipeline.ParsingAgrees` | uli/pipeline.py:176-196 | the parse phase over any prefix of the batch matches the run of single envelopes: parser state, events, and the deferred source counts |
| `Pipeline.OneByOneConcat` | uli/pipeline.py:50-66 | a run over two sequences is the run over the first continued with the second |
| `Pipeline.PartsFinish` | uli/pipeline.py:124-213 | if every envelope of a sequence parses, so do those of its two halves, the second from the state the first leaves |
| `Pipeline.DuplicateIffSeenBefore` | uli/pipeline.py:54-61 | an event is marked a duplicate if and only if its content was indexed before the run or came with an earlier envelope of the tenant |
| `Pipeline.SameContentSamePlace` | uli/pipeline.py:54-61 | all events of a run with one tenant and content point to one place, that of the index at the end |
| `Pipeline.IndexedIffSeen` | uli/storage/sql.py:169-173 | a run indexes exactly the contents of its envelopes and never changes a row |
| `Pipeline.ProcessIsTotalIffDecodable` | uli/pipeline.py:36-48 | whichever statement raises, `process` returns an event with the payload's hash, tenant, project, source, transport, peer and time if and only if the payload is base64; otherwise it raises too, and changes nothing |
| `Pipeline.StoredTwiceIffCountFails` | uli/pipeline.py:41-46 | `process` stores two events for one envelope if and only if only the source count fails and the emergency event can be written, and none if and only if neither event could be written |
| `Pipeline.OneEventPerEnvelope` | uli/pipeline.py:124-239 | under any pattern of failing statements and raising parses, a batch returns one event per envelope, at its index, with its payload's hash, tenant, project, source, transport, peer and time, if and only if all payloads are base64; otherwise it raises and changes nothing |
| `Pipeline.BatchEventsAreComputed` | uli/pipeline.py:68-196 | under any faults, each event of a batch carries what parsing its own envelope came to, or the emergency result with that error, and the content it repeats; the parse state is handed on from one envelope to the next and nothing else is |
| `Pipeline.BatchDuplicateIff` | uli/pipeline.py:139-169 | under any faults, an envelope of a batch is marked a duplicate if and only if its content is indexed and the lookup worked, or came with an earlier envelope; all envelopes of a content get one place, the indexed one if known; a first one lacks a place if and only if its append failed |
| `Pipeline.StoredInOrder` | uli/pipeline.py:180-213 | a batch of base64 payloads appends the emergency events that could be written and then, in order, the rows of exactly the envelopes that parsed, less those whose single write failed after the bulk insert; another batch stores nothing |
| `Pipeline.KeptIffParses` | uli/pipeline.py:180-194 | an envelope's event is kept for the bulk insert if and only if parsing it did not raise |
| `Pipeline.ParsedSalvages` | uli/pipeline.py:191-194 | the parse phase writes exactly the emergency events whose own write works, in order |
| `Pipeline.KnownOfContent` | uli/pipeline.py:156-169 | a content becomes known with its first envelope, and with the outcome of that envelope's append |
| `Pipeline.PlacesOfContent` | uli/pipeline.py:156-174 | the row and every place given out for a new content are those of its first append |
| `Pipeline.LostIffFirstAppendFails` | uli/pipeline.py:133-174 | after a batch, under any faults, the row of a new content has no place if and only if all payloads are base64, the bulk index statement worked and the append failed at the content's first envelope; no later append repairs it |
| `Pipeline.LaterDuplicateIsLostIff` | uli/pipeline.py:54-61 | the next arrival of the content ends in an event without a place under exactly the same condition; it is then marked a duplicate and nothing is appended for it |
| `Pipeline.BatchEventIsLostIff` | uli/pipeline.py:153-185 | within a batch that does not raise, a parsed event of a new content lacks a place if and only if the content's first append failed |
| `Pipeline.SqlStorage.FindRawLocations` | uli/storage/sql.py:175-181 | exactly the tenant's indexed contents among those asked for, with their places |
| `Pipeline.SqlStorage.IndexRaw` | uli/storage/sql.py:169-173 | a row is inserted if the tenant has none for the content, and no row is changed |
| `Pipeline.SqlStorage.IndexRawBulk` | uli/storage/sql.py:183-195 | the one statement equals single inserts in order, all or nothing |
| `Pipeline.SqlStorage.WriteEvent` | uli/storage/sql.py:206-219 | the event is the last row, or the table is unchanged |
| `Pipeline.SqlStorage.WriteEventsBulk` | uli/storage/sql.py:221-240 | the rows are appended in order, all or none |
| `Pipeline.SqlStorage.UpsertSource` | uli/storage/sql.py:287-298 | the row's count grows by the increment, from 0 if it is new, transport and parser are replaced, health stays, and no other row changes |
| `Pipeline.SqlStorage.UpsertSourcesBulk` | uli/storage/sql.py:300-318 | each of the tenant's sources in the statement grows by its increment and takes its transport and parser, all or none; every other row stays |
| `Pipeline.SqlStorage.MarkDegraded` | uli/drift/parser_drift.py:102-104 | only the health of one row changes, and the row is inserted with no events if it is missing |
| `Pipeline.Runner.Compute` | uli/pipeline.py:68-121 | parsing touches only its own state and the source's health |
| `Pipeline.Runner.ProcessInner` | uli/pipeline.py:50-66 | one envelope, with whichever statement raises, leaves the specified state |
| `Pipeline.Runner.Process` | uli/pipeline.py:36-48 | an event comes back if and only if the payload is base64 |
| `Pipeline.Runner.LookUp` | uli/pipeline.py:139-151 | per-tenant lookups together know the indexed contents of the batch, less those of tenants whose lookup fails |
| `Pipeline.Runner.AppendNew` | uli/pipeline.py:153-169 | the dedup loop assigns the specified places, duplicate marks and index rows |
| `Pipeline.Runner.PlaceBatch` | uli/pipeline.py:132-174 | phase 1 reaches the specified files and raw index |
| `Pipeline.Runner.ParseOne` | uli/pipeline.py:183-194 | one envelope of phase 2 ends in an event to keep or in a written emergency event |
| `Pipeline.Runner.ParseBatch` | uli/pipeline.py:176-196 | phase 2 reaches the specified state, events, rows and counts |
| `Pipeline.Runner.EmergencyEvent` | uli/pipeline.py:215-239 | the payload is stored again if possible, indexed if it was not, and the minimal event written if possible |
| `Pipeline.Runner.WriteRows` | uli/pipeline.py:198-207 | a failed bulk insert falls back to single writes that lose exactly the rows whose write fails |
| `Pipeline.Runner.CountSources` | uli/pipeline.py:208-212 | every source of a tenant whose statement works grows by its own increment once, all other rows stay |
| `Pipeline.Runner.DecodeAll` | uli/pipeline.py:133-137 | all payloads are decoded, or none if one is not base64 |
| `Pipeline.Runner.ProcessBatch` | uli/pipeline.py:124-213 | decoding, both phases and the writes reach the specified state and events under any faults; it raises if and only if some payload is not base64 |
| `Provenance.AppendedProvides` | uli/pipeline.py:54-61 | an append to the modelled raw store keeps every stored payload readable, and its own location holds its record |
| `Provenance.BatchIsSound` | uli/pipeline.py:124-239 | a batch, whatever fails in it, keeps every indexed and stored place leading to the payload it is named by, and so do the places of its results |
| `Provenance.RescueIsSound` | uli/pipeline.py:36-66 | so does `process`, whichever statement raises |
| `Provenance.HistoriesAreSound` | uli/pipeline.py:28-239 | so does any history of batches, single envelopes, buffer spills, flushes and restarts |
| `Provenance.EventsReadBack` | uli/storage/raw_store.py:139-151 | after any such history, every stored event that names a place reads back from there, and the payload read has the hash the event is named by; the line of an event that repeats nothing is its own: id, source, transport, peer and time are the event's |
| `Divergence.JsDivergence` | uli/drift/parser_drift.py:21-37 | the summing loops compute the divergence, which lies in [0, 1] |
| `Divergence.SumOrder` | uli/drift/parser_drift.py:30-35 | termwise order carries over to sums over key sets, with equality only if all terms agree |
| `Divergence.KeyTermRange` | uli/drift/parser_drift.py:30-37 | one key contributes between 0 and its two shares: 0 only for equal shares, all of them only if one share is 0 |
| `Divergence.JsIsSumOfKeyTerms` | uli/drift/parser_drift.py:21-37 | the two directed sums regroup key by key |
| `Divergence.JsEnds` | uli/drift/parser_drift.py:21-37 | 0 if and only if the normalised histograms agree; the upper end if and only if no shape has a count in both, empty histograms included |
| `Divergence.JsRange` | uli/drift/parser_drift.py:21-37 | the divergence lies in [0, 1] |
| `Divergence.JsIsOneIffDisjoint` | uli/drift/parser_drift.py:21-37 | for non-empty histograms it is 1 if and only if the supports are disjoint |
| `Divergence.JsAgainstEmpty` | uli/drift/parser_drift.py:25 | against an empty histogram it is one half, not 1 |
| `Divergence.JsIsSymmetric` | uli/drift/parser_drift.py:21-37 | exchanging the histograms changes nothing |
| `Divergence.GuardIsHarmless` | uli/drift/parser_drift.py:33 | the guard on the midpoint never drops a term: a positive share has a positive midpoint |
| `ParserDrift.KeysAreIndependent` | uli/drift/parser_drift.py:62-106 | in any interleaving a key's state and results are those of its own observations alone |
| `ParserDrift.ObservedByVerdict` | uli/drift/parser_drift.py:85-94 | a window's verdict alone decides the hit counter and whether an event fires |
| `ParserDrift.EventsCountDriftedRuns` | uli/drift/parser_drift.py:86-94 | the number of events is the sum, over the maximal runs of drifted windows, of length div k, and the counter holds the last remainder |
| `ParserDrift.RunConserves` | uli/drift/parser_drift.py:66-82 | sizes of closed windows plus the open one equal the observations, and a reference once set stays |
| `ParserDrift.WindowCloses` | uli/drift/parser_drift.py:66-77 | a window that fills up is judged on the histogram, count and confidence sum of exactly its observations, and nothing fires before |
| `ParserDrift.HistFacts` | uli/drift/parser_drift.py:68 | a window's histogram has exactly the observed shapes, each counted, with as many counts as observations |
| `ParserDrift.RoundedIsNear` | uli/drift/parser_drift.py:99 | a reported number has four decimals and differs by half a unit of the fourth at most, on a tie to the even side |
| `ParserDrift.EventTells` | uli/drift/parser_drift.py:95-101 | an event names its source and parser, both histograms and the window size, its numbers are the divergence, the reference mean and the average, and its reason is the test that was met |
| `ParserDrift.ClosesIff` | uli/drift/parser_drift.py:66-77 | a window closes if and only if it is full or too old, and its age counts from its opening |
| `ParserDrift.ReplacedWindows` | uli/drift/parser_drift.py:62-106 | after j windows of replaced shapes the counter stands at j and only the k-th has fired |
| `ParserDrift.FirstEventAfterKWindows` | uli/drift/parser_drift.py:62-106 | if all shapes are replaced after the reference window, the first event comes with observation W + k W exactly |
| `ParserDrift.SmoothingLaw` | uli/drift/parser_drift.py:71-72 | after n observations at confidence c the average is c + 0.9^n (e0 - c), across windows |
| `ParserDrift.DriftedIffLow` | uli/drift/parser_drift.py:83-85 | with unchanged shares a window has drifted if and only if the reference mean is above the average by more than the setting |
| `ParserDrift.FadedWindow` | uli/drift/parser_drift.py:62-106 | a window of unchanged shares at confidence c drifts if and only if c + 0.9^W (e - c) lies more than the setting below the reference mean; only its last observation can fire |
| `ParserDrift.EventsCountLowRuns` | uli/drift/parser_drift.py:62-106 | over any number of such windows after the reference window, the events are the sum of length div k over the runs of windows that end low |
| `ParserDrift.FirstConfidenceEvent` | uli/drift/parser_drift.py:62-106 | if the a-th window after the reference window is the first to end low and k - 1 more follow, the first event comes with the last observation of the last of them, for falling confidence |
| `ParserDrift.AverageIsBetween` | uli/drift/parser_drift.py:71-72 | at constant confidence the average moves towards it and never past it, so once low in falling it stays low |
| `ParserDrift.WindowsLowInTheEndIff` | uli/drift/parser_drift.py:84-85 | at confidence c all windows end low from some window on if the fall is larger than the setting, or just that size for an average still below c, and else none does from some window on |
| `ParserDrift.SteadyTrafficIsQuiet` | uli/drift/parser_drift.py:62-106 | windows in the reference's proportions at constant confidence never raise an event, whatever part of a further window follows |
| `ParserDrift.DriftMonitor.SetReference` | uli/drift/parser_drift.py:59-60 | only the one key's reference changes |
| `ParserDrift.DriftMonitor.Judge` | uli/drift/parser_drift.py:78-106 | an event comes if and only if there is a reference, the divergence or the fall of the average passes its threshold, and it is the k-th such window in a row; the key's reference or counter changes as specified, other keys do not; exactly a yielded event is stored and its source marked |
| `ParserDrift.DriftMonitor.Observe` | uli/drift/parser_drift.py:62-106 | one observation changes its key's four entries as specified and no other key's; exactly a returned event is stored and its source marked |
| `Similarity.GramsAreTriples` | uli/fingerprint.py:163-167 | for three parts or more, a gram is exactly three neighbouring parts joined by single spaces, the first three and the last three included |
| `Similarity.GramsAreEmptyIff` | uli/fingerprint.py:163-167 | a shape has no grams if and only if it has no parts |
| `Similarity.SharedGramIffSharedTriple` | uli/fingerprint.py:163-174 | two shapes of three parts or more share a gram if and only if they share three neighbouring parts |
| `Similarity.JaccardIsShare` | uli/fingerprint.py:170-174 | the overlap is the size of the intersection over the size of the union |
| `Similarity.JaccardRange` | uli/fingerprint.py:170-174 | the overlap is symmetric, in [0, 1], and 1 if and only if the sets are equal and not empty |
| `Similarity.Regions` | uli/fingerprint.py:170-174 | the counting inequality behind the triangle inequality |
| `Similarity.JaccardTriangle` | uli/fingerprint.py:170-174 | 1 - J obeys the triangle inequality, empty sets included |
| `Similarity.UncappedIsKept` | uli/detection/similarity.py:21-27 | until a list exceeds 200 references it holds exactly the additions that had no near-duplicate before them |
| `Similarity.EveryAdditionIsCovered` | uli/detection/similarity.py:24 | every shape ever added equals a kept reference of its parser or is more than 0.95 similar to one |
| `Similarity.ReferencesAreFarApart` | uli/detection/similarity.py:21-27 | in every history, evictions included, a parser has at most 200 references, pairwise at most 0.95 similar |
| `Similarity.ListIsLatest` | uli/detection/similarity.py:21-27 | in every history a parser's list is the latest 200 of the references ever taken in, in order: the oldest goes first |
| `Similarity.BestOfIsMaximum` | uli/detection/similarity.py:29-37 | a query finds the highest overlap of all references and the first parser that reaches it, or none if all are 0 |
| `Similarity.DroppingIsNearlyLossless` | uli/detection/similarity.py:21-37 | the best match scores more than J(q, s) - 0.05 for every shape s ever added with J(q, s) > 0.05, while s's list is within the cap and ids are not empty |
| `Similarity.NoMatchIffNothingOverlaps` | uli/detection/similarity.py:29-37 | there is no match if and only if no reference overlaps the query, or the first parser with a best reference has no name |
| `Similarity.ScoresOneIff` | uli/detection/similarity.py:29-37 | a query scores 1 if and only if its own grams are a reference, and leads to the first parser that has them |
| `Similarity.AddThenQuery` | uli/detection/similarity.py:21-37 | a shape just added is found with a score above 0.95, and with 1 if and only if it was not dropped as nearly equal or is a reference already |
| `Similarity.SimilarityIndex.AddReference` | uli/detection/similarity.py:21-27 | the update in place is one step of the specified history, and the next query with the shape finds it as `Similarity.AddThenQuery` says |
| `Similarity.SimilarityIndex.BestMatch` | uli/detection/similarity.py:29-37 | the nested loops return the specified match |
| `Delivery.HistoryIsComplete` | uli/ingestion/queue.py:113-119 | a history read of a consumer with at most `count` pending returns all of them |
| `Delivery.ReadKeepsInv` | uli/ingestion/queue.py:117-119 | a read from either position keeps every message accounted for and bounds what its consumer has pending |
| `Delivery.ScanKeepsInv` | uli/ingestion/queue.py:126-133 | walking the reply, acknowledging poison messages one by one, keeps the rest pending at the same consumer |
| `Delivery.AckKeepsInv` | uli/workers/runner.py:39-41 | acknowledging a processed batch leaves the consumer with nothing pending |
| `Delivery.StepKeepsInv` | uli/workers/runner.py:31-41 | every step of the server and of any worker keeps the invariant, stops and crashes at any point included |
| `Delivery.RunKeepsInv` | uli/workers/runner.py:31-41 | the invariant holds in every state of every run |
| `Delivery.NothingIsLost` | uli/ingestion/queue.py:113-142 | at every moment each message is undelivered, or pending at one consumer, or acknowledged; acknowledged only if poison or handed to the pipeline; and no consumer has more than `count` pending |
| `Delivery.RestartRecoversEverything` | uli/ingestion/queue.py:115-119 | the single read from "0" after a start under the same name returns everything the name had pending, the batch left by a stop included; a reader of new messages has none pending |
| `Delivery.ExactlyOnceWithoutSuchCrash` | uli/workers/runner.py:31-41 | unless some process dies between processing and acknowledging, no message is handed to the pipeline twice |
| `Delivery.StreamHoldsPublished` | uli/ingestion/queue.py:106-111 | the stream holds as many messages as were published |
| `Delivery.BatchesAreOrdered` | uli/ingestion/queue.py:126-138 | in every run each batch is in stream order |
| `Delivery.TurnServesReply` | uli/ingestion/queue.py:116-138 | one turn of the loop hands over what can be decoded of the reply, in order, and acknowledges all of it |
| `Delivery.StreamIsServed` | uli/workers/runner.py:31-41 | from any reachable state a worker left to itself reads the stream to its end, hands over in order every message that can be decoded, and acknowledges all |
| `Delivery.RestartServesEverything` | uli/ingestion/queue.py:114-138 | a worker just started first hands over what its name had pending, in order, then the rest of the stream, and acknowledges all of it |
| `Worker.ProcessedIsAnswered` | uli/workers/runner.py:34-41 | a batch between processing and acknowledgement that did not raise has been answered |
| `Worker.AckedIsAnsweredIffBatchesAreClean` | uli/workers/runner.py:31-41 | at every moment of every run, every acknowledged message is poison or had its event returned, if and only if no acknowledged batch held a payload that is not base64 |
| `Worker.TablesHoldTheLog` | uli/workers/runner.py:31-41 | at every moment the events table holds what it held at the start and what was logged as stored for a message, nothing else and nothing twice |
| `Worker.LogAnswers` | uli/workers/runner.py:34-36 | every event logged for a message has that message's payload hash, tenant, project, source, transport, peer and time |
| `Worker.StoredIffOwnWriteWorks` | uli/workers/runner.py:34-36 | an event is stored for a message if and only if its own bulk, single or emergency write worked in some processed batch of base64 payloads that held it |
| `Worker.AckedIsStored` | uli/workers/runner.py:31-41 | acknowledged means poison or stored, while writes work and no acknowledged batch raised |
| `Framing.HandleTcp` | collector/cmd/uli-collector/main.go:154-187 | the reading loop adds exactly the specified messages in order and ends |
| `Framing.Turn1` | collector/cmd/uli-collector/main.go:159-185 | one turn of the loop, with every way of hanging up |
| `Framing.LengthField` | collector/cmd/uli-collector/main.go:164-171 | the length field written before a message is read back, and accepted if and only if it is between 1 and 2^20 |
| `Framing.CountedFrame` | collector/cmd/uli-collector/main.go:163-178 | an octet-counted message of any content comes out whole, and what follows is framed afresh |
| `Framing.LineFrame` | collector/cmd/uli-collector/main.go:179-185 | a newline-framed message comes out whole, and what follows is framed afresh |
| `Framing.LineWithReturns` | collector/cmd/uli-collector/main.go:179-182 | a sendable line with any number of carriage returns before its newline comes out as exactly the line |
| `Framing.UnterminatedLine` | collector/cmd/uli-collector/main.go:179-185 | a last line without a newline is delivered |
| `Framing.BlankLine` | collector/cmd/uli-collector/main.go:180 | a line of carriage returns only is no message |
| `Framing.SpaceWidthOf` | collector/cmd/uli-collector/main.go:168 | what is trimmed off a length field are exactly the Unicode white-space characters, in UTF-8 |
| `Framing.PaddedLength` | collector/cmd/uli-collector/main.go:168-171 | a length is read whatever white space follows it |
| `Framing.RoundTrip` | collector/cmd/uli-collector/main.go:154-187 | any mixed sequence of sendable messages of both framings comes out as exactly those messages in order, whatever follows |
| `Framing.LineArrivesIffSendable` | collector/cmd/uli-collector/main.go:179-185 | a newline-framed message arrives alone and unchanged if and only if it is not empty, has no LF, no trailing CR and no digit first |
| `Framing.CountedArrivesIffSendable` | collector/cmd/uli-collector/main.go:163-178 | an octet-counted message arrives if and only if its length is between 1 and 2^20 |
| `Framing.FramesAreShorter` | collector/cmd/uli-collector/main.go:154-187 | the loop never adds a message longer than the bytes received |
| `Batcher.StepKeepsInv` | collector/cmd/uli-collector/main.go:62-115 | every critical section and every post keeps conservation and the bound, in any interleaving |
| `Batcher.RunKeepsInv` | collector/cmd/uli-collector/main.go:62-115 | the invariant holds in every state of every run |
| `Batcher.LinesAreConserved` | collector/cmd/uli-collector/main.go:62-115 | the batches taken for a source, in take order, followed by its buffer are its arrival sequence; no batch is empty; each is being sent, delivered, or dropped after exactly five failures |
| `Batcher.BatchesAreBounded` | collector/cmd/uli-collector/main.go:62-70 | a full buffer always has an adder about to flush it, and exceeds the limit by fewer lines than there are such adders |
| `Batcher.OneFlushPerFullAdd` | collector/cmd/uli-collector/main.go:62-70 | adders flush once for every add that leaves the buffer full, and not otherwise |
| `Batcher.RoundSweepsAll` | collector/cmd/uli-collector/main.go:72-85 | when a round of the ticker is over, every line that had arrived before it is in a batch, whatever adders and senders did meanwhile |
| `Batcher.FiveFailuresDrop` | collector/cmd/uli-collector/main.go:99-114 | five failed posts drop any batch, contrary to the file's header comment |
| `Batcher.SourceBuffers.Append` | collector/cmd/uli-collector/main.go:62-66 | the line is last in its source's buffer, others are unchanged, and the buffer is reported full if and only if it reached the limit |
| `Batcher.SourceBuffers.Take` | collector/cmd/uli-collector/main.go:87-95 | the buffer's lines are taken out whole, and an empty buffer changes nothing |
| `Batcher.Send` | collector/cmd/uli-collector/main.go:98-114 | a batch is delivered if and only if one of five posts would succeed, at the first that does; otherwise it is dropped |
| `Routing.ScanPicksFirstMaximum` | uli/engine.py:171-184 | the scan picks the first parser with the highest positive score, and none if and only if no score is positive |
| `Routing.WinnerIsScanned` | uli/engine.py:171-180 | a parser with that position is the one the scan picks |
| `Routing.RoutingIsTheFullScan` | uli/engine.py:160-184 | where a confident winner of one event wins every other event of its shape that has a winner, routing through the cache picks what the full scan picks, ties included |
| `Routing.RememberedIsValid` | uli/engine.py:192-193 | remembering a confident winner keeps every usable entry naming the confident winner of the current scan for some event of its shape |
| `Routing.RegisteredIsValid` | uli/engine.py:117-119 | registering or replacing a pack keeps ids distinct and leaves no stale entry |
| `Routing.RetiredIsValid` | uli/engine.py:128-134 | dropping only the entries of the retired parser leaves no stale entry |
| `Routing.RetiredForgetsOnlyItsOwn` | uli/engine.py:128-134 | retiring a pack drops exactly its own cache entries and leaves every other pack |
| `Routing.ScanWithoutLoser` | uli/engine.py:130-131 | removing a parser that does not win leaves the winner, ties included |
| `Routing.HistoriesAreValid` | uli/engine.py:111-197 | after any history of registrations, retirements and routed events, every usable entry names a registered parser that confidently wins the current scan for an event of its shape |
| `Routing.CacheIsTransparentIffShapesDecide` | uli/engine.py:111-197 | over all such histories and all events after them the cache changes no choice, if and only if in no registry reached a confident winner of one event loses another event of its shape to a different winner |
| `Routing.RegistryIsTransparentIffShapesDecide` | uli/engine.py:160-197 | for one given registry and an empty cache, whatever events come, the cache changes no choice if and only if that registry's confident winners win every other event of their shape that has a winner |
| `Routing.SharedIdsMisroute` | uli/engine.py:163-167 | once a structural parser's win is cached its events still reach it if and only if no other parser is registered as a pack under its id |
| `Routing.EntryMisroutesIffBeaten` | uli/engine.py:161-184 | an entry, however it came about, misroutes an event if and only if another parser beats the one it names |
| `Routing.LateMemoryOfNewPack` | uli/engine.py:192-193 | with a new pack registered between scan and cache write, the entry misroutes if and only if that pack scores higher than the winner, or as high as a structural winner |
| `Routing.LateMemoryOfReplacedPack` | uli/engine.py:192-193 | with a pack replaced in between, it misroutes if and only if another parser beats the winner's successor, or, for another pack, the replacement scores higher or as high and stands first |
| `Routing.LateMemoryOfRetiredPack` | uli/engine.py:192-193 | a retirement in between never makes the entry misroute |
| `Routing.ParserEngine.RegisterPack` | uli/engine.py:117-119 | the new parser takes its id's place or the last one, and the cache is empty |
| `Routing.ParserEngine.RetirePack` | uli/engine.py:128-134 | the retired parser and its cache entries are gone, and the answer says whether there was one |
| `Routing.ParserEngine.Pick` | uli/engine.py:171-184 | the loop over the candidates returns the winner of the scan |
| `Routing.ParserEngine.FindCandidates` | uli/engine.py:161-170 | the parser a usable entry leads to, or all parsers |
| `Routing.ParserEngine.Route` | uli/engine.py:160-197 | the winner is the specified one; exactly a confident win is cached, recorded for its shape, and added to the similarity index as a reference |
| `CircuitBreaker.AttemptsAreSpaced` | uli/engine.py:45-64 | from the F-th failed attempt on, attempts are at least R apart |
| `CircuitBreaker.AttemptsAreBounded` | uli/engine.py:45-64 | in a stretch of length T in which every call fails, at most F + floor(T / R) calls are made, from any state of the breaker |
| `CircuitBreaker.BadBodiesAreUnbounded` | uli/engine.py:52-61 | responses without a JSON body never open a breaker with F of 2 or more: any number of them is attempted at one moment |
| `CircuitBreaker.BoundedIffFirstFailureOpens` | uli/engine.py:52-64 | with both kinds of failure the bound holds for all stretches if and only if F is 1 |
| `CircuitBreaker.CountIsLastFailed` | uli/engine.py:45-64 | the count is at least n if and only if the last n attempted calls failed, all but the first of them before a response |
| `CircuitBreaker.OpensIffLastFailed` | uli/engine.py:54-63 | an attempted call opens the breaker if and only if with it the last F attempted calls failed in this way, until its failure plus R; no other call moves it |
| `CircuitBreaker.BeginningsComeInBursts` | uli/engine.py:45-64 | with m threads sharing the client, calls begin in bursts at least R apart, after the first F failures, with at most m calls each |
| `CircuitBreaker.SharedAttemptsAreBounded` | uli/engine.py:45-64 | with m threads, in a stretch of length T in which every call that ends fails, at most F + m - 1 + m floor(T / R) calls begin, from any state and with any calls in flight |
| `CircuitBreaker.MlClient.ClassifyAndScore` | uli/engine.py:48-64 | one call is attempted exactly when the breaker is closed, and moves the two fields as specified |
| `Ulid.Generate` | uli/ids.py:10-18 | the shifting loop with its final reversal returns the 26 base-32 digits of the value, most significant first |
| `Ulid.SymbolsAscend` | uli/ids.py:7 | the alphabet ascends, so symbols compare as their digits |
| `Ulid.DecodesBack` | uli/ids.py:15-18 | n digits decode to the value if and only if it is below 32^n |
| `Ulid.IdentifierDecodes` | uli/ids.py:10-18 | the identifier decodes to its 130-bit value if and only if the timestamp is below 2^50, and its first ten characters encode the timestamp alone |
| `Ulid.OrderIsNumeric` | uli/ids.py:15-18 | string order is numeric order, and equal strings mean equal values |
| `Ulid.LaterSortsLater` | uli/ids.py:10-18 | for timestamps below 2^50 a later millisecond sorts later whatever the random bits, which decide within one |
| `Paths.SplitOfJoin` | uli/normalization/ocsf.py:38 | splitting a dotted path gives back its parts if none has a dot |
| `Paths.JoinOfSplit` | uli/normalization/ocsf.py:38 | joining what was split gives back the string, so different strings are different paths |
| `Paths.SetPathAddsOne` | uli/normalization/ocsf.py:37-44 | setting a path that neither extends nor is extended by a scalar's path adds exactly its value and changes no other |
| `Paths.BuildHoldsItems` | uli/normalization/ocsf.py:29-44 | prefix-free paths, in any order, build an object with exactly their values |
| `Paths.AllKeptIffPrefixFree` | uli/normalization/ocsf.py:29-44 | every value that is set can be read back if and only if no path is a prefix of another |
| `Paths.SameScalarsSameObject` | uli/normalization/ocsf.py:37-44 | objects without empty sub-objects are determined by their scalars |
| `Paths.ScalarsRebuildObject` | uli/normalization/ocsf.py:37-44 | setting an object's own scalars, in any order, rebuilds it |
| `Paths.FlattenMembersSetsScalars` | uli/parsers/structural.py:23-31 | within the limits of depth and keys, flattening sets exactly the scalars, and lists of scalars, under their dotted paths |
| `Paths.ScalarsAreListed` | uli/parsers/structural.py:28-30 | the scalars flattening visits are exactly those of the object, at their paths |
| `Paths.FlattenRoundTrip` | uli/parsers/structural.py:23-39 | flattening an object with dot-free keys, non-empty sub-objects, lists of scalars only, at most eight levels and at most 500 fields, and setting the resulting paths in any order, rebuilds it |
| `Paths.DecimalReadsBack` | uli/parsers/structural.py:36 | the name of an index read as a number is the index, so different indices have different names |
| `Paths.SameFlat` | uli/parsers/structural.py:32-36 | within the limits, a list that holds objects or lists is flattened exactly like an object named by its first 50 indices |
| `Paths.GetAtIndex` | uli/parsers/structural.py:32-36 | what the element at an index holds is found below that index |
| `Paths.FlattenHolds` | uli/parsers/structural.py:23-39 | a dotted path is a key of the flat dictionary, with a scalar, if and only if it leads to that scalar in the object, through lists by index |
| `Paths.FlattenRoundTripOfLists` | uli/parsers/structural.py:23-39 | the round trip for objects with any lists: what is rebuilt has an object of the first 50 elements for every list that holds objects or lists |
| `Paths.KeysAreShort` | uli/parsers/structural.py:28-38 | with dot-free keys, however deep an object is nested, no flat key has more than eight parts |
| `Paths.KeysAreBounded` | uli/parsers/structural.py:26-27 | with 500 keys nothing is added but scalars of objects already entered; their number bounds the excess |
| `Paths.TooDeep` | uli/parsers/structural.py:37-38 | an object or list below the eighth level becomes one field with the first 2000 characters of its text |
| `Paths.FlatDict.FlattenInto` | uli/parsers/structural.py:23-39 | the recursion over objects and lists that writes into the shared dictionary leaves it as specified, all limits included |
| `NestedDict.Dict.SetPath` | uli/normalization/ocsf.py:37-44 | updating nested dictionaries in place has the effect of setting the path, touches no other dictionary, and keeps sub-dictionaries unshared |
| `NestedDict.Dict.SetDefault` | uli/normalization/ocsf.py:41 | a missing key gets a new empty dictionary, a present one is left alone |
| `NestedDict.OcsfField` | uli/normalization/ocsf.py:29-34 | the result is a new dictionary built from the prefixed fields in order |

## Left out

Assumptions within the modelled parts:

- RawStore.LocationsStayValid, RawStore.LocationsDoNotOverlap: assume keys whose paths lead to directories of their own;
  RawStore.FirstAppendsOverlapIffOneDirectory says why. File names are case-sensitive and there are no links.
- RawStore.LocalRawStore.Append: does not cover an open segment whose file the rotation of a colliding key has replaced.
- Raw store: several processes on one directory, crashes with unflushed buffers or between writing a compressed file
  and removing the plain one, and I/O errors. A directory holds fewer than 10^6 segments, so that names sort as numbers.
- Pipeline.Runner.Compute: parse ladder, drift, correlation, clusters and normalization are one opaque transformer of their
  own state that may mark the source degraded; it depends neither on the tables and the clock nor on the payload's place.
- Pipeline.SqlStorage.UpsertSource, Pipeline.SqlStorage.UpsertSourcesBulk: first and last time seen and the display name are
  not part of a source row; they are the clock's and the source's id.
- Pipeline: generated event ids and processing times are not part of an event. Building the minimal emergency event does
  not raise. A failing append leaves the files as they were. Locking in the Python classes is not modelled.
- Pipeline.BatchIsOneByOne, Pipeline.BoundariesDoNotMatter: assume that parsing finishes for every envelope, as the run
  they compare with, `_process_inner`, has no emergency path; Pipeline.TablesAgreeIffAllFinish and Pipeline.BatchIsProcess
  say what holds otherwise.
- Divergence, drift, similarity, score: ideal reals in place of floats.
- ParserDrift.SteadyTrafficIsQuiet, ParserDrift.FirstEventAfterKWindows, ParserDrift.EventsCountLowRuns,
  ParserDrift.FirstConfidenceEvent: assume that no window closes because of its age.
- Similarity.DroppingIsNearlyLossless: says nothing once the parser's list has exceeded its cap, since an evicted
  reference may have been the only one near a dropped shape. Shapes are given as their white-space separated parts.
- Delivery: lost replies, stream trimming, claiming messages of another consumer name, and the in-memory queue.
- Batcher: the ticker is not held up by its own posts, which only adds interleavings; transport names and the backoff
  delays are left out. UDP and `tailFile`, which emits a partial last line, are not modelled.
- CircuitBreaker.AttemptsAreSpaced, CircuitBreaker.AttemptsAreBounded: calls are made one after the other; threads are the
  subject of CircuitBreaker.SharedAttemptsAreBounded, where noting a failure is one step.
- Routing: score and confidence depend only on the parser and the event's text; a raising `can_parse` scores 0, and a
  raising parse is not confident.
- Paths.FlattenRoundTrip: covers lists of scalars only; Paths.FlattenRoundTripOfLists says what becomes of the others.
- NestedDict.Dict.SetPath, NestedDict.OcsfField: field values are scalars and lists of scalars. A value that is itself a
  dictionary would be shared with the event's fields, and is not modelled.

Parts of the repository without a model:

- `synthesize_pack_yaml` and the review of candidate packs: text assembly.
- Tokenizing and fingerprint hashing, timestamp grammars, field inference and the regex parsers: the content is in
  regular expressions.
- Tier-4 and tier-5 fallback, template mining, clustering of unknown events, correlation of drift with changes.
- The API, authentication, configuration, metrics, the UI and deployment.
- Resource drift, signatures of packs, and the key map: easy claims only.

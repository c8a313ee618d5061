/**
 The append-only raw store (uli/storage/raw_store.py): buffered segment files, one directory per
 tenant, source and day, rotated by size and by day, compressed on rotation, resumed after a close.

 The first half states what each operation does to the directory tree and the open segments; the
 class below performs the same operations step by step and is proved against it.
 */
module RawStore {
  import opened Basics

  datatype Key = Key(tenant: string, source: string)

  datatype Record = Record(rawId: string, key: Key, transport: string, peer: Option<string>, receivedAt: int,
      payload: Bytes)

  /** The JSON object on one line of a segment. */
  datatype Line = Line(rawId: string, receivedAt: int, sourceId: string, transport: string, peer: Option<string>,
                       payloadB64: string, length: nat)

  /** The foreign functions the store calls. */
  datatype Codec = Codec(
    dumps: Line -> Bytes,
    loads: Bytes -> Option<Line>,
    b64encode: Bytes -> string,
    b64decode: string -> Bytes,
    sha256: Bytes -> string,
    utcDay: int -> string)
  {
    /** JSON and base64 are inverse pairs, and no two byte strings share a digest. */
    ghost predicate Lawful() {
      && (forall line :: loads(dumps(line) + [10]) == Some(line))
      && (forall p :: b64decode(b64encode(p)) == p)
      && (forall p, q :: sha256(p) == sha256(q) ==> p == q)
    }

    function Encode(rec: Record): Bytes {
      dumps(Line(rec.rawId, rec.receivedAt, rec.key.source, rec.transport, rec.peer,
                 b64encode(rec.payload), |rec.payload|)) + [10]
    }
  }

  // ------------------------------------------------------------ names on disk

  predicate SlugChar(c: char) {
    'A' <= c <= 'Z' || 'a' <= c <= 'z' || '0' <= c <= '9' || c in "._:-"
  }

  /** Each run of other characters becomes one underscore. */
  function Squash(s: string, inRun: bool): string {
    if s == "" then ""
    else if SlugChar(s[0]) then [s[0]] + Squash(s[1..], false)
    else (if inRun then "" else "_") + Squash(s[1..], true)
  }

  function Slug(s: string): string {
    var t := Squash(s, false);
    var u := if |t| > 120 then t[..120] else t;
    if u == "" then "_" else u
  }

  lemma {:induction false} SquashKeepsIff(s: string, inRun: bool)
    ensures |Squash(s, inRun)| <= |s|
    ensures s != "" && (SlugChar(s[0]) || !inRun) ==> Squash(s, inRun) != ""
    ensures Squash(s, inRun) == s <==> forall c :: c in s ==> SlugChar(c)
    ensures forall c :: c in Squash(s, inRun) ==> SlugChar(c)
  {
    if s != "" {
      var run := !SlugChar(s[0]);
      SquashKeepsIff(s[1..], run);
      assert s == [s[0]] + s[1..];
      if !run || !inRun {
        assert Squash(s, inRun) == [if run then '_' else s[0]] + Squash(s[1..], run);
        assert Squash(s, inRun)[1..] == Squash(s[1..], run);
      }
    }
  }

  /** A name is its own directory name exactly if it has 1 to 120 characters, all of them allowed. */
  lemma {:induction false} SlugKeepsIff(s: string)
    ensures Slug(s) == s <==> 0 < |s| <= 120 && forall c :: c in s ==> SlugChar(c)
    ensures 0 < |Slug(s)| <= 120 && forall c :: c in Slug(s) ==> SlugChar(c)
  {
    SquashKeepsIff(s, false);
  }

  /** A directory, by the names on the way to it from the top of the file system. */
  type Dir = seq<string>

  /** How the file system takes one more name: "." stays and ".." goes up. */
  function Resolved(dir: Dir, name: string): Dir {
    if name == "." then dir
    else if name == ".." then (if dir == [] then [] else dir[..|dir| - 1])
    else dir + [name]
  }

  function DirOf(root: Dir, key: Key): Dir { Resolved(Resolved(root, Slug(key.tenant)), Slug(key.source)) }

  /** A segment, named without the suffix that says whether it is compressed. */
  datatype Path = Path(dir: Dir, day: string, no: nat)

  datatype Location = Location(segment: Path, offset: nat, length: nat)

  // ------------------------------------------------------------ state

  /** An open segment: the size it will have on disk, and the bytes still in its write buffer. */
  datatype Segment = Segment(path: Path, size: nat, buffer: Bytes)

  /** Plain files, compressed files (as what decompressing them yields), and open segments. */
  datatype State = State(root: Dir, plain: map<Path, Bytes>, zipped: map<Path, Bytes>, open: map<Key, Segment>)

  datatype Config = Config(maxBytes: nat, compress: bool)

  function Empty(root: Dir): State { State(root, map[], map[], map[]) }

  // ------------------------------------------------------------ the abstract store

  /** What the store is for: each segment is a byte stream that only grows at its end. */
  type Streams = map<Path, Bytes>

  ghost predicate Grows(v: Streams, v': Streams) {
    forall p :: p in v ==> p in v' && v[p] <= v'[p]
  }

  ghost predicate Holds(v: Streams, loc: Location, bytes: Bytes) {
    && loc.segment in v
    && loc.offset + loc.length <= |v[loc.segment]|
    && v[loc.segment][loc.offset..loc.offset + loc.length] == bytes
  }

  function Extended(v: Streams, p: Path, line: Bytes): Streams {
    v[p := (if p in v then v[p] else []) + line]
  }

  lemma HoldsForever(v: Streams, v': Streams, loc: Location, bytes: Bytes)
    requires Holds(v, loc, bytes) && Grows(v, v')
    ensures Holds(v', loc, bytes)
  {
    var c, c' := v[loc.segment], v'[loc.segment];
    assert c == c'[..|c|];
  }

  ghost predicate IsOpen(st: State, p: Path) {
    exists k :: k in st.open && st.open[k].path == p
  }

  ghost predicate SegmentOk(st: State, k: Key, v: Streams)
    requires k in st.open
  {
    var seg := st.open[k];
    && seg.path.dir == DirOf(st.root, k)
    && seg.path in st.plain && seg.path in v
    && v[seg.path] == st.plain[seg.path] + seg.buffer
    && seg.size == |v[seg.path]|
  }

  /** The files and write buffers of `st` together stand for the streams `v`. */
  ghost predicate Represents(st: State, v: Streams) {
    && v.Keys == st.plain.Keys + st.zipped.Keys
    && st.plain.Keys !! st.zipped.Keys
    && (forall p :: p in st.zipped ==> v[p] == st.zipped[p])
    && (forall p :: p in st.plain && !IsOpen(st, p) ==> v[p] == st.plain[p])
    && (forall k :: k in st.open ==> SegmentOk(st, k, v))
    && (forall k, k' :: k in st.open && k' in st.open && DirOf(st.root, k) == DirOf(st.root, k') ==> k == k')
  }

  // ------------------------------------------------------------ operations

  function NumbersIn(st: State, dir: Dir, day: string): set<nat> {
    set p | p in st.plain.Keys + st.zipped.Keys && p.dir == dir && p.day == day :: p.no
  }

  lemma HasMaximum(s: set<nat>)
    requires s != {}
    ensures exists n :: n in s && forall m :: m in s ==> m <= n
  {
    var n :| n in s;
    if s != {n} {
      HasMaximum(s - {n});
      var m :| m in s - {n} && forall k :: k in s - {n} ==> k <= m;
      var top := if n < m then m else n;
      forall k | k in s
        ensures k <= top
      {
        if k != n { assert k in s - {n}; }
      }
      assert top in s;
    }
  }

  ghost function Maximum(s: set<nat>): (n: nat)
    requires s != {}
    ensures n in s && forall m :: m in s ==> m <= n
  {
    HasMaximum(s);
    var n :| n in s && forall m :: m in s ==> m <= n;
    n
  }

  /** The number of the segment to open next; the last one is resumed only by a process that has none open. */
  ghost function NextNo(st: State, dir: Dir, day: string, hadOld: bool): nat {
    var numbers := NumbersIn(st, dir, day);
    if numbers == {} then 1
    else
      var last := Maximum(numbers);
      var no := last + if hadOld || Path(dir, day, last) in st.zipped then 1 else 0;
      if no == 0 then 1 else no
  }

  /** Moves the first `n` buffered bytes to disk: a full flush, or what a full write buffer does by itself. */
  function Spilled(st: State, key: Key, n: nat): State
    requires key in st.open && st.open[key].path in st.plain && n <= |st.open[key].buffer|
  {
    var seg := st.open[key];
    st.(plain := st.plain[seg.path := st.plain[seg.path] + seg.buffer[..n]],
        open := st.open[key := seg.(buffer := seg.buffer[n..])])
  }

  function FlushKey(st: State, key: Key): State
    requires key in st.open && st.open[key].path in st.plain
  {
    Spilled(st, key, |st.open[key].buffer|)
  }

  function Detached(st: State, key: Key): State {
    st.(open := st.open - {key})
  }

  /** `stored` is what re-reading the compressed file yields; the plain file goes only if the digests agree. */
  function Compressed(st: State, p: Path, stored: Bytes, sha256: Bytes -> string): State
    requires p in st.plain
  {
    if sha256(st.plain[p]) == sha256(stored) then
      st.(plain := st.plain - {p}, zipped := st.zipped[p := stored])
    else
      st.(zipped := st.zipped - {p})
  }

  function Retired(cfg: Config, sha256: Bytes -> string, st: State, key: Key, stored: Bytes): State
    requires key in st.open && st.open[key].path in st.plain
  {
    var closed := Detached(FlushKey(st, key), key);
    if cfg.compress then Compressed(closed, st.open[key].path, stored, sha256) else closed
  }

  function Opened(st: State, key: Key, path: Path): State {
    var bytes := if path in st.plain then st.plain[path] else [];
    st.(plain := st.plain[path := bytes], open := st.open[key := Segment(path, |bytes|, [])])
  }

  ghost predicate Wellformed(st: State) {
    forall k :: k in st.open ==> st.open[k].path in st.plain
  }

  ghost function Rotated(cfg: Config, sha256: Bytes -> string, st: State, key: Key, day: string, stored: Bytes): State
    requires Wellformed(st)
  {
    var hadOld := key in st.open;
    var st1 := if hadOld then Retired(cfg, sha256, st, key, stored) else st;
    Opened(st1, key, Path(DirOf(st.root, key), day, NextNo(st1, DirOf(st.root, key), day, hadOld)))
  }

  predicate MustRotate(cfg: Config, st: State, key: Key, day: string, line: Bytes) {
    key !in st.open || st.open[key].path.day != day || st.open[key].size + |line| > cfg.maxBytes
  }

  function Written(st: State, key: Key, line: Bytes): State
    requires key in st.open
  {
    var seg := st.open[key];
    st.(open := st.open[key := seg.(size := seg.size + |line|, buffer := seg.buffer + line)])
  }

  /** The state with the segment that an append of `line` will write to. */
  ghost function Prepared(cfg: Config, sha256: Bytes -> string, st: State, key: Key, day: string, line: Bytes,
      stored: Bytes): (st': State)
    requires Wellformed(st)
    ensures key in st'.open
  {
    if MustRotate(cfg, st, key, day, line) then Rotated(cfg, sha256, st, key, day, stored) else st
  }

  ghost function Appended(cfg: Config, sha256: Bytes -> string, st: State, key: Key, day: string, line: Bytes,
      stored: Bytes): State
    requires Wellformed(st)
  {
    Written(Prepared(cfg, sha256, st, key, day, line, stored), key, line)
  }

  ghost function AppendedAt(cfg: Config, sha256: Bytes -> string, st: State, key: Key, day: string, line: Bytes,
      stored: Bytes): Location
    requires Wellformed(st)
  {
    var seg := Prepared(cfg, sha256, st, key, day, line, stored).open[key];
    Location(seg.path, seg.size, |line|)
  }

  /** Flushing the open segments one after the other. */
  ghost function FlushedAll(st: State, keys: seq<Key>): State {
    if keys == [] then st
    else
      var init, key := FlushedAll(st, keys[..|keys| - 1]), keys[|keys| - 1];
      if key in init.open && init.open[key].path in init.plain then FlushKey(init, key) else init
  }

  /** Reading a location from disk: the plain file if it is there, else the compressed one. */
  function Slice(bytes: Bytes, offset: nat, length: nat): Bytes {
    if |bytes| <= offset then []
    else if |bytes| - offset < length then bytes[offset..]
    else bytes[offset..offset + length]
  }

  function ReadAt(st: State, loc: Location): Option<Bytes> {
    if loc.segment in st.plain then Some(Slice(st.plain[loc.segment], loc.offset, loc.length))
    else if loc.segment in st.zipped then Some(Slice(st.zipped[loc.segment], loc.offset, loc.length))
    else None
  }

  // ------------------------------------------------------------ each operation on the streams

  /** No other open segment lives in this key's directory. */
  ghost predicate Separate(st: State, key: Key) {
    forall k :: k in st.open && DirOf(st.root, k) == DirOf(st.root, key) ==> k == key
  }

  /** One segment's file and buffer change: the common part of writing, spilling and opening. */
  function Updated(st: State, key: Key, bytes: Bytes, seg: Segment): State {
    st.(plain := st.plain[seg.path := bytes], open := st.open[key := seg])
  }

  ghost predicate MayUpdate(st: State, v: Streams, key: Key, bytes: Bytes, seg: Segment) {
    && Represents(st, v) && Separate(st, key)
    && seg.path.dir == DirOf(st.root, key) && seg.path !in st.zipped
    && seg.size == |bytes| + |seg.buffer|
    && (key in st.open ==> st.open[key].path == seg.path)
  }

  lemma {:induction false} UpdatedSegments(st: State, v: Streams, key: Key, bytes: Bytes, seg: Segment, k: Key)
    requires MayUpdate(st, v, key, bytes, seg) && (k in st.open || k == key)
    ensures SegmentOk(Updated(st, key, bytes, seg), k, v[seg.path := bytes + seg.buffer])
  {
    hide DirOf;
    if k != key { assert SegmentOk(st, k, v); }
  }

  lemma UpdatedStaysOpen(st: State, key: Key, bytes: Bytes, seg: Segment, p: Path)
    requires key in st.open ==> st.open[key].path == seg.path
    requires p != seg.path && IsOpen(st, p)
    ensures IsOpen(Updated(st, key, bytes, seg), p)
  {
    var k :| k in st.open && st.open[k].path == p;
    assert Updated(st, key, bytes, seg).open[k].path == p;
  }

  lemma {:induction false} UpdatedFiles(st: State, v: Streams, key: Key, bytes: Bytes, seg: Segment, p: Path)
    requires MayUpdate(st, v, key, bytes, seg)
    requires p in st.plain && p != seg.path && !IsOpen(Updated(st, key, bytes, seg), p)
    ensures v[p] == st.plain[p]
  {
    hide DirOf;
    if IsOpen(st, p) { UpdatedStaysOpen(st, key, bytes, seg, p); }
  }

  lemma {:induction false} UpdatedRepresents(st: State, v: Streams, key: Key, bytes: Bytes, seg: Segment)
    requires MayUpdate(st, v, key, bytes, seg)
    ensures Represents(Updated(st, key, bytes, seg), v[seg.path := bytes + seg.buffer])
  {
    hide DirOf, IsOpen, SegmentOk;
    var st', v' := Updated(st, key, bytes, seg), v[seg.path := bytes + seg.buffer];
    forall k | k in st'.open
      ensures SegmentOk(st', k, v')
    {
      UpdatedSegments(st, v, key, bytes, seg, k);
    }
    forall p | p in st'.plain && !IsOpen(st', p)
      ensures v'[p] == st'.plain[p]
    {
      if p == seg.path {
        OpenAt(st', key);
      } else {
        UpdatedFiles(st, v, key, bytes, seg, p);
      }
    }
  }

  lemma OpenAt(st: State, key: Key)
    requires key in st.open
    ensures IsOpen(st, st.open[key].path)
  {
  }

  lemma {:induction false} SpilledKeepsStreams(st: State, v: Streams, key: Key, n: nat)
    requires Represents(st, v) && key in st.open && n <= |st.open[key].buffer|
    ensures SegmentOk(st, key, v) && Represents(Spilled(st, key, n), v)
  {
    hide DirOf, IsOpen;
    var seg := st.open[key];
    assert SegmentOk(st, key, v);
    var bytes, rest := st.plain[seg.path] + seg.buffer[..n], seg.buffer[n..];
    assert seg.buffer == seg.buffer[..n] + rest;
    assert v[seg.path] == bytes + rest;
    UpdatedRepresents(st, v, key, bytes, seg.(buffer := rest));
    assert v[seg.path := bytes + rest] == v;
  }

  lemma SamePaths(st: State, st': State, p: Path)
    requires st.open.Keys == st'.open.Keys
    requires forall k :: k in st.open ==> st.open[k].path == st'.open[k].path
    ensures IsOpen(st, p) == IsOpen(st', p)
  {
    if IsOpen(st, p) {
      var k :| k in st.open && st.open[k].path == p;
      assert k in st'.open && st'.open[k].path == p;
    }
    if IsOpen(st', p) {
      var k :| k in st'.open && st'.open[k].path == p;
      assert k in st.open && st.open[k].path == p;
    }
  }

  lemma DetachedPaths(st: State, key: Key, p: Path)
    requires key in st.open && st.open[key].path != p
    ensures IsOpen(st, p) == IsOpen(Detached(st, key), p)
  {
    if IsOpen(st, p) {
      var k :| k in st.open && st.open[k].path == p;
      assert Detached(st, key).open[k].path == p;
    }
  }

  lemma {:induction false} DetachedKeepsStreams(st: State, v: Streams, key: Key)
    requires Represents(st, v) && key in st.open && st.open[key].buffer == []
    ensures Represents(Detached(st, key), v) && !IsOpen(Detached(st, key), st.open[key].path)
  {
    hide DirOf, IsOpen;
    var st', seg := Detached(st, key), st.open[key];
    assert SegmentOk(st, key, v);
    assert seg.path in st.plain && st.plain[seg.path] + [] == st.plain[seg.path];
    forall k | k in st'.open
      ensures SegmentOk(st', k, v)
    {
      assert SegmentOk(st, k, v);
    }
    forall p | p in st'.plain && !IsOpen(st', p)
      ensures v[p] == st'.plain[p]
    {
      if p != seg.path { DetachedPaths(st, key, p); }
    }
    DetachedIsShut(st, v, key);
  }

  lemma {:induction false} DetachedIsShut(st: State, v: Streams, key: Key)
    requires Represents(st, v) && key in st.open
    ensures !IsOpen(Detached(st, key), st.open[key].path)
  {
    hide DirOf;
    assert SegmentOk(st, key, v);
    forall k | k in Detached(st, key).open
      ensures st.open[k].path != st.open[key].path
    {
      assert SegmentOk(st, k, v);
    }
  }

  ghost predicate CollisionFree(sha256: Bytes -> string) {
    forall p, q :: sha256(p) == sha256(q) ==> p == q
  }

  lemma {:induction false} CompressedKeepsStreams(st: State, v: Streams, p: Path, stored: Bytes,
      sha256: Bytes -> string)
    requires Represents(st, v) && p in st.plain && !IsOpen(st, p) && CollisionFree(sha256)
    ensures Represents(Compressed(st, p, stored, sha256), v)
    ensures Compressed(st, p, stored, sha256).open == st.open && Compressed(st, p, stored, sha256).root == st.root
  {
    hide DirOf, IsOpen;
    var st' := Compressed(st, p, stored, sha256);
    assert v[p] == st.plain[p];
    assert stored == st.plain[p] || st'.zipped == st.zipped;
    forall k | k in st'.open
      ensures SegmentOk(st', k, v)
    {
      assert SegmentOk(st, k, v);
      OpenAt(st, k);
    }
    forall q
      ensures IsOpen(st, q) == IsOpen(st', q)
    {
      SamePaths(st, st', q);
    }
  }

  lemma {:induction false} RetiredKeepsStreams(cfg: Config, sha256: Bytes -> string, st: State, v: Streams, key: Key,
      stored: Bytes)
    requires Represents(st, v) && key in st.open && CollisionFree(sha256)
    ensures SegmentOk(st, key, v)
    ensures var st' := Retired(cfg, sha256, st, key, stored);
            Represents(st', v) && st'.open == st.open - {key} && st'.root == st.root
  {
    hide DirOf, Represents, Compressed;
    var n := |st.open[key].buffer|;
    SpilledKeepsStreams(st, v, key, n);
    var flushed := FlushKey(st, key);
    DetachedKeepsStreams(flushed, v, key);
    var closed := Detached(flushed, key);
    assert closed.open == st.open - {key};
    if cfg.compress {
      CompressedKeepsStreams(closed, v, st.open[key].path, stored, sha256);
    }
  }

  lemma {:induction false} OpenedKeepsStreams(st: State, v: Streams, key: Key, path: Path)
    requires Represents(st, v) && path.dir == DirOf(st.root, key) && path !in st.zipped && key !in st.open
    requires forall k :: k in st.open ==> DirOf(st.root, k) != DirOf(st.root, key)
    ensures Represents(Opened(st, key, path), Extended(v, path, []))
  {
    hide DirOf, IsOpen;
    var bytes := if path in st.plain then st.plain[path] else [];
    NotOpen(st, v, key, path);
    UpdatedRepresents(st, v, key, bytes, Segment(path, |bytes|, []));
    assert path in v ==> v[path] == bytes;
    assert bytes + [] == bytes;
  }

  lemma NotOpen(st: State, v: Streams, key: Key, path: Path)
    requires Represents(st, v) && path.dir == DirOf(st.root, key)
    requires forall k :: k in st.open ==> DirOf(st.root, k) != DirOf(st.root, key)
    ensures !IsOpen(st, path)
  {
    hide DirOf;
    forall k | k in st.open ensures st.open[k].path != path { assert SegmentOk(st, k, v); }
  }

  lemma NextNoIsUsable(st: State, dir: Dir, day: string, hadOld: bool)
    ensures Path(dir, day, NextNo(st, dir, day, hadOld)) !in st.zipped
    ensures hadOld ==> Path(dir, day, NextNo(st, dir, day, hadOld)) !in st.plain
  {
    var p := Path(dir, day, NextNo(st, dir, day, hadOld));
    if p in st.plain || p in st.zipped {
      assert p.no in NumbersIn(st, dir, day);
    }
  }

  lemma RotatedKeepsStreams(cfg: Config, sha256: Bytes -> string, st: State, v: Streams, key: Key, day: string,
      stored: Bytes)
    returns (v': Streams)
    requires Represents(st, v) && Wellformed(st) && CollisionFree(sha256) && Separate(st, key)
    ensures var st' := Rotated(cfg, sha256, st, key, day, stored);
            Represents(st', v') && key in st'.open && SegmentOk(st', key, v') &&
                v' == Extended(v, st'.open[key].path, [])
  {
    hide DirOf, Represents, Retired, NextNo;
    var hadOld := key in st.open;
    if hadOld { RetiredKeepsStreams(cfg, sha256, st, v, key, stored); }
    var st1 := if hadOld then Retired(cfg, sha256, st, key, stored) else st;
    NextNoIsUsable(st1, DirOf(st.root, key), day, hadOld);
    var path := Path(DirOf(st.root, key), day, NextNo(st1, DirOf(st.root, key), day, hadOld));
    OpenedKeepsStreams(st1, v, key, path);
    v' := Extended(v, path, []);
    SegmentIsOk(Rotated(cfg, sha256, st, key, day, stored), v', key);
  }

  lemma {:induction false} SegmentIsOk(st: State, v: Streams, key: Key)
    requires Represents(st, v) && key in st.open
    ensures SegmentOk(st, key, v)
  {
  }

  lemma RepresentsApart(st: State, v: Streams, key: Key)
    requires Represents(st, v) && key in st.open
    ensures Separate(st, key) && st.open[key].path !in st.zipped
  {
    hide DirOf, IsOpen;
    assert SegmentOk(st, key, v);
  }

  lemma {:induction false} WrittenExtends(st: State, v: Streams, key: Key, line: Bytes)
    requires Represents(st, v) && key in st.open
    ensures Represents(Written(st, key, line), Extended(v, st.open[key].path, line))
  {
    hide DirOf, IsOpen, Represents;
    var seg := st.open[key];
    SegmentIsOk(st, v, key);
    RepresentsApart(st, v, key);
    var bytes := st.plain[seg.path];
    assert (bytes + seg.buffer) + line == bytes + (seg.buffer + line);
    UpdatedRepresents(st, v, key, bytes, seg.(size := seg.size + |line|, buffer := seg.buffer + line));
    assert st.plain[seg.path := bytes] == st.plain;
  }

  lemma RepresentsIsWellformed(st: State, v: Streams)
    requires Represents(st, v)
    ensures Wellformed(st)
  {
    hide DirOf;
    forall k | k in st.open ensures st.open[k].path in st.plain { assert SegmentOk(st, k, v); }
  }

  lemma ExtendedTwice(v: Streams, p: Path, line: Bytes)
    ensures Extended(Extended(v, p, []), p, line) == Extended(v, p, line)
  {
    var bytes := if p in v then v[p] else [];
    assert bytes + [] == bytes;
  }

  lemma PreparedKeepsStreams(cfg: Config, sha256: Bytes -> string, st: State, v: Streams, key: Key, day: string,
      line: Bytes, stored: Bytes)
    returns (v': Streams)
    requires Represents(st, v) && Wellformed(st) && CollisionFree(sha256) && Separate(st, key)
    ensures var st' := Prepared(cfg, sha256, st, key, day, line, stored);
            && Represents(st', v') && SegmentOk(st', key, v')
            && Extended(v', st'.open[key].path, line) == Extended(v, st'.open[key].path, line)
            && |v'[st'.open[key].path]| == if st'.open[key].path in v then |v[st'.open[key].path]| else 0
  {
    hide DirOf, Represents, Rotated;
    v' := v;
    if MustRotate(cfg, st, key, day, line) {
      v' := RotatedKeepsStreams(cfg, sha256, st, v, key, day, stored);
      ExtendedTwice(v, Rotated(cfg, sha256, st, key, day, stored).open[key].path, line);
    } else {
      SegmentIsOk(st, v, key);
    }
  }

  /** An append extends one stream by its line, and the location says where that line is. */
  lemma {:induction false} AppendedExtends(cfg: Config, sha256: Bytes -> string, st: State, v: Streams, key: Key,
      day: string, line: Bytes, stored: Bytes)
    requires Represents(st, v) && Wellformed(st) && CollisionFree(sha256) && Separate(st, key)
    ensures var loc := AppendedAt(cfg, sha256, st, key, day, line, stored);
            var v' := Extended(v, loc.segment, line);
            && Represents(Appended(cfg, sha256, st, key, day, line, stored), v')
            && loc.offset == (if loc.segment in v then |v[loc.segment]| else 0)
            && loc.length == |line|
            && Holds(v', loc, line) && Grows(v, v')
  {
    hide DirOf, Represents, Prepared;
    var v1 := PreparedKeepsStreams(cfg, sha256, st, v, key, day, line, stored);
    WrittenExtends(Prepared(cfg, sha256, st, key, day, line, stored), v1, key, line);
  }

  lemma {:induction false} FlushedAllKeepsStreams(st: State, v: Streams, keys: seq<Key>)
    requires Represents(st, v)
    ensures var st' := FlushedAll(st, keys);
            && Represents(st', v) && st'.open.Keys == st.open.Keys && st'.root == st.root
            && forall k :: k in keys && k in st'.open ==> st'.open[k].buffer == []
  {
    hide DirOf, Represents;
    if keys != [] {
      var init, key := keys[..|keys| - 1], keys[|keys| - 1];
      FlushedAllKeepsStreams(st, v, init);
      var st1 := FlushedAll(st, init);
      if key in st1.open {
        SpilledKeepsStreams(st1, v, key, |st1.open[key].buffer|);
      }
      assert forall k :: k in keys ==> k in init || k == key;
    }
  }

  /** With all buffers flushed, a location that the streams hold reads back from disk. */
  lemma {:induction false} ReadsFromDisk(st: State, v: Streams, loc: Location, bytes: Bytes)
    requires Represents(st, v) && Holds(v, loc, bytes)
    requires forall k :: k in st.open ==> st.open[k].buffer == []
    ensures ReadAt(st, loc) == Some(bytes)
  {
    hide DirOf;
    var p := loc.segment;
    if p in st.plain {
      if IsOpen(st, p) {
        var k :| k in st.open && st.open[k].path == p;
        assert SegmentOk(st, k, v);
        assert st.plain[p] + [] == st.plain[p];
      }
      assert v[p] == st.plain[p];
    }
    if loc.offset == |v[p]| { assert bytes == []; }
  }

  // ------------------------------------------------------------ whole runs

  datatype Op =
    | Append(rec: Record, stored: Bytes)
    | Spill(key: Key, n: nat)
    | Flush(order: seq<Key>)
    | Close(order: seq<Key>)

  ghost function Step(cfg: Config, codec: Codec, st: State, op: Op): State
    requires Wellformed(st)
  {
    match op
    case Append(rec, stored) =>
      Appended(cfg, codec.sha256, st, rec.key, codec.utcDay(rec.receivedAt), codec.Encode(rec), stored)
    case Spill(key, n) =>
      if key in st.open && n <= |st.open[key].buffer| then Spilled(st, key, n) else st
    case Flush(order) => FlushedAll(st, order)
    case Close(order) => if CoversOpen(st, order) then FlushedAll(st, order).(open := map[]) else st
  }

  ghost function LocationOf(cfg: Config, codec: Codec, st: State, rec: Record, stored: Bytes): Location
    requires Wellformed(st)
  {
    AppendedAt(cfg, codec.sha256, st, rec.key, codec.utcDay(rec.receivedAt), codec.Encode(rec), stored)
  }

  ghost predicate CoversOpen(st: State, order: seq<Key>) {
    forall k :: k in st.open ==> k in order
  }

  // ------------------------------------------------------------ which segment an append goes to

  /** Each open segment lies in its own key's directory and has its file. */
  ghost predicate InPlace(st: State) {
    && Wellformed(st)
    && forall k :: k in st.open ==> st.open[k].path.dir == DirOf(st.root, k)
  }

  lemma RepresentsInPlace(st: State, v: Streams)
    requires Represents(st, v)
    ensures InPlace(st)
  {
    hide DirOf;
    forall k | k in st.open
      ensures st.open[k].path in st.plain && st.open[k].path.dir == DirOf(st.root, k)
    {
      assert SegmentOk(st, k, v);
    }
  }

  /** A segment of the same directory and day that has a file, plain or compressed. */
  ghost predicate Beside(st: State, p: Path, q: Path) {
    q in st.plain.Keys + st.zipped.Keys && q.dir == p.dir && q.day == p.day
  }

  ghost predicate IsLast(st: State, p: Path) {
    Beside(st, p, p) && forall q :: Beside(st, p, q) ==> q.no <= p.no
  }

  /** A segment without a file, numbered right after the last one of its day, or 1. */
  ghost predicate IsNext(st: State, p: Path) {
    && (forall q :: Beside(st, p, q) ==> q.no < p.no)
    && (p.no == 1 || (p.no > 1 && Beside(st, p, Path(p.dir, p.day, p.no - 1))))
  }

  /** Where the bytes of a record with this key and day go: to the open segment as long as the day is the same and
      there is room; else to a new one; and without an open segment to the end of the day's last plain file. */
  ghost predicate GoesTo(cfg: Config, st: State, key: Key, day: string, loc: Location) {
    && loc.segment.dir == DirOf(st.root, key) && loc.segment.day == day
    && if key in st.open && st.open[key].path.day == day && st.open[key].size + loc.length <= cfg.maxBytes then
         loc.segment == st.open[key].path && loc.offset == st.open[key].size
       else if key in st.open then
         IsNext(st, loc.segment) && loc.offset == 0
       else if IsLast(st, loc.segment) then
         loc.segment.no > 0 && loc.segment !in st.zipped && loc.offset == |st.plain[loc.segment]|
       else
         && IsNext(st, loc.segment) && loc.offset == 0
         && (loc.segment.no == 1 || Path(loc.segment.dir, day, loc.segment.no - 1) in st.zipped)
  }

  /** A rotation opens the segment after the last one, or resumes the last one if the key had none open. */
  lemma NextNoIsNext(st: State, dir: Dir, day: string, hadOld: bool)
    ensures var p := Path(dir, day, NextNo(st, dir, day, hadOld));
            if IsLast(st, p) then !hadOld && p.no > 0 && p !in st.zipped
            else IsNext(st, p) && (hadOld || p.no == 1 || Path(dir, day, p.no - 1) in st.zipped)
  {
    var p, numbers := Path(dir, day, NextNo(st, dir, day, hadOld)), NumbersIn(st, dir, day);
    forall q | Beside(st, p, q)
      ensures q.no in numbers
    {
    }
    if numbers != {} {
      var last := Path(dir, day, Maximum(numbers));
      assert Beside(st, p, last);
      assert p.no == last.no || p.no == last.no + 1;
    }
  }

  lemma RetiredKeepsFiles(cfg: Config, sha256: Bytes -> string, st: State, key: Key, stored: Bytes)
    requires Wellformed(st) && key in st.open
    ensures var st' := Retired(cfg, sha256, st, key, stored);
            st'.plain.Keys + st'.zipped.Keys == st.plain.Keys + st.zipped.Keys
  {
  }

  lemma RotatedGoesTo(cfg: Config, sha256: Bytes -> string, st: State, key: Key, day: string, stored: Bytes,
      length: nat)
    requires Wellformed(st)
    ensures var st' := Rotated(cfg, sha256, st, key, day, stored);
            || (key in st.open && st.open[key].path.day == day && st.open[key].size + length <= cfg.maxBytes)
            || GoesTo(cfg, st, key, day, Location(st'.open[key].path, st'.open[key].size, length))
  {
    hide DirOf, Retired, NextNo;
    var hadOld, dir := key in st.open, DirOf(st.root, key);
    if hadOld { RetiredKeepsFiles(cfg, sha256, st, key, stored); }
    var st1 := if hadOld then Retired(cfg, sha256, st, key, stored) else st;
    var p := Path(dir, day, NextNo(st1, dir, day, hadOld));
    NextNoIsNext(st1, dir, day, hadOld);
    assert forall q, r :: Beside(st, q, r) <==> Beside(st1, q, r);
    assert IsLast(st, p) <==> IsLast(st1, p);
    assert IsNext(st, p) <==> IsNext(st1, p);
    assert !IsLast(st1, p) ==> p !in st1.plain by {
      if p in st1.plain { assert Beside(st1, p, p); }
    }
  }

  /** The day, the size limit and the numbering of segments, for every append in any state. */
  lemma {:induction false} AppendGoesTo(cfg: Config, codec: Codec, st: State, rec: Record, stored: Bytes)
    requires InPlace(st)
    ensures var loc := LocationOf(cfg, codec, st, rec, stored);
            GoesTo(cfg, st, rec.key, codec.utcDay(rec.receivedAt), loc) && loc.length == |codec.Encode(rec)|
  {
    hide DirOf, Rotated, IsNext, IsLast;
    RotatedGoesTo(cfg, codec.sha256, st, rec.key, codec.utcDay(rec.receivedAt), stored, |codec.Encode(rec)|);
  }

  /** With a segment open, no append but the first of a segment passes the size limit. */
  lemma {:induction false} SegmentsAreBounded(cfg: Config, codec: Codec, st: State, rec: Record, stored: Bytes)
    requires InPlace(st) && rec.key in st.open
    ensures var loc := LocationOf(cfg, codec, st, rec, stored);
            || loc.offset + loc.length <= cfg.maxBytes
            || (loc.offset == 0 && loc.segment !in st.plain && loc.segment !in st.zipped)
  {
    hide DirOf, LocationOf;
    AppendGoesTo(cfg, codec, st, rec, stored);
    var p := LocationOf(cfg, codec, st, rec, stored).segment;
    if p in st.plain || p in st.zipped { assert Beside(st, p, p); }
  }

  /** A segment that is left keeps all its bytes, compressed exactly if that is asked for and what was written to
      the compressed file is read back from it. */
  lemma {:induction false} LeftSegment(cfg: Config, codec: Codec, st: State, v: Streams, rec: Record, stored: Bytes)
    requires Represents(st, v) && Wellformed(st) && codec.Lawful() && rec.key in st.open
    ensures var st' := Step(cfg, codec, st, Append(rec, stored));
            var p := st.open[rec.key].path;
            LocationOf(cfg, codec, st, rec, stored).segment != p ==>
              if cfg.compress && stored == v[p] then p !in st'.plain && p in st'.zipped && st'.zipped[p] == v[p]
              else p in st'.plain && p !in st'.zipped && st'.plain[p] == v[p]
  {
    hide DirOf, Represents, NextNo;
    SegmentIsOk(st, v, rec.key);
    RepresentsApart(st, v, rec.key);
    var seg := st.open[rec.key];
    assert seg.buffer[..|seg.buffer|] == seg.buffer;
    assert FlushKey(st, rec.key).plain[seg.path] == v[seg.path];
  }

  lemma ClosedKeepsStreams(st: State, v: Streams)
    requires Represents(st, v) && forall k :: k in st.open ==> st.open[k].buffer == []
    ensures Represents(st.(open := map[]), v)
  {
    hide DirOf;
    var st' := st.(open := map[]);
    forall p | p in st'.plain
      ensures v[p] == st'.plain[p]
    {
      if IsOpen(st, p) {
        var k :| k in st.open && st.open[k].path == p;
        assert SegmentOk(st, k, v);
      }
    }
  }

  /** Closing leaves no segment open and no byte in a buffer: the files alone are the streams then. */
  lemma {:induction false} ClosedIsOnDisk(cfg: Config, codec: Codec, st: State, v: Streams, order: seq<Key>)
    requires Represents(st, v) && CoversOpen(st, order)
    ensures Wellformed(st)
    ensures var st' := Step(cfg, codec, st, Close(order));
            st'.open == map[] && st'.plain + st'.zipped == v && Represents(st', v)
  {
    hide DirOf, Represents;
    RepresentsIsWellformed(st, v);
    FlushedAllKeepsStreams(st, v, order);
    ClosedKeepsStreams(FlushedAll(st, order), v);
    FilesAreStreams(Step(cfg, codec, st, Close(order)), v);
  }

  lemma FilesAreStreams(st: State, v: Streams)
    requires Represents(st, v) && st.open == map[]
    ensures st.plain + st.zipped == v
  {
    forall p
      ensures !IsOpen(st, p)
    {
    }
    assert (st.plain + st.zipped).Keys == v.Keys;
  }

  /** The keys of a run live in directories of their own. */
  ghost predicate Distinct(root: Dir, keys: set<Key>) {
    forall k, k' :: k in keys && k' in keys && DirOf(root, k) == DirOf(root, k') ==> k == k'
  }

  /** All operations but appends leave the streams as they are. */
  lemma DiskStepKeepsStreams(cfg: Config, codec: Codec, st: State, v: Streams, op: Op, keys: set<Key>)
    requires Represents(st, v) && Wellformed(st) && st.open.Keys <= keys && !op.Append?
    ensures var st' := Step(cfg, codec, st, op);
            Represents(st', v) && Wellformed(st') && st'.open.Keys <= keys && st'.root == st.root
  {
    hide DirOf, Represents;
    match op {
      case Spill(key, n) =>
        if key in st.open && n <= |st.open[key].buffer| { SpilledKeepsStreams(st, v, key, n); }
      case Flush(order) =>
        FlushedAllKeepsStreams(st, v, order);
      case Close(order) =>
        FlushedAllKeepsStreams(st, v, order);
        if CoversOpen(st, order) { ClosedKeepsStreams(FlushedAll(st, order), v); }
    }
    RepresentsIsWellformed(Step(cfg, codec, st, op), v);
  }

  lemma StepIsSafe(cfg: Config, codec: Codec, st: State, v: Streams, op: Op, keys: set<Key>) returns (v': Streams)
    requires Represents(st, v) && Wellformed(st) && codec.Lawful() && Distinct(st.root, keys) && st.open.Keys <= keys
    requires op.Append? ==> op.rec.key in keys
    ensures var st' := Step(cfg, codec, st, op);
            Represents(st', v') && Wellformed(st') && st'.open.Keys <= keys && Grows(v, v') && st'.root == st.root
  {
    hide DirOf, Represents, Step, Prepared;
    v' := v;
    if op.Append? {
      v' := AppendIsSafe(cfg, codec, st, v, op.rec, op.stored);
    } else {
      DiskStepKeepsStreams(cfg, codec, st, v, op, keys);
    }
  }

  lemma AppendIsSafe(cfg: Config, codec: Codec, st: State, v: Streams, rec: Record, stored: Bytes) returns (v': Streams)
    requires Represents(st, v) && Wellformed(st) && codec.Lawful() && Separate(st, rec.key)
    ensures var st' := Step(cfg, codec, st, Append(rec, stored));
            Represents(st', v') && Wellformed(st') && st'.open.Keys == st.open.Keys + {rec.key} && Grows(v, v') &&
                st'.root == st.root
  {
    hide DirOf, Represents, Prepared;
    var line, day := codec.Encode(rec), codec.utcDay(rec.receivedAt);
    AppendedExtends(cfg, codec.sha256, st, v, rec.key, day, line, stored);
    AppendedKeys(cfg, codec.sha256, st, rec.key, day, line, stored);
    v' := Extended(v, LocationOf(cfg, codec, st, rec, stored).segment, line);
    RepresentsIsWellformed(Step(cfg, codec, st, Append(rec, stored)), v');
  }

  lemma AppendedKeys(cfg: Config, sha256: Bytes -> string, st: State, key: Key, day: string, line: Bytes, stored: Bytes)
    requires Wellformed(st)
    ensures var st' := Appended(cfg, sha256, st, key, day, line, stored);
            st'.open.Keys == st.open.Keys + {key} && st'.root == st.root
  {
    hide DirOf, NextNo;
  }

  /** The states before the first operation, between operations and after the last one. */
  ghost predicate IsRun(cfg: Config, codec: Codec, states: seq<State>, ops: seq<Op>) {
    && |states| == |ops| + 1
    && forall i :: 0 <= i < |ops| ==> Wellformed(states[i]) && states[i + 1] == Step(cfg, codec, states[i], ops[i])
  }

  /** A run from any consistent directory tree, over keys with separate directories. */
  ghost predicate IsSafeRun(cfg: Config, codec: Codec, states: seq<State>, ops: seq<Op>, v: Streams, keys: set<Key>) {
    && IsRun(cfg, codec, states, ops) && codec.Lawful()
    && Represents(states[0], v) && states[0].open.Keys <= keys && Distinct(states[0].root, keys)
    && forall i :: 0 <= i < |ops| && ops[i].Append? ==> ops[i].rec.key in keys
  }

  lemma {:induction false} RunOnlyGrows(cfg: Config, codec: Codec, states: seq<State>, ops: seq<Op>, v0: Streams,
      keys: set<Key>, i: nat, vi: Streams, j: nat)
    returns (vj: Streams)
    requires IsSafeRun(cfg, codec, states, ops, v0, keys) && i <= j <= |ops|
    requires Represents(states[i], vi) && states[i].open.Keys <= keys && states[i].root == states[0].root
    ensures Represents(states[j], vj) && Wellformed(states[j]) && states[j].open.Keys <= keys && Grows(vi, vj)
    ensures states[j].root == states[0].root
    decreases j - i
  {
    hide DirOf, Represents, Step;
    if i == j {
      RepresentsIsWellformed(states[i], vi);
      vj := vi;
    } else {
      var v := RunOnlyGrows(cfg, codec, states, ops, v0, keys, i, vi, j - 1);
      vj := StepIsSafe(cfg, codec, states[j - 1], v, ops[j - 1], keys);
    }
  }

  datatype LoadResult = NoFile | NotJson | Loaded(line: Line)

  datatype ReadResult = FileNotFound | BadRecord | Payload(bytes: Bytes)

  function LoadedLine(codec: Codec, bytes: Option<Bytes>): LoadResult {
    match bytes
    case None => NoFile
    case Some(b) =>
      match codec.loads(b)
      case None => NotJson
      case Some(line) => Loaded(line)
  }

  function DecodedPayload(codec: Codec, bytes: Option<Bytes>): ReadResult {
    match LoadedLine(codec, bytes)
    case NoFile => FileNotFound
    case NotJson => BadRecord
    case Loaded(line) => Payload(codec.b64decode(line.payloadB64))
  }

  /** The line says of its record all there is to say but the tenant, which only the path keeps. */
  ghost predicate Describes(codec: Codec, line: Line, rec: Record) {
    && line.rawId == rec.rawId
    && line.receivedAt == rec.receivedAt
    && line.sourceId == rec.key.source
    && line.transport == rec.transport
    && line.peer == rec.peer
    && line.length == |rec.payload|
    && codec.b64decode(line.payloadB64) == rec.payload
  }

  /** The stored line of a record, read again, gives back every field: two records of one tenant and one stored
      line are the same record. */
  lemma StoredLineDescribes(codec: Codec, rec: Record)
    requires codec.Lawful()
    ensures var result := LoadedLine(codec, Some(codec.Encode(rec)));
            result.Loaded? && Describes(codec, result.line, rec)
  {
  }

  /** `read` at this state: flush every open segment in some order, then look at the disk. */
  ghost function ReadBack(codec: Codec, st: State, order: seq<Key>, loc: Location): ReadResult {
    DecodedPayload(codec, ReadAt(FlushedAll(st, order), loc))
  }

  /** `read_record` at this state. */
  ghost function LineReadBack(codec: Codec, st: State, order: seq<Key>, loc: Location): LoadResult {
    LoadedLine(codec, ReadAt(FlushedAll(st, order), loc))
  }

  lemma HeldReadsBack(codec: Codec, st: State, v: Streams, order: seq<Key>, loc: Location, rec: Record)
    requires codec.Lawful() && Represents(st, v) && Holds(v, loc, codec.Encode(rec)) && CoversOpen(st, order)
    ensures ReadBack(codec, st, order, loc) == Payload(rec.payload)
    ensures var result := LineReadBack(codec, st, order, loc);
            result.Loaded? && Describes(codec, result.line, rec)
  {
    hide DirOf, Represents, ReadAt, FlushedAll;
    FlushedAllKeepsStreams(st, v, order);
    ReadsFromDisk(FlushedAll(st, order), v, loc, codec.Encode(rec));
  }

  /** Every location an append returned reads back that record's payload in every later state of the run. */
  lemma LocationsStayValid(cfg: Config, codec: Codec, states: seq<State>, ops: seq<Op>, v0: Streams, keys: set<Key>,
      i: nat, j: nat, order: seq<Key>)
    requires IsSafeRun(cfg, codec, states, ops, v0, keys)
    requires i < j <= |ops| && ops[i].Append? && CoversOpen(states[j], order)
    ensures ReadBack(codec, states[j], order, LocationOf(cfg, codec, states[i], ops[i].rec, ops[i].stored))
            == Payload(ops[i].rec.payload)
    ensures var loc := LocationOf(cfg, codec, states[i], ops[i].rec, ops[i].stored);
            var result := LineReadBack(codec, states[j], order, loc);
            result.Loaded? && Describes(codec, result.line, ops[i].rec)
  {
    hide DirOf, Represents, Step, ReadBack, LineReadBack;
    var loc := LocationOf(cfg, codec, states[i], ops[i].rec, ops[i].stored);
    var vj := LocationHeld(cfg, codec, states, ops, v0, keys, i, j);
    HeldReadsBack(codec, states[j], vj, order, loc, ops[i].rec);
  }

  lemma LocationHeld(cfg: Config, codec: Codec, states: seq<State>, ops: seq<Op>, v0: Streams, keys: set<Key>,
      i: nat, j: nat)
    returns (vj: Streams)
    requires IsSafeRun(cfg, codec, states, ops, v0, keys)
    requires i < j <= |ops| && ops[i].Append?
    ensures Represents(states[j], vj) && Wellformed(states[j]) && states[j].open.Keys <= keys &&
            states[j].root == states[0].root
    ensures Holds(vj, LocationOf(cfg, codec, states[i], ops[i].rec, ops[i].stored), codec.Encode(ops[i].rec))
  {
    hide DirOf, Represents, Prepared, NextNo;
    var vi := RunOnlyGrows(cfg, codec, states, ops, v0, keys, 0, v0, i);
    var rec, stored := ops[i].rec, ops[i].stored;
    var line, day := codec.Encode(rec), codec.utcDay(rec.receivedAt);
    AppendedExtends(cfg, codec.sha256, states[i], vi, rec.key, day, line, stored);
    AppendedKeys(cfg, codec.sha256, states[i], rec.key, day, line, stored);
    var loc := LocationOf(cfg, codec, states[i], rec, stored);
    var v := Extended(vi, loc.segment, line);
    vj := RunOnlyGrows(cfg, codec, states, ops, v0, keys, i + 1, v, j);
    HoldsForever(v, vj, loc, line);
  }

  /** Byte ranges handed out for one segment never overlap: a later one starts at or after an earlier one's end. */
  lemma LocationsDoNotOverlap(cfg: Config, codec: Codec, states: seq<State>, ops: seq<Op>, v0: Streams,
      keys: set<Key>, i: nat, j: nat)
    requires IsSafeRun(cfg, codec, states, ops, v0, keys)
    requires i < j < |ops| && ops[i].Append? && ops[j].Append?
    ensures var first := LocationOf(cfg, codec, states[i], ops[i].rec, ops[i].stored);
            var second := LocationOf(cfg, codec, states[j], ops[j].rec, ops[j].stored);
            first.segment == second.segment ==> first.offset + first.length <= second.offset
  {
    hide DirOf, Represents, Step, Prepared;
    var vj := LocationHeld(cfg, codec, states, ops, v0, keys, i, j);
    var rec := ops[j].rec;
    AppendedExtends(cfg, codec.sha256, states[j], vj, rec.key, codec.utcDay(rec.receivedAt), codec.Encode(rec),
        ops[j].stored);
  }

  // ------------------------------------------------------------ where the promise fails

  lemma SlugExamples()
    ensures Slug("a/b") == "a_b" && Slug("a b") == "a_b"
  {
    assert Squash("b", true) == "b" by { assert "b"[1..] == ""; }
    assert Squash("/b", false) == "_b" by { assert "/b"[1..] == "b"; }
    assert Squash(" b", false) == "_b" by { assert " b"[1..] == "b"; }
    assert Squash("a/b", false) == "a_b" by { assert "a/b"[1..] == "/b"; }
    assert Squash("a b", false) == "a_b" by { assert "a b"[1..] == " b"; }
  }

  /** The first append for a key without an open segment, in a directory that is empty. */
  lemma FirstAppend(root: Dir, cfg: Config, sha256: Bytes -> string, key: Key, day: string, line: Bytes, stored: Bytes)
    ensures var path := Path(DirOf(root, key), day, 1);
            && Appended(cfg, sha256, Empty(root), key, day, line, stored)
               == State(root, map[path := []], map[], map[key := Segment(path, |line|, line)])
            && AppendedAt(cfg, sha256, Empty(root), key, day, line, stored) == Location(path, 0, |line|)
  {
    hide DirOf;
    assert NumbersIn(Empty(root), DirOf(root, key), day) == {};
    assert [] + line == line;
  }

  /** Directories of two keys may coincide, and that is exactly when two keys' first appends of a day are given
      overlapping ranges: the second one resumes the file, whose size does not count the first one's buffer. */
  lemma FirstAppendsOverlapIffOneDirectory(root: Dir, cfg: Config, sha256: Bytes -> string, a: Key, b: Key,
      day: string, lineA: Bytes, lineB: Bytes)
    requires a != b && lineA != [] && lineB != []
    ensures var st1 := Appended(cfg, sha256, Empty(root), a, day, lineA, []);
            && Wellformed(st1)
            && var first := AppendedAt(cfg, sha256, Empty(root), a, day, lineA, []);
               var second := AppendedAt(cfg, sha256, st1, b, day, lineB, []);
               (first.segment == second.segment && second.offset < first.offset + first.length)
               <==> DirOf(root, a) == DirOf(root, b)
  {
    hide DirOf;
    FirstAppend(root, cfg, sha256, a, day, lineA, []);
    var path := Path(DirOf(root, a), day, 1);
    var st1 := State(root, map[path := []], map[], map[a := Segment(path, |lineA|, lineA)]);
    assert path in st1.plain.Keys + st1.zipped.Keys;
    if DirOf(root, a) == DirOf(root, b) {
      assert NumbersIn(st1, DirOf(root, b), day) == {1};
      assert NextNo(st1, DirOf(root, b), day, false) == 1;
    }
  }

  lemma TwoSourcesCollide(root: Dir)
    ensures DirOf(root, Key("t", "a/b")) == DirOf(root, Key("t", "a b"))
  {
    SlugExamples();
  }

  lemma DotSlugs()
    ensures Slug(".") == "." && Slug("..") == ".."
  {
    assert Squash(".", false) == "." by { assert "."[1..] == ""; }
    assert Squash("..", false) == ".." by { assert ".."[1..] == "."; }
  }

  /** Names of dots alone are kept by the slug rule and resolved by the file system: the sources ".." of all tenants
      share the root, and a source "." of a tenant shares with the source of that name of the tenant ".". */
  lemma DotsCollide(root: Dir, a: string, b: string)
    requires Slug(a) != "." && Slug(a) != ".." && Slug(b) != "." && Slug(b) != ".."
    ensures DirOf(root, Key(a, "..")) == DirOf(root, Key(b, "..")) == root
    ensures DirOf(root, Key(a, ".")) == DirOf(root, Key(".", a))
  {
    hide Slug;
    DotSlugs();
  }

  /** Keys whose slugs have other characters than dots share a directory exactly if the slugs agree. */
  lemma PlainKeysCollideIffSlugsAgree(root: Dir, a: Key, b: Key)
    requires forall name :: name in {a.tenant, a.source, b.tenant, b.source} ==> Slug(name) != "." && Slug(name) != ".."
    ensures DirOf(root, a) == DirOf(root, b) <==> Slug(a.tenant) == Slug(b.tenant) && Slug(a.source) == Slug(b.source)
  {
    hide Slug;
    var s, t := Slug(a.tenant), Slug(b.tenant);
    assert DirOf(root, a)[|root|] == s && DirOf(root, b)[|root|] == t;
    assert DirOf(root, a)[|root| + 1] == Slug(a.source) && DirOf(root, b)[|root| + 1] == Slug(b.source);
  }

  // ------------------------------------------------------------ the store

  /** Every location of a log holds its record. */
  ghost predicate AllHold(codec: Codec, v: Streams, log: seq<(Location, Record)>) {
    forall i :: 0 <= i < |log| ==> Holds(v, log[i].0, codec.Encode(log[i].1))
  }

  lemma LogHolds(codec: Codec, v: Streams, v': Streams, log: seq<(Location, Record)>, loc: Location, rec: Record)
    requires AllHold(codec, v, log) && Grows(v, v') && Holds(v', loc, codec.Encode(rec))
    ensures AllHold(codec, v', log + [(loc, rec)])
  {
    hide Holds, Grows;
    forall i | 0 <= i < |log|
      ensures Holds(v', log[i].0, codec.Encode(log[i].1))
    {
      HoldsForever(v, v', log[i].0, codec.Encode(log[i].1));
    }
  }

  class LocalRawStore {
    const root: Dir
    const cfg: Config
    const codec: Codec
    var plain: map<Path, Bytes>
    var zipped: map<Path, Bytes>
    var segments: map<Key, Segment>
    ghost var streams: Streams
    ghost var log: seq<(Location, Record)>

    ghost function Now(): State reads this { State(root, plain, zipped, segments) }

    /** Among the rest: every location ever returned still holds its record. */
    ghost predicate Valid()
      reads this
    {
      && codec.Lawful()
      && Represents(Now(), streams)
      && AllHold(codec, streams, log)
    }

    /** A store over the files an earlier process left behind. */
    constructor (root: Dir, cfg: Config, codec: Codec, plain: map<Path, Bytes>, zipped: map<Path, Bytes>)
      requires codec.Lawful() && plain.Keys !! zipped.Keys
      ensures Valid() && Now() == State(root, plain, zipped, map[]) && log == [] && this.cfg == cfg &&
              this.codec == codec
      ensures streams == plain + zipped
    {
      this.root, this.cfg, this.codec, this.plain, this.zipped, segments := root, cfg, codec, plain, zipped, map[];
      streams, log := plain + zipped, [];
    }

    /** The state and the location are the specified ones in any case; the streams stay represented, and every
        location in the log valid, if no other open segment lives in the key's directory. */
    method Append(rec: Record, stored: Bytes) returns (loc: Location)
      requires Wellformed(Now())
      modifies this
      ensures Now() == old(Step(cfg, codec, Now(), Op.Append(rec, stored)))
      ensures loc == old(LocationOf(cfg, codec, Now(), rec, stored))
      ensures old(InPlace(Now())) ==> GoesTo(cfg, old(Now()), rec.key, codec.utcDay(rec.receivedAt), loc)
      ensures loc.length == |codec.Encode(rec)|
      ensures log == old(log) + [(loc, rec)]
      ensures streams == Extended(old(streams), loc.segment, codec.Encode(rec))
      ensures old(Valid() && Separate(Now(), rec.key)) ==> Valid() && Grows(old(streams), streams)
    {
      hide DirOf, Represents, Prepared, Written, AllHold, Grows, Extended, InPlace, GoesTo;
      var day := codec.utcDay(rec.receivedAt);
      var line := codec.Encode(rec);
      ghost var before, safe := streams, Valid() && Separate(Now(), rec.key);
      if safe { AppendedExtends(cfg, codec.sha256, Now(), streams, rec.key, day, line, stored); }
      if InPlace(Now()) { AppendGoesTo(cfg, codec, Now(), rec, stored); }
      Prepare(rec.key, day, line, stored);
      loc := Write(rec.key, line);
      streams := Extended(before, loc.segment, line);
      if safe { LogHolds(codec, before, streams, log, loc, rec); }
      log := log + [(loc, rec)];
    }

    /** Rotates to another segment if the line does not belong in, or fit, the open one. */
    method Prepare(key: Key, day: string, line: Bytes, stored: Bytes)
      requires Wellformed(Now())
      modifies this`plain, this`zipped, this`segments
      ensures Now() == old(Prepared(cfg, codec.sha256, Now(), key, day, line, stored)) && key in segments
    {
      hide Rotated;
      if key !in segments || segments[key].path.day != day || segments[key].size + |line| > cfg.maxBytes {
        Rotate(key, day, stored);
      }
    }

    method Write(key: Key, line: Bytes) returns (loc: Location)
      requires key in segments
      modifies this`segments
      ensures Now() == Written(old(Now()), key, line)
      ensures loc == Location(old(segments)[key].path, old(segments)[key].size, |line|)
    {
      var seg := segments[key];
      loc := Location(seg.path, seg.size, |line|);
      segments := segments[key := seg.(size := seg.size + |line|, buffer := seg.buffer + line)];
    }

    /** The highest segment number of a directory: the last name of its sorted listing. */
    method LastNumber(dir: Dir, day: string) returns (existing: bool, last: nat)
      ensures existing <==> NumbersIn(Now(), dir, day) != {}
      ensures existing ==> last == Maximum(NumbersIn(Now(), dir, day))
    {
      var todo := NumbersIn(State(root, plain, zipped, segments), dir, day);
      existing, last := false, 0;
      while todo != {}
        invariant todo <= NumbersIn(Now(), dir, day)
        invariant existing <==> todo != NumbersIn(Now(), dir, day)
        invariant existing ==> last in NumbersIn(Now(), dir, day)
        invariant forall n :: n in NumbersIn(Now(), dir, day) && n !in todo ==> n <= last
        decreases todo
      {
        var n :| n in todo;
        if !existing || last < n {
          last := n;
        }
        existing := true;
        todo := todo - {n};
      }
    }

    method Compress(path: Path, stored: Bytes)
      requires path in plain
      modifies this`plain, this`zipped
      ensures Now() == old(Compressed(Now(), path, stored, codec.sha256))
    {
      zipped := zipped[path := stored];
      var h1, h2 := codec.sha256(plain[path]), codec.sha256(stored);
      if h1 == h2 {
        plain := plain - {path};
      } else {
        zipped := zipped - {path};
      }
      assert h1 != h2 ==> zipped == old(zipped) - {path};
    }

    /** Flushes and closes a key's segment, and compresses its file. */
    method Retire(key: Key, stored: Bytes)
      requires Wellformed(Now()) && key in segments
      modifies this`plain, this`zipped, this`segments
      ensures Now() == old(Retired(cfg, codec.sha256, Now(), key, stored))
    {
      hide DirOf;
      var seg := segments[key];
      plain := plain[seg.path := plain[seg.path] + seg.buffer];
      segments := segments - {key};
      assert seg.buffer[..|seg.buffer|] == seg.buffer;
      assert Now() == old(Detached(FlushKey(Now(), key), key));
      if cfg.compress {
        Compress(seg.path, stored);
      }
    }

    method NextNumber(dir: Dir, day: string, hadOld: bool) returns (no: nat)
      ensures no == NextNo(Now(), dir, day, hadOld)
    {
      hide Maximum;
      var existing, last := LastNumber(dir, day);
      no := 1;
      if existing {
        no := last + if hadOld || Path(dir, day, last) in zipped then 1 else 0;
        if no == 0 {
          no := 1;
        }
      }
    }

    method Rotate(key: Key, day: string, stored: Bytes)
      requires Wellformed(Now())
      modifies this`plain, this`zipped, this`segments
      ensures Now() == old(Rotated(cfg, codec.sha256, Now(), key, day, stored)) && key in segments
    {
      hide DirOf, NextNo, Retired;
      var hadOld := key in segments;
      if hadOld {
        Retire(key, stored);
      }
      var dir := DirOf(root, key);
      var no := NextNumber(dir, day, hadOld);
      var path := Path(dir, day, no);
      if path !in plain {
        plain := plain[path := []];
      }
      segments := segments[key := Segment(path, |plain[path]|, [])];
      assert plain == plain[path := plain[path]];
    }

    method FlushSegments()
      requires Valid()
      modifies this`plain, this`segments
      ensures Valid() && zipped == old(zipped)
      ensures segments.Keys == old(segments.Keys) && forall k :: k in segments ==> segments[k].buffer == []
    {
      hide DirOf, Represents;
      var todo := segments.Keys;
      while todo != {}
        invariant Valid() && todo <= segments.Keys && segments.Keys == old(segments.Keys)
        invariant forall k :: k in segments && k !in todo ==> segments[k].buffer == []
        decreases todo
      {
        var k :| k in todo;
        SpilledKeepsStreams(Now(), streams, k, |segments[k].buffer|);
        var seg := segments[k];
        assert seg.buffer[..|seg.buffer|] == seg.buffer && seg.buffer[|seg.buffer|..] == [];
        plain := plain[seg.path := plain[seg.path] + seg.buffer];
        segments := segments[k := seg.(buffer := [])];
        todo := todo - {k};
      }
    }

    /** The bytes at a location, read from the plain file if there is one and else from the compressed one. */
    method ReadLine(loc: Location) returns (bytes: Option<Bytes>)
      requires Valid()
      modifies this`plain, this`segments
      ensures Valid() && zipped == old(zipped) && segments.Keys == old(segments.Keys)
      ensures bytes == ReadAt(Now(), loc)
      ensures forall b :: Holds(streams, loc, b) ==> bytes == Some(b)
    {
      hide DirOf, Represents;
      FlushSegments();
      if loc.segment in plain {
        bytes := Some(Slice(plain[loc.segment], loc.offset, loc.length));
      } else if loc.segment in zipped {
        bytes := Some(Slice(zipped[loc.segment], loc.offset, loc.length));
      } else {
        bytes := None;
      }
      forall b | Holds(streams, loc, b)
        ensures bytes == Some(b)
      {
        ReadsFromDisk(Now(), streams, loc, b);
      }
    }

    /** Loading any location ever returned gives back all fields of that record. */
    method ReadRecord(loc: Location) returns (result: LoadResult)
      requires Valid()
      modifies this`plain, this`segments
      ensures Valid() && zipped == old(zipped) && segments.Keys == old(segments.Keys)
      ensures result == LoadedLine(codec, ReadAt(Now(), loc))
      ensures forall i :: 0 <= i < |log| && log[i].0 == loc ==>
                result.Loaded? && Describes(codec, result.line, log[i].1)
    {
      hide DirOf, Represents, Describes;
      var bytes := ReadLine(loc);
      result := LoadedLine(codec, bytes);
      forall i | 0 <= i < |log| && log[i].0 == loc
        ensures result.Loaded? && Describes(codec, result.line, log[i].1)
      {
        assert Holds(streams, loc, codec.Encode(log[i].1));
        StoredLineDescribes(codec, log[i].1);
      }
    }

    /** Reading any location ever returned gives back that record's payload. */
    method Read(loc: Location) returns (result: ReadResult)
      requires Valid()
      modifies this`plain, this`segments
      ensures Valid() && zipped == old(zipped) && segments.Keys == old(segments.Keys)
      ensures result == DecodedPayload(codec, ReadAt(Now(), loc))
      ensures forall i :: 0 <= i < |log| && log[i].0 == loc ==> result == Payload(log[i].1.payload)
    {
      hide DirOf, Represents;
      var loaded := ReadRecord(loc);
      result := match loaded
        case NoFile => FileNotFound
        case NotJson => BadRecord
        case Loaded(line) => Payload(codec.b64decode(line.payloadB64));
      assert forall i :: 0 <= i < |log| && log[i].0 == loc ==> Describes(codec, loaded.line, log[i].1);
    }

    /** Verification accepts exactly the digest of the record's payload. */
    method Verify(loc: Location, expected: string) returns (ok: bool)
      requires Valid()
      modifies this`plain, this`segments
      ensures Valid() && zipped == old(zipped) && segments.Keys == old(segments.Keys)
      ensures forall i :: 0 <= i < |log| && log[i].0 == loc ==> (ok <==> codec.sha256(log[i].1.payload) == expected)
    {
      hide DirOf, Represents;
      var result := Read(loc);
      ok := result.Payload? && codec.sha256(result.bytes) == expected;
    }

    method Close()
      requires Valid()
      modifies this`plain, this`segments
      ensures Valid() && zipped == old(zipped) && segments == map[] && plain + zipped == streams == old(streams)
    {
      hide DirOf, Represents;
      FlushSegments();
      ClosedKeepsStreams(Now(), streams);
      segments := map[];
      FilesAreStreams(Now(), streams);
    }
  }
}

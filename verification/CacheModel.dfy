/** The byte-range cache: chunk arithmetic, the shared state, and everything that may happen to that state
    between two accesses of a reader. */
module CacheModel {
  import opened Basics

  newtype Byte = x: int | 0 <= x < 256

  type Bytes = seq<Byte>

  type Positive = n: nat | n > 0 witness 1

  /** A chunk of an object; its byte range is `chunk * size .. (chunk + 1) * size`. */
  datatype Key = Key(path: string, chunk: nat)

  datatype CacheValue = File(size: nat) | Memory(data: Bytes)

  /** A spawned task that writes a chunk to disk, and whether it has created its file. */
  datatype Write = Write(id: nat, key: Key, data: Bytes, started: bool)

  /** A file on disk: the bytes it has so far, whether its write has finished, and which write created it. */
  datatype DiskFile = DiskFile(data: Bytes, whole: bool, writer: nat)

  datatype CacheState = CacheState(cache: map<Key, CacheValue>, disk: map<Key, DiskFile>, writes: seq<Write>,
                                   nextId: nat)

  const EMPTY_CACHE := CacheState(map[], map[], [], 0)

  // ---------------------------------------------------------------------------------------------
  // Chunks
  // ---------------------------------------------------------------------------------------------

  /** What the inner store returns: a range that starts inside the object is cut off at its end, and
      one that starts past it cannot be satisfied (RFC 9110, section 14.1.2). */
  function Fetch(obj: Bytes, from: nat, to: nat): Option<Bytes>
    requires from <= to
  {
    if from < |obj| then Some(obj[from..Min(to, |obj|)]) else None
  }

  /** The bytes between two positions, as far as the object has them. */
  function Cut(obj: Bytes, from: nat, to: nat): Bytes
    requires from <= to
  {
    obj[Min(from, |obj|)..Min(to, |obj|)]
  }

  lemma CutJoins(obj: Bytes, a: nat, b: nat, d: nat)
    requires a <= b <= d
    ensures Cut(obj, a, d) == Cut(obj, a, b) + Cut(obj, b, d)
  {
  }

  /** Where a chunk starts. */
  function Offset(i: nat, c: nat): nat {
    i * c
  }

  lemma Scaled(i: nat, j: nat, c: nat)
    requires i <= j
    ensures Offset(i, c) <= Offset(j, c) && (i < j ==> Offset(i, c) + c <= Offset(j, c))
    ensures Offset(i + 1, c) == Offset(i, c) + c
  {
    assert (i + 1) * c == i * c + c;
    var d := j - i;
    assert j * c == i * c + d * c;
    if d > 0 {
      assert d * c == (d - 1) * c + c;
      assert (d - 1) * c >= 0;
    }
  }

  /** The bytes of a chunk. */
  function Slice(obj: Bytes, c: nat, i: nat): Bytes {
    Scaled(i, i, c);
    Cut(obj, Offset(i, c), Offset(i + 1, c))
  }

  /** What the batch split stores for a chunk: its own bytes, or past the end the rest that was too
      short to split off. */
  function Piece(obj: Bytes, c: nat, i: nat): Bytes
    requires c > 0
  {
    if Offset(i, c) < |obj| then Slice(obj, c, i) else Tail(obj, c)
  }

  function Tail(obj: Bytes, c: nat): Bytes
    requires c > 0
  {
    WholeChunks(|obj|, c);
    obj[Offset(|obj| / c, c)..]
  }

  lemma WholeChunks(n: nat, c: nat)
    requires c > 0
    ensures Offset(n / c, c) <= n < Offset(n / c, c) + c
  {
  }

  // ---------------------------------------------------------------------------------------------
  // Steps of the shared state
  // ---------------------------------------------------------------------------------------------

  function CacheChunk(st: CacheState, key: Key, data: Bytes): CacheState {
    if key in st.cache then st
    else
      st.(cache := st.cache[key := Memory(data)],
          writes := st.writes + [Write(st.nextId, key, data, false)],
          nextId := st.nextId + 1)
  }

  /** Removing an entry also removes the file it points to. */
  function Remove(st: CacheState, key: Key): CacheState {
    if key !in st.cache then st
    else st.(cache := st.cache - {key}, disk := if st.cache[key].File? then st.disk - {key} else st.disk)
  }

  function Without(writes: seq<Write>, i: nat): seq<Write>
    requires i < |writes|
  {
    writes[..i] + writes[i + 1..]
  }

  /** A write that is over puts a file entry in the cache. Replacing an entry that already points to the
      file removes the file. */
  function PointToFile(st: CacheState, i: nat): CacheState
    requires i < |st.writes|
  {
    var w := st.writes[i];
    st.(cache := st.cache[w.key := File(|w.data|)],
        disk := if w.key in st.cache && st.cache[w.key].File? then st.disk - {w.key} else st.disk,
        writes := Without(st.writes, i))
  }

  /** A write that finds a file under its name takes it for its own and is over; otherwise it creates the
      file, which then has some of its bytes. */
  function StartWrite(st: CacheState, i: nat, n: nat): CacheState
    requires i < |st.writes| && n <= |st.writes[i].data|
  {
    var w := st.writes[i];
    if w.key in st.disk then PointToFile(st, i)
    else st.(disk := st.disk[w.key := DiskFile(w.data[..n], false, w.id)],
             writes := st.writes[i := w.(started := true)])
  }

  /** The file of the write is still there. */
  predicate OwnsFile(st: CacheState, w: Write) {
    w.started && w.key in st.disk && st.disk[w.key].writer == w.id
  }

  function GrowWrite(st: CacheState, i: nat, n: nat): CacheState
    requires i < |st.writes| && n <= |st.writes[i].data| && OwnsFile(st, st.writes[i])
  {
    var w := st.writes[i];
    st.(disk := st.disk[w.key := DiskFile(w.data[..n], false, w.id)])
  }

  /** The rest of the write, or all of it if it has not started. */
  function FinishWrite(st: CacheState, i: nat): CacheState
    requires i < |st.writes|
  {
    var w := st.writes[i];
    var writesFile := if w.started then OwnsFile(st, w) else w.key !in st.disk;
    PointToFile(if writesFile then st.(disk := st.disk[w.key := DiskFile(w.data, true, w.id)]) else st, i)
  }

  /** A write that fails leaves its file as it is, and drops the entry. */
  function FailWrite(st: CacheState, i: nat): CacheState
    requires i < |st.writes|
  {
    Remove(st.(writes := Without(st.writes, i)), st.writes[i].key)
  }

  /** What other tasks, the cache policy and the file system do between two accesses of a reader. */
  datatype CacheStep =
    | Evict(key: Key)
    | LoseFile(key: Key)
    | WriteStarts(index: nat, bytes: nat)
    | WriteGrows(index: nat, bytes: nat)
    | WriteDone(index: nat)
    | WriteFails(index: nat)
    | Insert(key: Key)

  /** A step that is not possible leaves the state as it is. */
  function Apply(st: CacheState, step: CacheStep, objects: string -> Bytes, c: nat): CacheState
    requires c > 0
  {
    match step
    case Evict(key) => Remove(st, key)
    case LoseFile(key) => st.(disk := st.disk - {key})
    case WriteStarts(i, n) =>
      if i < |st.writes| && !st.writes[i].started && n <= |st.writes[i].data| then StartWrite(st, i, n) else st
    case WriteGrows(i, n) =>
      if i < |st.writes| && n <= |st.writes[i].data| && OwnsFile(st, st.writes[i]) && !st.disk[st.writes[i].key].whole
      then GrowWrite(st, i, n) else st
    case WriteDone(i) => if i < |st.writes| then FinishWrite(st, i) else st
    case WriteFails(i) =>
      if i < |st.writes| && (st.writes[i].started || st.writes[i].key !in st.disk) then FailWrite(st, i) else st
    case Insert(key) => CacheChunk(st, key, Piece(objects(key.path), c, key.chunk))
  }

  // ---------------------------------------------------------------------------------------------
  // True bytes
  // ---------------------------------------------------------------------------------------------

  /** The key names bytes of an object; a path without an object behaves like an empty one. */
  predicate Inside(objects: string -> Bytes, c: nat, key: Key) {
    Offset(key.chunk, c) < |objects(key.path)|
  }

  function Truth(objects: string -> Bytes, c: nat, key: Key): Bytes
    requires Inside(objects, c, key)
  {
    Slice(objects(key.path), c, key.chunk)
  }

  ghost predicate IsTrue(objects: string -> Bytes, c: nat, key: Key, data: Bytes) {
    Inside(objects, c, key) ==> data == Truth(objects, c, key)
  }

  /** Every memory entry, every finished file and every write in flight has the true bytes of its chunk. */
  ghost predicate TrueBytes(st: CacheState, objects: string -> Bytes, c: nat) {
    && (forall key :: key in st.cache && st.cache[key].Memory? ==> IsTrue(objects, c, key, st.cache[key].data))
    && (forall key :: key in st.disk && st.disk[key].whole ==> IsTrue(objects, c, key, st.disk[key].data))
    && (forall i :: 0 <= i < |st.writes| ==> IsTrue(objects, c, st.writes[i].key, st.writes[i].data))
  }

  lemma ChunkKeepsTrue(st: CacheState, key: Key, data: Bytes, objects: string -> Bytes, c: nat)
    requires TrueBytes(st, objects, c) && IsTrue(objects, c, key, data)
    ensures TrueBytes(CacheChunk(st, key, data), objects, c)
  {
    hide IsTrue;
  }

  lemma RemoveKeepsTrue(st: CacheState, key: Key, objects: string -> Bytes, c: nat)
    requires TrueBytes(st, objects, c)
    ensures TrueBytes(Remove(st, key), objects, c)
  {
    hide IsTrue;
  }

  lemma PointKeepsTrue(st: CacheState, i: nat, objects: string -> Bytes, c: nat)
    requires TrueBytes(st, objects, c) && i < |st.writes|
    ensures TrueBytes(PointToFile(st, i), objects, c)
  {
    hide IsTrue;
  }

  lemma FileKeepsTrue(st: CacheState, key: Key, f: DiskFile, objects: string -> Bytes, c: nat)
    requires TrueBytes(st, objects, c) && (f.whole ==> IsTrue(objects, c, key, f.data))
    ensures TrueBytes(st.(disk := st.disk[key := f]), objects, c)
  {
    hide IsTrue;
  }

  lemma LoseKeepsTrue(st: CacheState, key: Key, objects: string -> Bytes, c: nat)
    requires TrueBytes(st, objects, c)
    ensures TrueBytes(st.(disk := st.disk - {key}), objects, c)
  {
    hide IsTrue;
  }

  lemma DropKeepsTrue(st: CacheState, i: nat, objects: string -> Bytes, c: nat)
    requires TrueBytes(st, objects, c) && i < |st.writes|
    ensures TrueBytes(st.(writes := Without(st.writes, i)), objects, c)
  {
    hide IsTrue;
  }

  lemma StartedKeepsTrue(st: CacheState, i: nat, objects: string -> Bytes, c: nat)
    requires TrueBytes(st, objects, c) && i < |st.writes|
    ensures TrueBytes(st.(writes := st.writes[i := st.writes[i].(started := true)]), objects, c)
  {
    hide IsTrue;
  }

  lemma WriteIsTrue(st: CacheState, i: nat, objects: string -> Bytes, c: nat)
    requires TrueBytes(st, objects, c) && i < |st.writes|
    ensures IsTrue(objects, c, st.writes[i].key, st.writes[i].data)
  {
  }

  lemma PieceIsTrue(objects: string -> Bytes, c: nat, key: Key)
    requires c > 0
    ensures IsTrue(objects, c, key, Piece(objects(key.path), c, key.chunk))
  {
  }

  /** The bytes stay true whatever happens. */
  lemma StepKeepsTrue(st: CacheState, step: CacheStep, objects: string -> Bytes, c: nat)
    requires c > 0 && TrueBytes(st, objects, c)
    ensures TrueBytes(Apply(st, step, objects, c), objects, c)
  {
    hide TrueBytes, Remove, PointToFile, CacheChunk, Without, IsTrue, Piece;
    match step {
      case Evict(key) => RemoveKeepsTrue(st, key, objects, c);
      case LoseFile(key) => LoseKeepsTrue(st, key, objects, c);
      case WriteStarts(i, n) =>
        if i < |st.writes| && n <= |st.writes[i].data| {
          var w := st.writes[i];
          PointKeepsTrue(st, i, objects, c);
          StartedKeepsTrue(st, i, objects, c);
          FileKeepsTrue(st.(writes := st.writes[i := w.(started := true)]), w.key, DiskFile(w.data[..n], false, w.id),
                        objects, c);
        }
      case WriteGrows(i, n) =>
        if i < |st.writes| && n <= |st.writes[i].data| {
          FileKeepsTrue(st, st.writes[i].key, DiskFile(st.writes[i].data[..n], false, st.writes[i].id), objects, c);
        }
      case WriteDone(i) =>
        if i < |st.writes| {
          var w := st.writes[i];
          var f := DiskFile(w.data, true, w.id);
          WriteIsTrue(st, i, objects, c);
          FileKeepsTrue(st, w.key, f, objects, c);
          PointKeepsTrue(st, i, objects, c);
          PointKeepsTrue(st.(disk := st.disk[w.key := f]), i, objects, c);
        }
      case WriteFails(i) =>
        if i < |st.writes| {
          DropKeepsTrue(st, i, objects, c);
          RemoveKeepsTrue(st.(writes := Without(st.writes, i)), st.writes[i].key, objects, c);
        }
      case Insert(key) =>
        PieceIsTrue(objects, c, key);
        ChunkKeepsTrue(st, key, Piece(objects(key.path), c, key.chunk), objects, c);
    }
  }

  // ---------------------------------------------------------------------------------------------
  // Exposed files
  // ---------------------------------------------------------------------------------------------

  /** The entry points to a file that is not finished: a reader gets the part that is there. */
  ghost predicate ExposedAt(st: CacheState, key: Key) {
    key in st.cache && st.cache[key].File? && key in st.disk && !st.disk[key].whole
  }

  /** Some write of the chunk is in flight. */
  ghost predicate InFlight(st: CacheState, key: Key) {
    exists i :: 0 <= i < |st.writes| && st.writes[i].key == key
  }

  /** No write of the chunk is in flight, and none has left an unfinished file behind. */
  ghost predicate Settled(st: CacheState, key: Key) {
    !InFlight(st, key) && (key in st.disk ==> st.disk[key].whole)
  }

  /** A chunk is only inserted when earlier writes of it are settled. Evictions, lost files and failures
      may come at any time. */
  ghost predicate Orderly(st: CacheState, step: CacheStep) {
    step.Insert? && step.key !in st.cache ==> Settled(st, step.key)
  }

  /** The write that an unfinished file belongs to is in flight. */
  ghost predicate Owned(st: CacheState, key: Key)
    requires key in st.disk
  {
    exists i ::
      && 0 <= i < |st.writes| && st.writes[i].key == key && st.writes[i].started
      && st.writes[i].id == st.disk[key].writer
  }

  /** A failed write has left the file behind, and nothing refers to it. */
  ghost predicate Abandoned(st: CacheState, key: Key) {
    key !in st.cache && !InFlight(st, key)
  }

  /** At most one write per chunk is in flight, its entry is in memory or gone, and unfinished files are
      owned or abandoned. */
  ghost predicate Tidy(st: CacheState) {
    && (forall i, j :: 0 <= i < j < |st.writes| ==> st.writes[i].key != st.writes[j].key)
    && (forall i :: 0 <= i < |st.writes| && st.writes[i].key in st.cache ==> st.cache[st.writes[i].key].Memory?)
    && (forall key :: key in st.disk && !st.disk[key].whole ==> Owned(st, key) || Abandoned(st, key))
  }

  lemma TidyWhole(st: CacheState, key: Key)
    requires Tidy(st) && key in st.cache && st.cache[key].File?
    ensures !ExposedAt(st, key)
  {
    assert key in st.disk && !st.disk[key].whole ==> Owned(st, key) || Abandoned(st, key);
  }

  lemma OwnedBy(st: CacheState, key: Key, i: nat)
    requires key in st.disk && i < |st.writes| && st.writes[i].key == key && st.writes[i].started
    requires st.writes[i].id == st.disk[key].writer
    ensures Owned(st, key)
  {
  }

  /** The file of a write that does not own it is finished. */
  lemma OthersWhole(st: CacheState, i: nat)
    requires Tidy(st) && i < |st.writes| && !OwnsFile(st, st.writes[i])
    ensures var key := st.writes[i].key; key in st.disk ==> st.disk[key].whole
  {
    var key := st.writes[i].key;
    assert InFlight(st, key);
    forall j | 0 <= j < |st.writes| && st.writes[j].key == key ensures j == i {
    }
  }

  /** A write of an unchanged file is found again under the position it has now. */
  lemma StillOwned(st: CacheState, st': CacheState, key: Key)
    requires key in st.disk && key in st'.disk && st'.disk[key].writer == st.disk[key].writer && Owned(st, key)
    requires forall j :: 0 <= j < |st.writes| && st.writes[j].key == key && st.writes[j].started ==>
      st.writes[j] in st'.writes
    ensures Owned(st', key)
  {
    var j :|
      && 0 <= j < |st.writes| && st.writes[j].key == key && st.writes[j].started
      && st.writes[j].id == st.disk[key].writer;
    var k :| 0 <= k < |st'.writes| && st'.writes[k] == st.writes[j];
    OwnedBy(st', key, k);
  }

  lemma TidyInsert(st: CacheState, key: Key, data: Bytes)
    requires Tidy(st) && (key !in st.cache ==> Settled(st, key))
    ensures Tidy(CacheChunk(st, key, data))
  {
    var st' := CacheChunk(st, key, data);
    if key !in st.cache {
      forall i | 0 <= i < |st.writes| ensures st'.writes[i] == st.writes[i] && st.writes[i].key != key {
      }
      forall k | k in st'.disk && !st'.disk[k].whole ensures Owned(st', k) || Abandoned(st', k) {
        if Owned(st, k) {
          StillOwned(st, st', k);
        }
      }
    }
  }

  /** Removing an entry, whether or not its chunk is being written. */
  lemma TidyRemove(st: CacheState, key: Key)
    requires Tidy(st)
    ensures Tidy(Remove(st, key))
  {
    SameOwners(st, Remove(st, key));
  }

  lemma SameOwners(st: CacheState, st': CacheState)
    requires st'.writes == st.writes && forall key :: key in st'.cache ==> key in st.cache
    requires forall key :: key in st'.disk ==> key in st.disk && st'.disk[key] == st.disk[key]
    requires forall key :: key in st.disk && !st.disk[key].whole ==> Owned(st, key) || Abandoned(st, key)
    ensures forall key :: key in st'.disk && !st'.disk[key].whole ==> Owned(st', key) || Abandoned(st', key)
  {
    forall key | key in st'.disk && !st'.disk[key].whole ensures Owned(st', key) || Abandoned(st', key) {
      if Owned(st, key) {
        StillOwned(st, st', key);
      }
    }
  }

  lemma TidyLose(st: CacheState, key: Key)
    requires Tidy(st)
    ensures Tidy(st.(disk := st.disk - {key}))
  {
    SameOwners(st, st.(disk := st.disk - {key}));
  }

  lemma WithoutOne(writes: seq<Write>, i: nat)
    requires i < |writes| && forall a, b :: 0 <= a < b < |writes| ==> writes[a].key != writes[b].key
    ensures var rest := Without(writes, i);
      && (forall a, b :: 0 <= a < b < |rest| ==> rest[a].key != rest[b].key)
      && (forall a :: 0 <= a < |rest| ==> rest[a] in writes && rest[a].key != writes[i].key)
      && (forall a :: 0 <= a < |writes| && a != i ==> writes[a] in rest)
  {
    var rest := Without(writes, i);
    forall a | 0 <= a < |rest| ensures rest[a] == writes[if a < i then a else a + 1] {
    }
    forall a | 0 <= a < |writes| && a != i ensures writes[a] in rest {
      assert rest[if a < i then a else a - 1] == writes[a];
    }
  }

  /** What is left of the other chunks once a write is over. */
  lemma TidyOthers(st: CacheState, st': CacheState, i: nat)
    requires Tidy(st) && i < |st.writes| && st'.writes == Without(st.writes, i)
    requires forall key :: key != st.writes[i].key ==> (key in st'.cache <==> key in st.cache)
    requires forall key :: key != st.writes[i].key && key in st.cache && key in st'.cache ==>
      st'.cache[key] == st.cache[key]
    requires forall key :: key != st.writes[i].key && key in st'.disk ==>
      key in st.disk && st'.disk[key] == st.disk[key]
    requires var key := st.writes[i].key; key in st'.disk && !st'.disk[key].whole ==> key !in st'.cache
    ensures Tidy(st')
  {
    var w := st.writes[i];
    WithoutOne(st.writes, i);
    hide Without;
    forall j | 0 <= j < |st'.writes| && st'.writes[j].key in st'.cache ensures st'.cache[st'.writes[j].key].Memory? {
      var k :| 0 <= k < |st.writes| && st.writes[k] == st'.writes[j];
    }
    forall key | key in st'.disk && !st'.disk[key].whole ensures Owned(st', key) || Abandoned(st', key) {
      if key != w.key {
        OtherFile(st, st', i, key);
      }
    }
  }

  lemma OtherFile(st: CacheState, st': CacheState, i: nat, key: Key)
    requires i < |st.writes| && key != st.writes[i].key && key in st.disk && key in st'.disk
    requires st'.disk[key] == st.disk[key] && (key in st'.cache <==> key in st.cache)
    requires forall a :: 0 <= a < |st'.writes| ==> st'.writes[a] in st.writes
    requires forall a :: 0 <= a < |st.writes| && a != i ==> st.writes[a] in st'.writes
    requires Owned(st, key) || Abandoned(st, key)
    ensures Owned(st', key) || Abandoned(st', key)
  {
    if Owned(st, key) {
      StillOwned(st, st', key);
    } else {
      forall j | 0 <= j < |st'.writes| ensures st'.writes[j].key != key {
        var k :| 0 <= k < |st.writes| && st.writes[k] == st'.writes[j];
      }
    }
  }

  lemma TidyPoint(st: CacheState, i: nat)
    requires Tidy(st) && i < |st.writes| && (st.writes[i].key in st.disk ==> st.disk[st.writes[i].key].whole)
    ensures Tidy(PointToFile(st, i))
  {
    hide Tidy, Without;
    TidyOthers(st, PointToFile(st, i), i);
  }

  /** A write creates or extends its own file. */
  lemma TidyOwn(st: CacheState, i: nat, f: DiskFile)
    requires Tidy(st) && i < |st.writes| && f.writer == st.writes[i].id
    requires st.writes[i].key in st.disk ==> OwnsFile(st, st.writes[i])
    ensures var st' := st.(disk := st.disk[st.writes[i].key := f],
                           writes := st.writes[i := st.writes[i].(started := true)]);
      Tidy(st')
  {
    var w := st.writes[i];
    var st' := st.(disk := st.disk[w.key := f], writes := st.writes[i := w.(started := true)]);
    forall key | key in st'.disk && !st'.disk[key].whole ensures Owned(st', key) || Abandoned(st', key) {
      if key == w.key {
        OwnedBy(st', key, i);
      } else if Owned(st, key) {
        forall j | 0 <= j < |st.writes| && st.writes[j].key == key ensures st'.writes[j] == st.writes[j] {
        }
        StillOwned(st, st', key);
      } else {
        SameFlights(st, st', key);
      }
    }
  }

  lemma SameFlights(st: CacheState, st': CacheState, key: Key)
    requires Abandoned(st, key) && st'.cache == st.cache && |st'.writes| == |st.writes|
    requires forall j :: 0 <= j < |st.writes| ==> st'.writes[j].key == st.writes[j].key
    ensures Abandoned(st', key)
  {
  }

  lemma TidyDone(st: CacheState, i: nat)
    requires Tidy(st) && i < |st.writes|
    ensures Tidy(FinishWrite(st, i))
  {
    hide Tidy, PointToFile;
    var w := st.writes[i];
    if OwnsFile(st, w) || (!w.started && w.key !in st.disk) {
      var f := DiskFile(w.data, true, w.id);
      TidyOwn(st, i, f);
      var started := st.(disk := st.disk[w.key := f], writes := st.writes[i := w.(started := true)]);
      TidyPoint(started, i);
      SamePoint(st.(disk := st.disk[w.key := f]), started, i);
    } else {
      OthersWhole(st, i);
      TidyPoint(st, i);
    }
  }

  /** Whether a write had started does not matter once it is over. */
  lemma SamePoint(st: CacheState, st': CacheState, i: nat)
    requires i < |st.writes| && st' == st.(writes := st.writes[i := st.writes[i].(started := true)])
    ensures PointToFile(st', i) == PointToFile(st, i)
  {
    assert Without(st'.writes, i) == Without(st.writes, i);
  }

  lemma TidyStart(st: CacheState, i: nat, n: nat)
    requires Tidy(st) && i < |st.writes| && !st.writes[i].started && n <= |st.writes[i].data|
    ensures Tidy(StartWrite(st, i, n))
  {
    hide Tidy, PointToFile;
    var w := st.writes[i];
    if w.key in st.disk {
      OthersWhole(st, i);
      TidyPoint(st, i);
    } else {
      TidyOwn(st, i, DiskFile(w.data[..n], false, w.id));
    }
  }

  lemma TidyGrow(st: CacheState, i: nat, n: nat)
    requires Tidy(st) && i < |st.writes| && n <= |st.writes[i].data| && OwnsFile(st, st.writes[i])
    ensures Tidy(GrowWrite(st, i, n))
  {
    hide Tidy;
    var w := st.writes[i];
    TidyOwn(st, i, DiskFile(w.data[..n], false, w.id));
    assert st.writes[i := w.(started := true)] == st.writes;
  }

  lemma TidyFail(st: CacheState, i: nat)
    requires Tidy(st) && i < |st.writes|
    ensures Tidy(FailWrite(st, i))
  {
    hide Tidy, Without;
    TidyOthers(st, FailWrite(st, i), i);
  }

  /** If a chunk is only inserted when earlier writes of it are settled, no unfinished file is ever under
      an entry, whatever else happens. */
  lemma StepKeepsTidy(st: CacheState, step: CacheStep, objects: string -> Bytes, c: nat)
    requires c > 0 && Tidy(st) && Orderly(st, step)
    ensures Tidy(Apply(st, step, objects, c))
  {
    hide Tidy, Remove, FinishWrite, StartWrite, GrowWrite, FailWrite, CacheChunk, Settled, Piece;
    match step {
      case Evict(key) => TidyRemove(st, key);
      case LoseFile(key) => TidyLose(st, key);
      case WriteStarts(i, n) =>
        if i < |st.writes| && !st.writes[i].started && n <= |st.writes[i].data| { TidyStart(st, i, n); }
      case WriteGrows(i, n) =>
        if i < |st.writes| && n <= |st.writes[i].data| && OwnsFile(st, st.writes[i]) { TidyGrow(st, i, n); }
      case WriteDone(i) => if i < |st.writes| { TidyDone(st, i); }
      case WriteFails(i) => if i < |st.writes| { TidyFail(st, i); }
      case Insert(key) => TidyInsert(st, key, Piece(objects(key.path), c, key.chunk));
    }
  }

  /** Every file entry has its file, and every write that has begun has its own. */
  ghost predicate FilesExist(st: CacheState) {
    && (forall key :: key in st.cache && st.cache[key].File? ==> key in st.disk)
    && (forall i :: 0 <= i < |st.writes| && st.writes[i].started ==> OwnsFile(st, st.writes[i]))
  }

  lemma FilesRemove(st: CacheState, key: Key)
    requires FilesExist(st) && forall i :: 0 <= i < |st.writes| && st.writes[i].key == key && key in st.cache ==>
      st.cache[key].Memory?
    ensures FilesExist(Remove(st, key))
  {
  }

  lemma FilesWithout(st: CacheState, i: nat)
    requires FilesExist(st) && i < |st.writes|
    ensures FilesExist(st.(writes := Without(st.writes, i)))
  {
    var writes := Without(st.writes, i);
    forall k | 0 <= k < |writes| && writes[k].started ensures OwnsFile(st, writes[k]) {
      assert writes[k] == st.writes[if k < i then k else k + 1];
    }
  }

  lemma FilesPoint(st: CacheState, i: nat)
    requires FilesExist(st) && i < |st.writes| && st.writes[i].key in st.disk
    requires st.writes[i].key in st.cache ==> st.cache[st.writes[i].key].Memory?
    ensures FilesExist(PointToFile(st, i))
  {
    hide Without;
    FilesWithout(st, i);
  }

  lemma FilesDone(st: CacheState, i: nat)
    requires FilesExist(st) && Tidy(st) && i < |st.writes|
    ensures FilesExist(FinishWrite(st, i))
  {
    hide PointToFile, Owned, Abandoned;
    var w := st.writes[i];
    if w.started || w.key !in st.disk {
      var st' := st.(disk := st.disk[w.key := DiskFile(w.data, true, w.id)]);
      assert FilesExist(st');
      FilesPoint(st', i);
    } else {
      FilesPoint(st, i);
    }
  }

  lemma StepKeepsFiles(st: CacheState, step: CacheStep, objects: string -> Bytes, c: nat)
    requires c > 0 && Tidy(st) && FilesExist(st) && !step.LoseFile?
    ensures FilesExist(Apply(st, step, objects, c))
  {
    hide Piece, Without, Owned, Abandoned, FinishWrite, Remove;
    match step {
      case Evict(key) => FilesRemove(st, key);
      case WriteStarts(i, n) => if i < |st.writes| && st.writes[i].key in st.disk { FilesPoint(st, i); }
      case WriteDone(i) => if i < |st.writes| { FilesDone(st, i); }
      case WriteFails(i) =>
        if i < |st.writes| {
          FilesWithout(st, i);
          FilesRemove(st.(writes := Without(st.writes, i)), st.writes[i].key);
        }
      case _ =>
    }
  }

  /** Every chunk is inserted only when earlier writes of it are settled. */
  ghost predicate OrderlyRun(st: CacheState, steps: seq<CacheStep>, objects: string -> Bytes, c: nat)
    requires c > 0
    decreases |steps|
  {
    steps == [] || (Orderly(st, steps[0]) && OrderlyRun(Apply(st, steps[0], objects, c), steps[1..], objects, c))
  }

  /** In an orderly run, as long as nobody else deletes files, every file entry has its file. */
  lemma {:induction false} OrderlyFiles(st: CacheState, steps: seq<CacheStep>, objects: string -> Bytes, c: nat)
    requires c > 0 && Tidy(st) && FilesExist(st) && OrderlyRun(st, steps, objects, c)
    requires forall i :: 0 <= i < |steps| ==> !steps[i].LoseFile?
    ensures FilesExist(ApplyAll(st, steps, objects, c))
    decreases |steps|
  {
    if steps != [] {
      hide Tidy, FilesExist, Orderly, Apply;
      StepKeepsTidy(st, steps[0], objects, c);
      StepKeepsFiles(st, steps[0], objects, c);
      OrderlyFiles(Apply(st, steps[0], objects, c), steps[1..], objects, c);
    }
  }

  ghost predicate AllWhole(st: CacheState) {
    forall key :: key in st.disk ==> st.disk[key].whole
  }

  /** If no write ever puts part of a file in place, no unfinished file exists, whatever else happens. */
  lemma StepKeepsWhole(st: CacheState, step: CacheStep, objects: string -> Bytes, c: nat)
    requires c > 0 && AllWhole(st) && !step.WriteStarts?
    ensures AllWhole(Apply(st, step, objects, c))
  {
    hide Piece, Without;
  }

  // ---------------------------------------------------------------------------------------------
  // Splitting a batch
  // ---------------------------------------------------------------------------------------------

  /** What is left of the fetched bytes when it is chunk `i`'s turn. */
  function Rest(obj: Bytes, c: nat, last: nat, i: nat): Bytes
    requires c > 0 && i <= last + 1
  {
    Scaled(i, last + 1, c);
    if i <= |obj| / c then Cut(obj, Offset(i, c), Offset(last + 1, c)) else Tail(obj, c)
  }

  lemma FullChunks(n: nat, c: nat, i: nat)
    requires c > 0
    ensures i < n / c <==> Offset(i, c) + c <= n
    ensures i <= n / c <==> Offset(i, c) <= n
  {
    hide Offset;
    WholeChunks(n, c);
    if i <= n / c {
      Scaled(i, n / c, c);
    } else {
      Scaled(n / c, i, c);
    }
  }

  /** Splitting stores the right piece for every chunk, whether or not it is inside the object. */
  lemma SplitStep(obj: Bytes, c: nat, last: nat, i: nat)
    requires c > 0 && i <= last
    ensures var rest := Rest(obj, c, last, i);
      if |rest| < c then Piece(obj, c, i) == rest && Rest(obj, c, last, i + 1) == rest
      else Piece(obj, c, i) == rest[..c] && Rest(obj, c, last, i + 1) == rest[c..]
  {
    hide Offset, Rest, Piece;
    if i < |obj| / c {
      SplitFull(obj, c, last, i);
    } else {
      SplitTail(obj, c, last, i);
    }
  }

  lemma CutWithin(obj: Bytes, a: nat, b: nat, d: nat)
    requires a <= b <= d && b <= |obj|
    ensures var rest := Cut(obj, a, d);
      |rest| >= b - a && rest[..b - a] == Cut(obj, a, b) && rest[b - a..] == Cut(obj, b, d)
  {
    CutJoins(obj, a, b, d);
    assert |Cut(obj, a, b)| == b - a;
  }

  lemma SplitFull(obj: Bytes, c: nat, last: nat, i: nat)
    requires c > 0 && i <= last && i < |obj| / c
    ensures var rest := Rest(obj, c, last, i);
      |rest| >= c && Piece(obj, c, i) == rest[..c] && Rest(obj, c, last, i + 1) == rest[c..]
  {
    hide Offset, Cut, Tail;
    FullChunks(|obj|, c, i);
    Scaled(i, last + 1, c);
    Scaled(i + 1, last + 1, c);
    CutWithin(obj, Offset(i, c), Offset(i + 1, c), Offset(last + 1, c));
  }

  lemma SplitTail(obj: Bytes, c: nat, last: nat, i: nat)
    requires c > 0 && i <= last && i >= |obj| / c
    ensures var rest := Rest(obj, c, last, i);
      |rest| < c && Piece(obj, c, i) == rest && Rest(obj, c, last, i + 1) == rest
  {
    hide Offset;
    FullChunks(|obj|, c, i);
    Scaled(i, last + 1, c);
    WholeChunks(|obj|, c);
  }

  // ---------------------------------------------------------------------------------------------
  // How a file gets exposed
  // ---------------------------------------------------------------------------------------------

  function ApplyAll(st: CacheState, steps: seq<CacheStep>, objects: string -> Bytes, c: nat): CacheState
    requires c > 0
    decreases |steps|
  {
    if steps == [] then st else ApplyAll(Apply(st, steps[0], objects, c), steps[1..], objects, c)
  }

  /** The steps of a chunk that is evicted and inserted again while it is being written. */
  function EvictedWhileWriting(key: Key, n: nat): seq<CacheStep> {
    [Insert(key), WriteStarts(0, n), Evict(key), Insert(key), WriteDone(1)]
  }

  /** The second write takes the unfinished file of the first for its own. */
  lemma SecondWrite(key: Key, n: nat, objects: string -> Bytes, c: nat)
    requires c > 0 && n <= |Piece(objects(key.path), c, key.chunk)|
    ensures var st := ApplyAll(EMPTY_CACHE, EvictedWhileWriting(key, n), objects, c);
      ExposedAt(st, key) && st.disk[key].data == Piece(objects(key.path), c, key.chunk)[..n]
  {
    hide Piece;
    var data := Piece(objects(key.path), c, key.chunk);
    var st1 := Apply(EMPTY_CACHE, Insert(key), objects, c);
    var st2 := Apply(st1, WriteStarts(0, n), objects, c);
    var st3 := Apply(st2, Evict(key), objects, c);
    var st4 := Apply(st3, Insert(key), objects, c);
    assert st4.writes == [Write(0, key, data, true), Write(1, key, data, false)];
    Unfold5(EMPTY_CACHE, Insert(key), WriteStarts(0, n), Evict(key), Insert(key), WriteDone(1), objects, c);
  }

  /** The steps of a chunk whose write fails after it has created its file, and that is inserted again. */
  function TornWrite(key: Key, n: nat): seq<CacheStep> {
    [Insert(key), WriteStarts(0, n), WriteFails(0), Insert(key), WriteDone(0)]
  }

  /** The next write takes the unfinished file for its own. */
  lemma NextWrite(key: Key, n: nat, objects: string -> Bytes, c: nat)
    requires c > 0 && n <= |Piece(objects(key.path), c, key.chunk)|
    ensures var st := ApplyAll(EMPTY_CACHE, TornWrite(key, n), objects, c);
      ExposedAt(st, key) && st.disk[key].data == Piece(objects(key.path), c, key.chunk)[..n]
  {
    hide Piece;
    var data := Piece(objects(key.path), c, key.chunk);
    var st1 := Apply(EMPTY_CACHE, Insert(key), objects, c);
    var st2 := Apply(st1, WriteStarts(0, n), objects, c);
    var st3 := Apply(st2, WriteFails(0), objects, c);
    var st4 := Apply(st3, Insert(key), objects, c);
    assert st4.writes == [Write(1, key, data, false)];
    Unfold5(EMPTY_CACHE, Insert(key), WriteStarts(0, n), WriteFails(0), Insert(key), WriteDone(0), objects, c);
  }

  /** What comes between a reader's looking up a file entry and opening the file: the chunk is evicted and
      inserted again, and its new write begins. */
  function Replaced(key: Key, n: nat): seq<CacheStep> {
    [Evict(key), Insert(key), WriteStarts(0, n)]
  }

  lemma StalePointer(key: Key, n: nat, objects: string -> Bytes, c: nat)
    requires c > 0 && n <= |Piece(objects(key.path), c, key.chunk)|
    ensures var st1 := ApplyAll(EMPTY_CACHE, [Insert(key), WriteDone(0)], objects, c);
      var st2 := ApplyAll(st1, Replaced(key, n), objects, c);
      && key in st1.cache && st1.cache[key].File? && Tidy(st2)
      && key in st2.disk && st2.disk[key].data == Piece(objects(key.path), c, key.chunk)[..n]
  {
    hide Piece;
    var data := Piece(objects(key.path), c, key.chunk);
    var st0 := Apply(EMPTY_CACHE, Insert(key), objects, c);
    var st1 := Apply(st0, WriteDone(0), objects, c);
    Unfold2(EMPTY_CACHE, Insert(key), WriteDone(0), objects, c);
    var st2 := Apply(st1, Evict(key), objects, c);
    var st3 := Apply(st2, Insert(key), objects, c);
    assert st3.writes == [Write(1, key, data, false)];
    Unfold3(st1, Evict(key), Insert(key), WriteStarts(0, n), objects, c);
    OwnedBy(Apply(st3, WriteStarts(0, n), objects, c), key, 0);
  }

  /** The steps of a chunk that is evicted and inserted again before its write begins. */
  function WrittenTwice(key: Key): seq<CacheStep> {
    [Insert(key), Evict(key), Insert(key), WriteDone(0), WriteDone(0)]
  }

  /** The second write finds the file of the first, and the entry it replaces takes that file away. */
  lemma SecondDone(key: Key, objects: string -> Bytes, c: nat)
    requires c > 0
    ensures var st := ApplyAll(EMPTY_CACHE, WrittenTwice(key), objects, c);
      key in st.cache && st.cache[key].File? && key !in st.disk && st.writes == []
  {
    hide Piece;
    var data := Piece(objects(key.path), c, key.chunk);
    var st1 := Apply(EMPTY_CACHE, Insert(key), objects, c);
    var st2 := Apply(st1, Evict(key), objects, c);
    var st3 := Apply(st2, Insert(key), objects, c);
    assert st3.writes == [Write(0, key, data, false), Write(1, key, data, false)];
    var st4 := Apply(st3, WriteDone(0), objects, c);
    assert st4.writes == [Write(1, key, data, false)];
    Unfold5(EMPTY_CACHE, Insert(key), Evict(key), Insert(key), WriteDone(0), WriteDone(0), objects, c);
  }

  lemma Unfold2(st: CacheState, a: CacheStep, b: CacheStep, objects: string -> Bytes, c: nat)
    requires c > 0
    ensures ApplyAll(st, [a, b], objects, c) == Apply(Apply(st, a, objects, c), b, objects, c)
  {
    hide Apply;
    assert [a, b][1..] == [b] && [b][1..] == [];
    assert ApplyAll(Apply(st, a, objects, c), [b], objects, c) == Apply(Apply(st, a, objects, c), b, objects, c);
  }

  lemma Unfold3(st: CacheState, a: CacheStep, b: CacheStep, d: CacheStep, objects: string -> Bytes, c: nat)
    requires c > 0
    ensures ApplyAll(st, [a, b, d], objects, c)
         == Apply(Apply(Apply(st, a, objects, c), b, objects, c), d, objects, c)
  {
    hide Apply;
    assert [a, b, d][1..] == [b, d];
    Unfold2(Apply(st, a, objects, c), b, d, objects, c);
  }

  lemma Unfold5(st: CacheState, a: CacheStep, b: CacheStep, d: CacheStep, e: CacheStep, f: CacheStep,
                objects: string -> Bytes, c: nat)
    requires c > 0
    ensures ApplyAll(st, [a, b, d, e, f], objects, c)
         == Apply(Apply(Apply(Apply(Apply(st, a, objects, c), b, objects, c), d, objects, c), e, objects, c), f,
                  objects, c)
  {
    hide Apply;
    var st1 := Apply(st, a, objects, c);
    var st2 := Apply(st1, b, objects, c);
    assert [a, b, d, e, f][1..] == [b, d, e, f] && [b, d, e, f][1..] == [d, e, f];
    assert ApplyAll(st, [a, b, d, e, f], objects, c) == ApplyAll(st1, [b, d, e, f], objects, c);
    assert ApplyAll(st1, [b, d, e, f], objects, c) == ApplyAll(st2, [d, e, f], objects, c);
    Unfold3(st2, d, e, f, objects, c);
  }
}

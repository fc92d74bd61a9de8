/** The caching object store: range reads over a shared cache that other tasks change at every await
    point. */
module Cache {
  import opened Basics
  import opened CacheModel
  import opened CacheReads

  datatype Answer = Ok(data: Bytes) | StoreError | AdvancePanic

  /** A request for a byte range of an object. */
  datatype Request = Request(path: string, from: nat, to: nat)

  /** The byte ranges of runs of chunks, one request each. */
  function Traffic(path: string, c: nat, runs: seq<Run>): seq<Request> {
    seq(|runs|, i requires 0 <= i < |runs| => Request(path, Offset(runs[i].first, c), Offset(runs[i].last + 1, c)))
  }

  lemma TrafficConcat(path: string, c: nat, a: seq<Run>, b: seq<Run>)
    ensures Traffic(path, c, a + b) == Traffic(path, c, a) + Traffic(path, c, b)
  {
    hide Offset;
  }

  /** Nothing but the missing chunks of one stretch has been added, each in memory. */
  ghost predicate Grown(st: CacheState, st': CacheState, obj: Bytes, c: nat, path: string, from: nat, to: nat)
    requires c > 0
  {
    && st'.disk == st.disk
    && (forall key :: key in st.cache ==> key in st'.cache && st'.cache[key] == st.cache[key])
    && (forall key :: key in st'.cache && key !in st.cache ==>
          key.path == path && from <= key.chunk < to && st'.cache[key] == Memory(Piece(obj, c, key.chunk)))
    && (forall i :: from <= i < to ==> Key(path, i) in st'.cache)
  }

  lemma GrownTwice(a: CacheState, b: CacheState, d: CacheState, obj: Bytes, c: nat, path: string, i: nat, j: nat,
                   k: nat)
    requires c > 0 && i <= j <= k && Grown(a, b, obj, c, path, i, j) && Grown(b, d, obj, c, path, j, k)
    ensures Grown(a, d, obj, c, path, i, k)
  {
    hide Piece;
  }

  lemma GrownByOne(st: CacheState, obj: Bytes, c: nat, path: string, i: nat)
    requires c > 0
    ensures Grown(st, CacheChunk(st, Key(path, i), Piece(obj, c, i)), obj, c, path, i, i + 1)
  {
    hide Piece;
  }

  /** A chunk that is not part of the stretch looks as before. */
  lemma GrownElsewhere(st: CacheState, st': CacheState, obj: Bytes, c: nat, path: string, from: nat, to: nat, i: nat)
    requires c > 0 && Grown(st, st', obj, c, path, from, to) && to <= i
    ensures Look(st', Key(path, i)) == Look(st, Key(path, i))
  {
    hide Piece;
  }

  lemma MemoryIsTrue(st: CacheState, key: Key, objects: string -> Bytes, c: nat)
    requires TrueBytes(st, objects, c) && key in st.cache && st.cache[key].Memory?
    ensures Offset(key.chunk, c) < |objects(key.path)| ==> st.cache[key].data == Slice(objects(key.path), c, key.chunk)
  {
    hide Slice;
    assert IsTrue(objects, c, key, st.cache[key].data);
  }

  /** Caching a chunk that has an entry changes nothing. */
  lemma KnownChunk(quiet: bool, before: CacheState, st: CacheState, key: Key, data: Bytes)
    requires quiet ==> st == before && key in before.cache
    ensures quiet ==> CacheChunk(st, key, data) == before
  {
  }

  lemma FileIsTrue(st: CacheState, key: Key, objects: string -> Bytes, c: nat)
    requires TrueBytes(st, objects, c) && key in st.disk && st.disk[key].whole
    ensures Offset(key.chunk, c) < |objects(key.path)| ==> st.disk[key].data == Slice(objects(key.path), c, key.chunk)
  {
    hide Slice;
    assert IsTrue(objects, c, key, st.disk[key].data);
  }

  /** What has happened so far. Exposed: some reader has opened an unfinished file. Orderly: chunks were only
      inserted when earlier writes of them were settled, and entries still pointed to a file when readers
      opened it. Whole: no write has put part of a file in place. */
  datatype Marks = Marks(exposed: bool, orderly: bool, whole: bool)

  /** What has gone wrong stays so, and nothing unfinished appears if all writes are atomic. */
  predicate Remembers(m: Marks, m': Marks, atomic: bool) {
    && (m.exposed ==> m'.exposed) && (m'.orderly ==> m.orderly)
    && (m'.whole ==> m.whole) && (atomic ==> m'.whole == m.whole)
  }

  /** A chunk as a reader finds it that looks it up after some steps and opens its file after some more. */
  ghost function Peek(st: CacheState, key: Key, first: seq<CacheStep>, second: seq<CacheStep>,
                      objects: string -> Bytes, c: nat): Found
    requires c > 0
  {
    var st1 := ApplyAll(st, first, objects, c);
    if key !in st1.cache then Missing
    else if st1.cache[key].Memory? then Hit(st1.cache[key].data)
    else
      var st2 := ApplyAll(st1, second, objects, c);
      if key in st2.disk then Hit(st2.disk[key].data) else Lost
  }

  class CachingObjectStore {
    const minFetchSize: Positive
    const objects: string -> Bytes
    /** What happens to the shared state at each await point, and which requests to the inner store fail. */
    const schedule: nat -> seq<CacheStep>
    const faulty: nat -> bool
    var cache: map<Key, CacheValue>
    var disk: map<Key, DiskFile>
    var writes: seq<Write>
    var nextId: nat
    var tick: nat

    /** All requests made to the inner store. */
    ghost var requests: seq<Request>
    ghost var marks: Marks

    function St(): CacheState
      reads this
    {
      CacheState(cache, disk, writes, nextId)
    }

    ghost predicate Valid()
      reads this
    {
      && TrueBytes(St(), objects, minFetchSize)
      && (marks.orderly ==> Tidy(St()) && !marks.exposed)
      && (marks.whole ==> AllWhole(St()) && !marks.exposed)
    }

    /** No request fails. */
    ghost predicate Reliable() {
      forall t: nat :: !faulty(t)
    }

    /** Nothing happens besides the reads themselves. */
    ghost predicate Quiet() {
      Reliable() && forall t: nat :: schedule(t) == []
    }

    /** Every write is atomic: files appear when they are finished. */
    ghost predicate AtomicWrites() {
      forall t: nat, i :: 0 <= i < |schedule(t)| ==> !schedule(t)[i].WriteStarts?
    }

    /** What a reader finds that looks a chunk up now. */
    ghost function Peeked(path: string, chunk: nat): Found
      reads this
    {
      Peek(St(), Key(path, chunk), schedule(tick), schedule(tick + 1), objects, minFetchSize)
    }

    constructor (minFetchSize: Positive, objects: string -> Bytes, schedule: nat -> seq<CacheStep>, faulty: nat -> bool)
      ensures Valid() && St() == EMPTY_CACHE && requests == [] && marks == Marks(false, true, true) && tick == 0
      ensures this.minFetchSize == minFetchSize && this.objects == objects
      ensures this.schedule == schedule && this.faulty == faulty
    {
      this.minFetchSize, this.objects, this.schedule, this.faulty := minFetchSize, objects, schedule, faulty;
      cache, disk, writes, nextId, tick := map[], map[], [], 0, 0;
      requests, marks := [], Marks(false, true, true);
    }

    /** One step of the shared state. */
    method Take(step: CacheStep)
      requires Valid()
      modifies this
      ensures Valid() && requests == old(requests) && tick == old(tick)
      ensures Remembers(old(marks), marks, !step.WriteStarts?) && marks.exposed == old(marks.exposed)
      ensures St() == Apply(old(St()), step, objects, minFetchSize)
    {
      hide TrueBytes, Apply, Tidy, Orderly, AllWhole;
      ghost var tidy, whole := marks.orderly && Orderly(St(), step), marks.whole && !step.WriteStarts?;
      StepKeepsTrue(St(), step, objects, minFetchSize);
      if tidy {
        StepKeepsTidy(St(), step, objects, minFetchSize);
      }
      if whole {
        StepKeepsWhole(St(), step, objects, minFetchSize);
      }
      var st := Apply(St(), step, objects, minFetchSize);
      cache, disk, writes, nextId := st.cache, st.disk, st.writes, st.nextId;
      marks := marks.(orderly := tidy, whole := whole);
    }

    /** An await point: evictions, lost files, writes that go on, finish or fail, and other readers'
        inserts. */
    method Await()
      requires Valid()
      modifies this
      ensures Valid() && requests == old(requests) && Remembers(old(marks), marks, AtomicWrites())
      ensures marks.exposed == old(marks.exposed) && tick == old(tick) + 1
      ensures St() == ApplyAll(old(St()), schedule(old(tick)), objects, minFetchSize)
      ensures Quiet() ==> St() == old(St())
    {
      hide TrueBytes, Tidy, Apply, AllWhole;
      var steps := schedule(tick);
      for i := 0 to |steps|
        invariant Valid() && requests == old(requests) && Remembers(old(marks), marks, AtomicWrites())
        invariant marks.exposed == old(marks.exposed) && tick == old(tick)
        invariant ApplyAll(St(), steps[i..], objects, minFetchSize)
               == ApplyAll(old(St()), steps, objects, minFetchSize)
      {
        assert steps[i..][1..] == steps[i + 1..];
        Take(steps[i]);
      }
      tick := tick + 1;
    }

    method FetchInner(path: string, from: nat, to: nat) returns (r: Option<Bytes>)
      requires Valid() && from <= to
      modifies this
      ensures Valid() && Remembers(old(marks), marks, AtomicWrites())
      ensures Quiet() ==> St() == old(St())
      ensures requests == old(requests) + [Request(path, from, to)]
      ensures r.Some? ==> r == Fetch(objects(path), from, to)
      ensures r.None? && Reliable() ==> |objects(path)| <= from
    {
      hide TrueBytes, Tidy;
      Await();
      requests := requests + [Request(path, from, to)];
      if faulty(tick) {
        return None;
      }
      r := Fetch(objects(path), from, to);
    }

    /** Keep a chunk in memory and start writing it to disk, unless it has an entry already. `st` is the
        state that the insert meets. */
    method CacheChunkData(key: Key, data: Bytes) returns (ghost st: CacheState)
      requires Valid() && data == Piece(objects(key.path), minFetchSize, key.chunk)
      modifies this
      ensures Valid() && requests == old(requests) && Remembers(old(marks), marks, AtomicWrites())
      ensures St() == CacheChunk(st, key, data) && (Quiet() ==> st == old(St()))
    {
      hide TrueBytes, CacheChunk, Piece, Tidy, IsTrue, Settled, ApplyAll, AtomicWrites;
      Await();
      st := St();
      PieceIsTrue(objects, minFetchSize, key);
      ChunkKeepsTrue(st, key, data, objects, minFetchSize);
      marks := marks.(orderly := marks.orderly && (key !in cache ==> Settled(st, key)));
      if marks.orderly {
        TidyInsert(st, key, data);
      }
      SameDisk(st, key, data);
      var st' := CacheChunk(St(), key, data);
      cache, disk, writes, nextId := st'.cache, st'.disk, st'.writes, st'.nextId;
    }

    /** Open the file of an entry that was looked up before: other tasks may have come in between. */
    method ReadFile(key: Key) returns (data: Option<Bytes>)
      requires Valid() && key in cache && cache[key].File?
      modifies this
      ensures Valid() && requests == old(requests) && Remembers(old(marks), marks, AtomicWrites())
      ensures Quiet() ==> St() == old(St())
      ensures St() == ApplyAll(old(St()), schedule(old(tick)), objects, minFetchSize)
      ensures data.Some? <==> key in disk
      ensures data.Some? ==> data.value == disk[key].data
      ensures !marks.exposed && data.Some? && Offset(key.chunk, minFetchSize) < |objects(key.path)| ==>
        data.value == Slice(objects(key.path), minFetchSize, key.chunk)
    {
      hide TrueBytes, Tidy, Offset, Slice, ApplyAll, AtomicWrites;
      Await();
      if key !in disk {
        return None;
      }
      marks := marks.(orderly := marks.orderly && key in cache && cache[key].File?,
                      exposed := marks.exposed || !disk[key].whole);
      if marks.orderly {
        TidyWhole(St(), key);
      }
      if disk[key].whole {
        FileIsTrue(St(), key, objects, minFetchSize);
      }
      data := Some(disk[key].data);
    }

    /** Look one chunk up; a chunk whose file is gone is fetched again. */
    method LookUp(path: string, chunk: nat) returns (f: Found, data: Option<Bytes>)
      requires Valid()
      modifies this
      ensures Valid() && Remembers(old(marks), marks, AtomicWrites())
      ensures Quiet() ==> St() == old(St()) && f == Look(old(St()), Key(path, chunk))
      ensures f == old(Peeked(path, chunk))
      ensures requests == old(requests) + Traffic(path, minFetchSize, LostRun(chunk, f))
      ensures !marks.exposed && f.Hit? && Offset(chunk, minFetchSize) < |objects(path)| ==>
        f.data == Slice(objects(path), minFetchSize, chunk)
      ensures f.Missing? ==> data.None?
      ensures data.Some? ==> data.value == Part(objects(path), minFetchSize, chunk, f)
      ensures f.Hit? ==> data.Some?
      ensures f.Lost? && data.Some? ==> Offset(chunk, minFetchSize) < |objects(path)|
      ensures f.Lost? && data.None? && Reliable() ==> |objects(path)| <= Offset(chunk, minFetchSize)
    {
      hide Cut, Tidy, TrueBytes, Offset, Slice, Piece, CacheChunk, ApplyAll, AtomicWrites, AllWhole;
      var key := Key(path, chunk);
      Await();
      if key !in cache {
        return Missing, None;
      }
      if cache[key].Memory? {
        MemoryIsTrue(St(), key, objects, minFetchSize);
        return Hit(cache[key].data), Some(cache[key].data);
      }
      data := ReadFile(key);
      if data.Some? {
        return Hit(data.value), data;
      }
      Scaled(chunk, chunk, minFetchSize);
      data := FetchInner(path, Offset(chunk, minFetchSize), Offset(chunk + 1, minFetchSize));
      f := Lost;
      if data.Some? {
        FetchedSlice(objects(path), minFetchSize, chunk);
        ghost var st := CacheChunkData(key, data.value);
        KnownChunk(Quiet(), old(St()), st, key, data.value);
      }
    }

    /** Fetch a run of missing chunks with one request, and cache every one of them. */
    method ResolveBatch(path: string, first: nat, last: nat) returns (data: Option<Bytes>)
      requires Valid() && first <= last
      modifies this
      ensures Valid() && Remembers(old(marks), marks, AtomicWrites())
      ensures requests == old(requests) + Traffic(path, minFetchSize, [Run(first, last)])
      ensures data.Some? ==>
        && Offset(first, minFetchSize) < |objects(path)|
        && Offset(first, minFetchSize) <= Offset(last + 1, minFetchSize)
        && data.value == Cut(objects(path), Offset(first, minFetchSize), Offset(last + 1, minFetchSize))
      ensures data.None? && Reliable() ==> |objects(path)| <= Offset(first, minFetchSize)
      ensures data.Some? && Quiet() ==> Grown(old(St()), St(), objects(path), minFetchSize, path, first, last + 1)
    {
      hide TrueBytes, Offset, CacheChunk, Piece, Rest, Grown, Tidy, Reliable;
      var obj, c := objects(path), minFetchSize;
      Scaled(first, last + 1, c);
      data := FetchInner(path, Offset(first, c), Offset(last + 1, c));
      assert requests == old(requests) + Traffic(path, minFetchSize, [Run(first, last)]);
      if data.None? {
        return;
      }
      BatchBegins(obj, c, first, last);
      var rest := data.value;
      GrownNone(old(St()), obj, c, path, first);
      for i := first to last + 1
        invariant Valid() && Remembers(old(marks), marks, AtomicWrites())
        invariant rest == Rest(obj, c, last, i)
        invariant requests == old(requests) + Traffic(path, minFetchSize, [Run(first, last)])
        invariant Quiet() ==> Grown(old(St()), St(), obj, c, path, first, i)
      {
        SplitStep(obj, c, last, i);
        var piece := rest;
        if |rest| >= c {
          piece, rest := rest[..c], rest[c..];
        }
        ghost var st := CacheChunkData(Key(path, i), piece);
        if Quiet() {
          GrownByOne(st, obj, c, path, i);
          GrownTwice(old(St()), st, St(), obj, c, path, first, i, i + 1);
        }
      }
    }

    /** Resolve the missing chunks collected so far and append their bytes to the answer. */
    method ResolvePending(path: string, start: nat, batch: seq<nat>, result: Bytes,
                          ghost st: CacheState, ghost head: seq<Found>, ghost found: seq<Found>)
      returns (r: Option<Bytes>)
      requires Valid() && batch != [] && Consecutive(batch, start + |head|) && EndsPresent(head)
      requires Resolved(objects(path), minFetchSize, start, head, result)
      requires Quiet() ==> Undisturbed(st, St(), objects(path), minFetchSize, path, start, head, found)
      modifies this
      ensures Valid() && Remembers(old(marks), marks, AtomicWrites())
      ensures requests == old(requests) + Traffic(path, minFetchSize, GapRun(start + |head|, |batch|))
      ensures r.None? && Reliable() ==> |objects(path)| <= Offset(start + |head|, minFetchSize)
      ensures r.Some? ==> Resolved(objects(path), minFetchSize, start, head + Gap(|batch|), r.value)
      ensures r.Some? && Quiet() ==>
        Undisturbed(st, St(), objects(path), minFetchSize, path, start, head + Gap(|batch|), found)
    {
      hide TrueBytes, Offset, Piece, Grown, Cut, Quiet, Reliable, Resolved, Looks, Tidy, Remembers, Traffic;
      var first, last := batch[0], batch[|batch| - 1];
      ghost var before := St();
      r := ResolveBatch(path, first, last);
      if r.Some? {
        ResolvedGap(objects(path), minFetchSize, start, head, |batch|, result);
        if Quiet() {
          GrownTwice(st, before, St(), objects(path), minFetchSize, path, start, first, last + 1);
        }
        r := Some(result + r.value);
      }
    }

    /** A reader has come to a chunk: it has an answer for the chunks in `head`, and those in `batch`, all
        missing, are still to be fetched. */
    ghost predicate Reading(path: string, start: nat, result: Bytes, batch: seq<nat>, head: seq<Found>,
                            found: seq<Found>,
                            st: CacheState, base: seq<Request>)
      reads this
    {
      && Valid()
      && Consecutive(batch, start + |head|) && found == head + Gap(|batch|)
      && Resolved(objects(path), minFetchSize, start, head, result)
      && requests == base + Traffic(path, minFetchSize, Sent(start, head))
      && (!marks.exposed ==> HitsTrue(objects(path), minFetchSize, start, found))
      && (Quiet() ==> Undisturbed(st, St(), objects(path), minFetchSize, path, start, head, found))
    }

    /** A reader has failed at the last chunk in `found`. */
    ghost predicate Failed(path: string, start: nat, found: seq<Found>, st: CacheState, base: seq<Request>)
      reads this
    {
      && Valid() && SentTill(path, minFetchSize, start, found, requests, base)
      && (!marks.exposed ==> HitsTrue(objects(path), minFetchSize, start, found))
      && (Reliable() ==> Refused(objects(path), minFetchSize, start, found))
      && (Quiet() ==> Looks(st, path, start, found))
    }

    /** Read the next chunk; the last one also ends the pending batch. */
    method ReadChunk(path: string, start: nat, chunk: nat, last: bool, result: Bytes, batch: seq<nat>,
                     ghost head: seq<Found>, ghost found: seq<Found>, ghost st: CacheState, ghost base: seq<Request>)
      returns (r: Option<Bytes>, batch': seq<nat>, ghost head': seq<Found>, ghost found': seq<Found>)
      requires Reading(path, start, result, batch, head, found, st, base) && EndsPresent(head)
      requires chunk == start + |found|
      modifies this
      ensures Remembers(old(marks), marks, AtomicWrites()) && found' == found + [old(Peeked(path, chunk))]
      ensures r.None? ==> Failed(path, start, found', st, base)
      ensures r.Some? ==> Reading(path, start, r.value, batch', head', found', st, base)
      ensures r.Some? ==> if last then batch' == [] else EndsPresent(head')
    {
      hide Valid, TrueBytes, Offset, Piece, Rest, Grown, Cut, Slice, Look, Quiet, Reliable, Resolved, HitsTrue,
        Part, Inside, Looks, CacheChunk, Gap, Refused, Undisturbed, Traffic, Sent, LostRun, GapRun, EndsPresent,
        Peek, AtomicWrites, SentTill;
      var obj, c := objects(path), minFetchSize;
      ghost var before := St();
      var f, data := LookUp(path, chunk);
      FoundNext(!marks.exposed, Quiet(), st, before, obj, c, path, start, head, found, f);
      FailsNext(Reliable() && f.Lost? && data.None?, obj, c, start, found, f);
      head', found', batch' := head, found + [f], batch;
      if f.Lost? && data.None? {
        LostTill(path, c, start, head, |batch|, f, chunk, requests, base);
        return None, batch', head', found';
      }
      if f.Missing? {
        GapSnoc(head, |batch|);
        batch' := batch + [chunk];
      }
      SentNext(path, c, start, head, |batch'|, f, chunk, base);
      r := Some(result);
      if (data.Some? || last) && batch' != [] {
        r := ResolvePending(path, start, batch', result, st, head, found');
        FailsPending(Reliable() && r.None?, obj, c, start, head, |batch'|, found', f);
        if r.None? {
          AllTill(path, c, start, found', requests, base);
          StillLooks(Quiet(), st, before, obj, c, path, start, head, found');
          return;
        }
        head', batch' := head + Gap(|batch'|), [];
      }
      if data.Some? {
        ResolvedPart(obj, c, start, head', f, r.value);
        HitNext(Quiet(), st, St(), obj, c, path, start, head', found', f);
        PresentEnds(head', f);
        head', r := head' + [f], Some(r.value + data.value);
      }
    }

    /** Read a range of chunks, fetching each run of missing chunks at once. `found` is what the reader
        found for each chunk. */
    method GetChunkRange(path: string, start: nat, end: nat) returns (r: Option<Bytes>, ghost found: seq<Found>)
      requires Valid()
      modifies this
      ensures Valid() && Remembers(old(marks), marks, AtomicWrites())
      ensures r.Some? ==> |found| == ChunksIn(start, end)
      ensures r.Some? ==> requests == old(requests) + Traffic(path, minFetchSize, Sent(start, found))
      ensures r.Some? ==> Resolved(objects(path), minFetchSize, start, found, r.value)
      ensures !marks.exposed ==> HitsTrue(objects(path), minFetchSize, start, found)
      ensures r.None? && Reliable() ==>
        |found| <= ChunksIn(start, end) && Refused(objects(path), minFetchSize, start, found)
      ensures r.None? ==> SentTill(path, minFetchSize, start, found, requests, old(requests))
      ensures found != [] ==> found[0] == old(Peeked(path, start))
      ensures r.Some? && Quiet() ==> Grown(old(St()), St(), objects(path), minFetchSize, path, start, start + |found|)
      ensures Quiet() ==> Looks(old(St()), path, start, found)
    {
      hide Valid, TrueBytes, Offset, Grown, Quiet, Reliable, Resolved, HitsTrue, Looks, Gap, Refused, Undisturbed,
        Traffic, Sent, EndsPresent, Peek, AtomicWrites, SentTill;
      Begins(objects(path), minFetchSize, path, start, old(St()));
      assert requests + [] == requests;
      r, found := Some([]), [];
      var batch: seq<nat>, chunk := [], start;
      ghost var head: seq<Found> := [];
      while chunk <= end
        invariant r.Some? && start <= chunk && |found| == chunk - start
        invariant chunk > end ==> chunk == end + 1 || chunk == start
        invariant Remembers(old(marks), marks, AtomicWrites())
        invariant Reading(path, start, r.value, batch, head, found, old(St()), old(requests))
        invariant if found == [] then Peeked(path, start) == old(Peeked(path, start))
                  else found[0] == old(Peeked(path, start))
        invariant if chunk <= end then EndsPresent(head) else batch == []
        decreases end + 1 - chunk
      {
        r, batch, head, found := ReadChunk(path, start, chunk, chunk == end, r.value, batch, head, found,
                                           old(St()), old(requests));
        if r.None? {
          return;
        }
        chunk := chunk + 1;
      }
      Ends(Quiet(), old(St()), St(), objects(path), minFetchSize, path, start, head, found);
    }

    /** Read a byte range by reading the chunks it touches and trimming the result. */
    method GetRange(path: string, s: nat, e: nat) returns (r: Answer)
      requires Valid() && s <= e && 0 < e
      modifies this
      ensures Valid() && Remembers(old(marks), marks, AtomicWrites())
      ensures !marks.exposed ==> IsExactRead(r, objects(path), minFetchSize, s, e, Reliable())
      ensures Quiet() ==> IsQuietRead(r, old(St()), St(), objects(path), minFetchSize, path, s, e)
      ensures old(marks.whole) && AtomicWrites() ==> IsExactRead(r, objects(path), minFetchSize, s, e, Reliable())
      ensures IsSingleRead(r, old(Peeked(path, s / minFetchSize)), minFetchSize, s, e, Reliable())
    {
      hide Valid, TrueBytes, Offset, Grown, Cut, Looks, HitsTrue, Resolved, Refused, Reliable, Quiet, Seen, Assemble,
        Inside, Covered, Traffic, Sent, QuietAnswer, ChunksIn, Peek, AtomicWrites, SentTill, IsSingleRead;
      var obj, c := objects(path), minFetchSize;
      var start, end := s / c, (e - 1) / c;
      WholeChunks(s, c);
      var data, found := GetChunkRange(path, start, end);
      QuietIsReliable();
      QuietLooks(Quiet(), Reliable(), data, old(St()), obj, c, path, s, e, found);
      CoveredRead(!marks.exposed, Reliable(), data, obj, c, s, e, found);
      SingleRead(Reliable(), data, obj, c, s, e, found, old(Peeked(path, s / minFetchSize)));
      WholeIsClosed();
      if data.None? {
        return StoreError;
      }
      r := Trim(data.value, s - Offset(start, c), e - s);
    }

    lemma WholeIsClosed()
      requires Valid()
      ensures marks.whole ==> !marks.exposed
    {
    }

    lemma QuietIsReliable()
      ensures Quiet() ==> Reliable()
    {
    }
  }

  lemma SameDisk(st: CacheState, key: Key, data: Bytes)
    ensures CacheChunk(st, key, data).disk == st.disk
  {
  }

  lemma FetchedSlice(obj: Bytes, c: nat, i: nat)
    requires c > 0 && Offset(i, c) < |obj|
    ensures Offset(i, c) <= Offset(i + 1, c)
    ensures Fetch(obj, Offset(i, c), Offset(i + 1, c)) == Some(Slice(obj, c, i))
    ensures Slice(obj, c, i) == Piece(obj, c, i)
  {
    hide Offset;
    Scaled(i, i, c);
  }

  lemma BatchBegins(obj: Bytes, c: nat, first: nat, last: nat)
    requires c > 0 && first <= last && Offset(first, c) < |obj|
    ensures Offset(first, c) <= Offset(last + 1, c)
    ensures Fetch(obj, Offset(first, c), Offset(last + 1, c)) == Some(Rest(obj, c, last, first))
    ensures Rest(obj, c, last, first) == Cut(obj, Offset(first, c), Offset(last + 1, c))
  {
    hide Offset;
    Scaled(first, last + 1, c);
    FullChunks(|obj|, c, first);
  }

  lemma GrownNone(st: CacheState, obj: Bytes, c: nat, path: string, i: nat)
    requires c > 0
    ensures Grown(st, st, obj, c, path, i, i)
  {
  }

  ghost predicate Consecutive(batch: seq<nat>, from: nat) {
    forall j :: 0 <= j < |batch| ==> batch[j] == from + j
  }

  /** The answer is what the found chunks contribute, and every request started inside the object. */
  ghost predicate Resolved(obj: Bytes, c: nat, first: nat, found: seq<Found>, data: Bytes) {
    data == Assemble(obj, c, first, found) && !Refused(obj, c, first, found)
  }

  lemma ResolvedNone(obj: Bytes, c: nat, first: nat)
    ensures Resolved(obj, c, first, [], []) && HitsTrue(obj, c, first, []) && Sent(first, []) == []
  {
    NothingFound(obj, c, first);
  }

  /** The reader before its first chunk. */
  lemma Begins(obj: Bytes, c: nat, path: string, first: nat, st: CacheState)
    requires c > 0
    ensures Resolved(obj, c, first, [], []) && HitsTrue(obj, c, first, []) && Gap(0) == [] && EndsPresent([])
    ensures Traffic(path, c, Sent(first, [])) == [] && Undisturbed(st, st, obj, c, path, first, [], [])
  {
    ResolvedNone(obj, c, first);
    BeginsUndisturbed(st, obj, c, path, first);
  }

  /** The requests once the pending gap, and the present chunk after it if there is one, are resolved. */
  lemma SentNext(path: string, c: nat, first: nat, head: seq<Found>, k: nat, f: Found, chunk: nat, base: seq<Request>)
    requires EndsPresent(head) && (!f.Missing? ==> chunk == first + |head| + k)
    ensures head + Gap(0) == head
    ensures var now, i := base + Traffic(path, c, Sent(first, head)), first + |head|;
      var lost, gap := Traffic(path, c, LostRun(chunk, f)), Traffic(path, c, GapRun(i, k));
      && (!f.Missing? ==> base + Traffic(path, c, Sent(first, head + Gap(k) + [f])) == now + lost + gap)
      && (f.Missing? && k > 0 ==> base + Traffic(path, c, Sent(first, head + Gap(k))) == now + lost + gap)
      && (f.Missing? ==> now + lost == now) && (k == 0 ==> now + lost + gap == now + lost)
  {
    hide Offset, Sent, Gap, EndsPresent;
    var sent, l, g := Sent(first, head), LostRun(chunk, f), GapRun(first + |head|, k);
    assert Gap(0) == [];
    if !f.Missing? {
      SentPart(first, head, k, f);
      TrafficConcat(path, c, sent + l, g);
      TrafficConcat(path, c, sent, l);
    } else if k > 0 {
      SentGap(first, head, k);
      TrafficConcat(path, c, sent, g);
    }
  }

  /** The requests of a read that failed at the last chunk found: all of them, or, if that chunk was lost and
      could not be fetched, all but the one for the missing chunks before it. */
  ghost predicate SentTill(path: string, c: nat, first: nat, found: seq<Found>, now: seq<Request>, base: seq<Request>) {
    var all := Sent(first, found);
    || now == base + Traffic(path, c, all)
    || (&& found != [] && found[|found| - 1].Lost? && Trailing(found[..|found| - 1]) > 0
        && all != [] && now == base + Traffic(path, c, all[..|all| - 1]))
  }

  lemma AllTill(path: string, c: nat, first: nat, found: seq<Found>, now: seq<Request>, base: seq<Request>)
    requires now == base + Traffic(path, c, Sent(first, found))
    ensures SentTill(path, c, first, found, now, base)
  {
  }

  lemma LostTill(path: string, c: nat, first: nat, head: seq<Found>, k: nat, f: Found, chunk: nat,
                 now: seq<Request>, base: seq<Request>)
    requires EndsPresent(head) && f.Lost? && chunk == first + |head| + k
    requires now == base + Traffic(path, c, Sent(first, head)) + Traffic(path, c, LostRun(chunk, f))
    ensures SentTill(path, c, first, head + Gap(k) + [f], now, base)
  {
    hide Traffic, Sent, EndsPresent, Gap, Trailing;
    var found, sent, l := head + Gap(k) + [f], Sent(first, head), LostRun(chunk, f);
    SentPart(first, head, k, f);
    TrafficConcat(path, c, sent, l);
    TrailingGap(head, k);
    assert found[..|found| - 1] == head + Gap(k);
    var all := Sent(first, found);
    if k == 0 {
      assert all == sent + l;
    } else {
      assert all[..|all| - 1] == sent + l;
    }
  }

  lemma PresentEnds(head: seq<Found>, f: Found)
    requires !f.Missing?
    ensures EndsPresent(head + [f])
  {
  }

  lemma ResolvedPart(obj: Bytes, c: nat, first: nat, found: seq<Found>, f: Found, data: Bytes)
    requires Resolved(obj, c, first, found, data) && !f.Missing?
    requires f.Lost? ==> Offset(first + |found|, c) < |obj|
    ensures Resolved(obj, c, first, found + [f], data + Part(obj, c, first + |found|, f))
  {
    hide Offset, Part, Assemble, Refused;
    RefusedPart(obj, c, first, found, f);
    AssembleSnoc(obj, c, first, found, f);
  }

  lemma RefusedPart(obj: Bytes, c: nat, first: nat, found: seq<Found>, f: Found)
    requires !Refused(obj, c, first, found) && !f.Missing? && (f.Lost? ==> Offset(first + |found|, c) < |obj|)
    ensures !Refused(obj, c, first, found + [f])
  {
    hide Offset;
    RefusedSnoc(obj, c, first, found, f);
  }

  lemma ResolvedGap(obj: Bytes, c: nat, first: nat, found: seq<Found>, k: nat, data: Bytes)
    requires Resolved(obj, c, first, found, data) && k > 0 && EndsPresent(found) && Offset(first + |found|, c) < |obj|
    ensures Offset(first + |found|, c) <= Offset(first + |found| + k, c)
    ensures Resolved(obj, c, first, found + Gap(k),
                     data + Cut(obj, Offset(first + |found|, c), Offset(first + |found| + k, c)))
  {
    hide Offset, Cut, Assemble, Refused, EndsPresent, Gap;
    RefusedGap(obj, c, first, found, k);
    GapAssembled(obj, c, first, found, k);
  }

  /** In a quiet store, every chunk is found as it was at first, and only the chunks read were added. */
  ghost predicate Undisturbed(st: CacheState, st': CacheState, obj: Bytes, c: nat, path: string, first: nat,
                              head: seq<Found>, found: seq<Found>)
    requires c > 0
  {
    Looks(st, path, first, found) && Grown(st, st', obj, c, path, first, first + |head|)
  }

  lemma BeginsUndisturbed(st: CacheState, obj: Bytes, c: nat, path: string, first: nat)
    requires c > 0
    ensures Undisturbed(st, st, obj, c, path, first, [], [])
  {
  }

  /** The reader after its last chunk, with nothing pending. */
  lemma Ends(quiet: bool, st: CacheState, st': CacheState, obj: Bytes, c: nat, path: string, first: nat,
             head: seq<Found>, found: seq<Found>)
    requires c > 0 && (quiet ==> Undisturbed(st, st', obj, c, path, first, head, found))
    ensures found == head + Gap(0) ==> found == head
    ensures quiet && found == head ==>
      Looks(st, path, first, found) && Grown(st, st', obj, c, path, first, first + |found|)
  {
    hide Looks, Grown;
    assert Gap(0) == [];
  }

  lemma StillLooks(quiet: bool, st: CacheState, st': CacheState, obj: Bytes, c: nat, path: string, first: nat,
                   head: seq<Found>, found: seq<Found>)
    requires c > 0 && (quiet ==> Undisturbed(st, st', obj, c, path, first, head, found))
    ensures quiet ==> Looks(st, path, first, found)
  {
    hide Looks, Grown;
  }

  lemma FoundNext(hits: bool, quiet: bool, st: CacheState, st': CacheState, obj: Bytes, c: nat, path: string,
                  first: nat,
                  head: seq<Found>, found: seq<Found>, f: Found)
    requires c > 0 && |head| <= |found| && (hits ==> HitsTrue(obj, c, first, found))
    requires hits && f.Hit? && Offset(first + |found|, c) < |obj| ==> f.data == Slice(obj, c, first + |found|)
    requires quiet ==>
      Undisturbed(st, st', obj, c, path, first, head, found) && f == Look(st', Key(path, first + |found|))
    ensures hits ==> HitsTrue(obj, c, first, found + [f])
    ensures quiet ==>
      Looks(st, path, first, found + [f]) && Undisturbed(st, st', obj, c, path, first, head, found + [f])
  {
    hide Offset, Slice, Grown, Look, Piece;
    if quiet {
      GrownElsewhere(st, st', obj, c, path, first, first + |head|, first + |found|);
    }
  }

  lemma HitNext(quiet: bool, st: CacheState, st': CacheState, obj: Bytes, c: nat, path: string, first: nat,
                head: seq<Found>, found: seq<Found>, f: Found)
    requires c > 0 && found == head + [f] && !f.Missing?
    requires quiet ==> Undisturbed(st, st', obj, c, path, first, head, found)
    ensures quiet ==> Undisturbed(st, st', obj, c, path, first, head + [f], found)
  {
    hide Grown, Look, Piece;
    if quiet {
      assert found[|head|] == Look(st, Key(path, first + |head|));
      GrownHit(st, st', obj, c, path, first, first + |head|);
    }
  }

  lemma GrownHit(st: CacheState, st': CacheState, obj: Bytes, c: nat, path: string, from: nat, to: nat)
    requires c > 0 && from <= to && Grown(st, st', obj, c, path, from, to) && !Look(st, Key(path, to)).Missing?
    ensures Grown(st, st', obj, c, path, from, to + 1)
  {
    hide Piece;
  }

  // ---------------------------------------------------------------------------------------------
  // Byte ranges
  // ---------------------------------------------------------------------------------------------

  function Trim(data: Bytes, offset: nat, length: nat): Answer {
    if |data| < offset then AdvancePanic else Ok(data[offset..Min(offset + length, |data|)])
  }

  /** How many chunks a byte range touches. */
  function ChunkCount(s: nat, e: nat, c: nat): nat
    requires c > 0 && e > 0
  {
    ChunksIn(s / c, (e - 1) / c)
  }

  /** The range starts within the object, and so does the last chunk it touches. */
  ghost predicate Covered(obj: Bytes, c: nat, s: nat, e: nat)
    requires c > 0 && e > 0
  {
    s <= |obj| && Offset((e - 1) / c, c) < |obj|
  }

  lemma InBoundsCovered(obj: Bytes, c: nat, s: nat, e: nat)
    requires c > 0 && s <= e && 0 < e <= |obj|
    ensures Covered(obj, c, s, e) && Cut(obj, s, e) == obj[s..e]
  {
    WholeChunks(e - 1, c);
  }

  /** The chunks of a byte range as they are in a given state. */
  function Seen(st: CacheState, path: string, first: nat, n: nat): (found: seq<Found>)
    ensures |found| == n
  {
    seq(n, k requires 0 <= k < n => Look(st, Key(path, first + k)))
  }

  lemma SeenAt(st: CacheState, path: string, first: nat, n: nat, k: nat)
    requires k < n
    ensures Seen(st, path, first, n)[k] == Look(st, Key(path, first + k))
  {
  }

  ghost function QuietAnswer(st: CacheState, obj: Bytes, c: nat, path: string, s: nat, e: nat): Answer
    requires c > 0 && s <= e && e > 0
  {
    var found := Seen(st, path, s / c, ChunkCount(s, e, c));
    WholeChunks(s, c);
    if Refused(obj, c, s / c, found) then StoreError
    else Trim(Assemble(obj, c, s / c, found), s - Offset(s / c, c), e - s)
  }

  /** A covered range is answered with exactly its bytes, unless the inner store fails. */
  ghost predicate IsExactRead(r: Answer, obj: Bytes, c: nat, s: nat, e: nat, reliable: bool)
    requires c > 0 && s <= e && e > 0
  {
    Covered(obj, c, s, e) ==> r == Ok(Cut(obj, s, e)) || (r == StoreError && !reliable)
  }

  /** The answer of a quiet store, and what it leaves in the cache. */
  ghost predicate IsQuietRead(r: Answer, st: CacheState, st': CacheState, obj: Bytes, c: nat, path: string, s: nat,
                              e: nat)
    requires c > 0 && s <= e && e > 0
  {
    && r == QuietAnswer(st, obj, c, path, s, e)
    && (!r.StoreError? ==> Grown(st, st', obj, c, path, s / c, s / c + ChunkCount(s, e, c)))
  }

  /** A read within one chunk that is found answers from the bytes found. */
  ghost predicate IsSingleRead(r: Answer, f: Found, c: nat, s: nat, e: nat, reliable: bool)
    requires c > 0 && s <= e && e > 0
  {
    s / c == (e - 1) / c && f.Hit? && Offset(s / c, c) <= s ==>
      r == Trim(f.data, s - Offset(s / c, c), e - s) || (r == StoreError && !reliable)
  }

  lemma SingleRead(reliable: bool, data: Option<Bytes>, obj: Bytes, c: nat, s: nat, e: nat, found: seq<Found>, f: Found)
    requires c > 0 && s <= e && e > 0 && Offset(s / c, c) <= s
    requires data.Some? ==> |found| == ChunkCount(s, e, c) && Resolved(obj, c, s / c, found, data.value)
    requires data.None? && reliable ==> |found| <= ChunkCount(s, e, c) && Refused(obj, c, s / c, found)
    requires found != [] ==> found[0] == f
    ensures IsSingleRead(if data.None? then StoreError else Trim(data.value, s - Offset(s / c, c), e - s),
                         f, c, s, e, reliable)
  {
    hide Offset, Trim;
    if s / c == (e - 1) / c && f.Hit? {
      if data.Some? {
        assert found == [f] && found[..0] == [];
        assert Assemble(obj, c, s / c, found) == f.data;
      } else {
        assert |found| <= 1 ==> !Refused(obj, c, s / c, found);
      }
    }
  }

  lemma QuietLooks(quiet: bool, reliable: bool, data: Option<Bytes>, st: CacheState, obj: Bytes, c: nat, path: string,
                   s: nat, e: nat,
                   found: seq<Found>)
    requires c > 0 && s <= e && e > 0 && (quiet ==> reliable)
    requires quiet ==> Looks(st, path, s / c, found)
    requires data.Some? ==> |found| == ChunkCount(s, e, c) && Resolved(obj, c, s / c, found, data.value)
    requires data.None? && reliable ==> |found| <= ChunkCount(s, e, c) && Refused(obj, c, s / c, found)
    ensures quiet && data.None? ==> QuietAnswer(st, obj, c, path, s, e) == StoreError
    ensures Offset(s / c, c) <= s
    ensures quiet && data.Some? ==> QuietAnswer(st, obj, c, path, s, e) == Trim(data.value, s - Offset(s / c, c), e - s)
  {
    hide Offset, Refused, Trim, Look;
    var first, n := s / c, ChunkCount(s, e, c);
    WholeChunks(s, c);
    if quiet {
      var seen := Seen(st, path, first, n);
      if data.None? {
        assert seen == found + seen[|found|..];
        StaysRefused(obj, c, first, found, seen[|found|..]);
      } else {
        assert seen == found;
      }
    }
  }

  lemma InsideNotRefused(obj: Bytes, c: nat, first: nat, found: seq<Found>)
    requires found != [] ==> Offset(first + |found| - 1, c) < |obj|
    ensures !Refused(obj, c, first, found)
  {
    hide Offset;
    forall k | 0 <= k < |found| && Requests(found, k) ensures Offset(first + k, c) < |obj| {
      Scaled(first + k, first + |found| - 1, c);
    }
  }

  lemma HitsAllTrue(obj: Bytes, c: nat, first: nat, found: seq<Found>)
    requires HitsTrue(obj, c, first, found) && (found != [] ==> Offset(first + |found| - 1, c) < |obj|)
    ensures AllTrue(obj, c, first, found)
  {
    hide Offset, Slice;
    forall k | 0 <= k < |found| && found[k].Hit? ensures found[k].data == Slice(obj, c, first + k) {
      Scaled(first + k, first + |found| - 1, c);
    }
  }

  lemma TrimCut(obj: Bytes, lo: nat, hi: nat, s: nat, e: nat)
    requires lo <= s <= e <= hi && s <= |obj|
    ensures Trim(Cut(obj, lo, hi), s - lo, e - s) == Ok(Cut(obj, s, e))
  {
    var top := Min(hi, |obj|);
    var y := Min(e, top);
    assert lo <= top && Cut(obj, lo, hi) == obj[lo..top];
    SliceOfSlice(obj, lo, top, s - lo, y - lo);
  }

  lemma SliceOfSlice(obj: Bytes, a: nat, b: nat, x: nat, y: nat)
    requires a <= b <= |obj| && x <= y <= b - a
    ensures obj[a..b][x..y] == obj[a + x..a + y]
  {
    var l, r := obj[a..b][x..y], obj[a + x..a + y];
    assert |l| == |r| && forall k :: 0 <= k < |l| ==> l[k] == r[k];
  }

  lemma TouchedChunks(c: nat, s: nat, e: nat)
    requires c > 0 && s <= e && e > 0
    ensures Offset(s / c, c) <= s && e <= Offset(s / c + ChunkCount(s, e, c), c)
  {
    hide Offset;
    var first, last := s / c, (e - 1) / c;
    WholeChunks(s, c);
    WholeChunks(e - 1, c);
    if first > last {
      Scaled(last, first, c);
    } else {
      Scaled(last, last, c);
      assert first + ChunkCount(s, e, c) == last + 1;
    }
  }

  lemma TrimIsCut(obj: Bytes, c: nat, s: nat, e: nat)
    requires c > 0 && s <= e && e > 0 && s <= |obj|
    ensures var first, n := s / c, ChunkCount(s, e, c);
      && Offset(first, c) <= s && Offset(first, c) <= Offset(first + n, c)
      && Trim(Cut(obj, Offset(first, c), Offset(first + n, c)), s - Offset(first, c), e - s) == Ok(Cut(obj, s, e))
  {
    hide Offset, Trim, Cut, ChunkCount;
    var first, n := s / c, ChunkCount(s, e, c);
    TouchedChunks(c, s, e);
    TrimCut(obj, Offset(first, c), Offset(first + n, c), s, e);
  }

  /** A covered range is answered with exactly its bytes, whatever was found. */
  lemma CoveredRead(hits: bool, reliable: bool, data: Option<Bytes>, obj: Bytes, c: nat, s: nat, e: nat,
                    found: seq<Found>)
    requires c > 0 && s <= e && e > 0
    requires data.Some? ==> |found| == ChunkCount(s, e, c) && Resolved(obj, c, s / c, found, data.value)
    requires data.None? && reliable ==> |found| <= ChunkCount(s, e, c) && Refused(obj, c, s / c, found)
    requires hits ==> HitsTrue(obj, c, s / c, found)
    ensures Covered(obj, c, s, e) && reliable ==> data.Some?
    ensures Covered(obj, c, s, e) && hits && data.Some? ==>
      Offset(s / c, c) <= s && Trim(data.value, s - Offset(s / c, c), e - s) == Ok(Cut(obj, s, e))
  {
    hide Offset, Refused, HitsTrue, Trim, Cut, Assemble;
    var first, n := s / c, ChunkCount(s, e, c);
    if Covered(obj, c, s, e) && |found| <= n {
      if found != [] {
        Scaled(first + |found| - 1, (e - 1) / c, c);
      }
      InsideNotRefused(obj, c, first, found);
      if hits {
        HitsAllTrue(obj, c, first, found);
        AssembleTrue(obj, c, first, found);
        TrimIsCut(obj, c, s, e);
      }
    }
  }

  // ---------------------------------------------------------------------------------------------
  // Ranges that are not covered
  // ---------------------------------------------------------------------------------------------

  lemma PastEndRefused(st: CacheState, obj: Bytes, c: nat, path: string, s: nat, e: nat, i: nat)
    requires c > 0 && s <= e && e > 0 && s / c < i <= (e - 1) / c && |obj| <= Offset(i, c)
    requires Key(path, i) !in st.cache && Key(path, i - 1) in st.cache
    ensures QuietAnswer(st, obj, c, path, s, e) == StoreError
  {
    hide Offset, Trim, Assemble;
    var first := s / c;
    var found := Seen(st, path, first, ChunkCount(s, e, c));
    var k := i - first;
    assert found[k] == Look(st, Key(path, i)) && found[k - 1] == Look(st, Key(path, i - 1));
    assert Requests(found, k);
    assert Refused(obj, c, first, found);
  }

  /** Reading to the end of an object and then past its last chunk: the second read is refused, because
      the chunks inside the object are in the cache and the request for the rest starts past its end. */
  method ReadPastEnd(store: CachingObjectStore, path: string, s: nat, e: nat) returns (first: Answer, second: Answer)
    requires store.Valid() && store.Quiet() && store.marks.whole && store.St() == EMPTY_CACHE
    requires s < |store.objects(path)| < e && !Covered(store.objects(path), store.minFetchSize, s, e)
    modifies store
    ensures first == Ok(store.objects(path)[s..]) && second == StoreError
  {
    hide Offset, QuietAnswer, TrueBytes, AllWhole, Peek, IsSingleRead;
    ghost var obj, c := store.objects(path), store.minFetchSize;
    var n := |store.objects(path)|;
    InBoundsCovered(obj, c, s, n);
    first := store.GetRange(path, s, n);
    ghost var last := (n - 1) / c;
    LastChunk(c, n, s, e);
    PastEndRefused(store.St(), obj, c, path, s, e, last + 1);
    second := store.GetRange(path, s, e);
  }

  lemma LastChunk(c: nat, n: nat, s: nat, e: nat)
    requires c > 0 && s < n < e
    ensures s / c <= (n - 1) / c && n <= Offset((n - 1) / c + 1, c)
    ensures n <= Offset((e - 1) / c, c) ==> (n - 1) / c < (e - 1) / c
  {
    hide Offset;
    WholeChunks(n - 1, c);
    Scaled((n - 1) / c, (n - 1) / c, c);
    FullChunks(n - 1, c, s / c);
    WholeChunks(s, c);
    if (e - 1) / c <= (n - 1) / c {
      Scaled((e - 1) / c, (n - 1) / c, c);
    }
  }

  lemma ColdFound(st: CacheState, path: string, first: nat, n: nat)
    requires st.cache == map[]
    ensures Seen(st, path, first, n) == Gap(n)
  {
    forall k | 0 <= k < n ensures Seen(st, path, first, n)[k] == Gap(n)[k] {
      SeenAt(st, path, first, n, k);
      assert Gap(n)[k] == Missing;
    }
  }

  lemma ColdResolved(obj: Bytes, c: nat, first: nat, n: nat)
    requires n > 0 && Offset(first, c) < |obj|
    ensures Offset(first, c) <= Offset(first + n, c)
    ensures !Refused(obj, c, first, Gap(n))
    ensures Assemble(obj, c, first, Gap(n)) == Cut(obj, Offset(first, c), Offset(first + n, c))
  {
    hide Offset, Assemble, Cut, Refused, Gap;
    assert [] + Gap(n) == Gap(n);
    HitsNotRefused(obj, c, first, []);
    RefusedGap(obj, c, first, [], n);
    GapAssembled(obj, c, first, [], n);
    NothingFound(obj, c, first);
  }

  lemma TouchesSome(c: nat, s: nat, e: nat)
    requires c > 0 && s < e
    ensures ChunkCount(s, e, c) > 0 && s / c <= (e - 1) / c
  {
    hide Offset;
    WholeChunks(s, c);
    FullChunks(e - 1, c, s / c);
  }

  /** Nothing is cached: one request for everything, which starts inside the object. */
  lemma ColdAnswer(st: CacheState, obj: Bytes, c: nat, path: string, s: nat, e: nat)
    requires c > 0 && s < |obj| && s < e && st.cache == map[]
    ensures QuietAnswer(st, obj, c, path, s, e) == Ok(Cut(obj, s, e))
  {
    hide Offset, Trim, Assemble, Cut, Seen, ChunkCount, Refused, Gap;
    var first, n := s / c, ChunkCount(s, e, c);
    WholeChunks(s, c);
    TouchesSome(c, s, e);
    ColdFound(st, path, first, n);
    ColdResolved(obj, c, first, n);
    TrimIsCut(obj, c, s, e);
  }

  lemma HitsNotRefused(obj: Bytes, c: nat, first: nat, found: seq<Found>)
    requires forall k :: 0 <= k < |found| ==> found[k].Hit?
    ensures !Refused(obj, c, first, found)
  {
  }

  lemma {:induction false} AssembleLength(obj: Bytes, c: nat, first: nat, found: seq<Found>, k: nat)
    requires k <= |found|
    ensures |Assemble(obj, c, first, found[..k])| <= |Assemble(obj, c, first, found)|
  {
    hide Part;
    if k == |found| {
      assert found[..k] == found;
    } else {
      var n := |found| - 1;
      AssembleLength(obj, c, first, found[..n], k);
      assert found[..n][..k] == found[..k];
    }
  }

  /** A tail that does not fill a chunk. */
  lemma ShortTail(obj: Bytes, c: nat)
    requires c > 0 && |obj| % c != 0
    ensures Offset(|obj| / c, c) < |obj| < Offset(|obj| / c + 1, c) && |Tail(obj, c)| > 0
  {
    WholeChunks(|obj|, c);
    Scaled(|obj| / c, |obj| / c, c);
  }

  /** Every chunk of the range is in memory as a batch left it. */
  ghost predicate AllPieces(obj: Bytes, c: nat, first: nat, found: seq<Found>)
    requires c > 0
  {
    forall k :: 0 <= k < |found| ==> found[k] == Hit(Piece(obj, c, first + k))
  }

  lemma PiecesTrue(obj: Bytes, c: nat, first: nat, found: seq<Found>)
    requires c > 0 && AllPieces(obj, c, first, found) && (found != [] ==> Offset(first + |found| - 1, c) < |obj|)
    ensures AllTrue(obj, c, first, found)
  {
    hide Offset, Slice;
    forall k | 0 <= k < |found| && found[k].Hit? ensures found[k].data == Slice(obj, c, first + k) {
      Scaled(first + k, first + |found| - 1, c);
    }
  }

  /** Past the last chunk, the tail is appended once more. */
  lemma WarmLength(obj: Bytes, c: nat, first: nat, found: seq<Found>, m: nat)
    requires c > 0 && 0 < m < |found| && first + m == |obj| / c + 1 && |obj| % c != 0
    requires AllPieces(obj, c, first, found) && Offset(first, c) <= |obj|
    ensures |Assemble(obj, c, first, found)| > |obj| - Offset(first, c)
  {
    hide Assemble, Offset, Tail;
    ShortTail(obj, c);
    var inside := found[..m];
    assert first + |inside| - 1 == |obj| / c;
    PiecesTrue(obj, c, first, inside);
    AssembleTrue(obj, c, first, inside);
    assert found[..m + 1] == inside + [found[m]];
    AssembleSnoc(obj, c, first, inside, found[m]);
    AssembleLength(obj, c, first, found, m + 1);
  }

  /** Every chunk is in memory as a batch left it: past the end, the tail is returned again. */
  lemma WarmAnswer(st: CacheState, obj: Bytes, c: nat, path: string, s: nat, e: nat)
    requires c > 0 && s < |obj| < e && !Covered(obj, c, s, e) && |obj| % c != 0
    requires AllPieces(obj, c, s / c, Seen(st, path, s / c, ChunkCount(s, e, c)))
    ensures var r := QuietAnswer(st, obj, c, path, s, e); r.Ok? && |r.data| > |obj| - s
  {
    hide Offset, Assemble, Refused, Seen, Piece, AllPieces, ChunkCount, Trim;
    var first, n, last := s / c, ChunkCount(s, e, c), |obj| / c;
    var found := Seen(st, path, first, n);
    WholeChunks(s, c);
    ShortTail(obj, c);
    FullChunks(|obj|, c, first);
    FullChunks(|obj|, c, (e - 1) / c);
    PiecesNotRefused(obj, c, first, found);
    CountIs(c, s, e);
    WarmLength(obj, c, first, found, last + 1 - first);
    TrimLonger(Assemble(obj, c, first, found), s - Offset(first, c), e - s, |obj| - s);
  }

  lemma PiecesNotRefused(obj: Bytes, c: nat, first: nat, found: seq<Found>)
    requires c > 0 && AllPieces(obj, c, first, found)
    ensures !Refused(obj, c, first, found)
  {
  }

  lemma CountIs(c: nat, s: nat, e: nat)
    requires c > 0 && s < e
    ensures ChunkCount(s, e, c) == (e - 1) / c - s / c + 1
  {
    TouchesSome(c, s, e);
  }

  lemma TrimLonger(data: Bytes, offset: nat, length: nat, n: nat)
    requires |data| > offset + n && length > n
    ensures Trim(data, offset, length).Ok? && |Trim(data, offset, length).data| > n
  {
  }

  /** Reading twice past the last chunk of an object with a short tail: the first read is right, and the
      second one returns bytes that the object does not have. */
  method ReadTwicePastEnd(store: CachingObjectStore, path: string, s: nat, e: nat)
    returns (first: Answer, second: Answer)
    requires store.Valid() && store.Quiet() && store.marks.whole && store.St() == EMPTY_CACHE
    requires s < |store.objects(path)| < e && !Covered(store.objects(path), store.minFetchSize, s, e)
    requires |store.objects(path)| % store.minFetchSize != 0
    modifies store
    ensures first == Ok(store.objects(path)[s..])
    ensures second.Ok? && |second.data| > |store.objects(path)| - s
  {
    hide Offset, QuietAnswer, TrueBytes, Tidy, Covered, Grown, Piece, ChunkCount, AllWhole, Peek, IsSingleRead,
      IsExactRead, AllPieces, Seen;
    ghost var obj, c := store.objects(path), store.minFetchSize;
    ColdAnswer(store.St(), obj, c, path, s, e);
    first := store.GetRange(path, s, e);
    GrownPieces(store.St(), obj, c, path, s / c, ChunkCount(s, e, c));
    WarmAnswer(store.St(), obj, c, path, s, e);
    second := store.GetRange(path, s, e);
  }

  lemma GrownPieces(st: CacheState, obj: Bytes, c: nat, path: string, first: nat, n: nat)
    requires c > 0 && Grown(EMPTY_CACHE, st, obj, c, path, first, first + n)
    ensures AllPieces(obj, c, first, Seen(st, path, first, n))
  {
    hide Piece, Seen;
    forall k | 0 <= k < n ensures Seen(st, path, first, n)[k] == Hit(Piece(obj, c, first + k)) {
      SeenAt(st, path, first, n, k);
    }
  }

  // ---------------------------------------------------------------------------------------------
  // Unfinished files
  // ---------------------------------------------------------------------------------------------

  lemma WholeChunk(obj: Bytes, c: nat, i: nat)
    requires c > 0 && Offset(i, c) < |obj|
    ensures var s, e := Offset(i, c), Offset(i, c) + |Slice(obj, c, i)|;
      && s < e <= |obj| && s / c == (e - 1) / c == i
      && Slice(obj, c, i) == Piece(obj, c, i) == obj[s..e]
  {
    hide Offset;
    Scaled(i, i, c);
    var s := Offset(i, c);
    ChunkOf(s, c, i);
    ChunkOf(s + |Slice(obj, c, i)| - 1, c, i);
  }

  lemma ChunkOf(n: nat, c: nat, i: nat)
    requires c > 0 && Offset(i, c) <= n < Offset(i + 1, c)
    ensures n / c == i
  {
    hide Offset;
    FullChunks(n, c, i);
    FullChunks(n, c, i + 1);
  }

  /** A read of one whole chunk that finds its entry after some steps, and only the first `n` bytes of its
      file after some more, answers with those. */
  method ReadPart(objects: string -> Bytes, c: Positive, key: Key, n: nat, first: seq<CacheStep>,
                  second: seq<CacheStep>) returns (r: Answer)
    requires Inside(objects, c, key) && n < |Truth(objects, c, key)|
    requires Peek(EMPTY_CACHE, key, first, second, objects, c) == Hit(Truth(objects, c, key)[..n])
    ensures r == Ok(Truth(objects, c, key)[..n]) && r != Ok(Truth(objects, c, key))
  {
    hide Offset, Slice, Peek, Piece, TrueBytes, Tidy, AllWhole;
    var obj := objects(key.path);
    WholeChunk(obj, c, key.chunk);
    var schedule := (t: nat) => if t == 0 then first else if t == 1 then second else [];
    var store := new CachingObjectStore(c, objects, schedule, (t: nat) => false);
    var s := Offset(key.chunk, c);
    assert store.Peeked(key.path, s / c) == Hit(Truth(objects, c, key)[..n]);
    r := store.GetRange(key.path, s, s + |Truth(objects, c, key)|);
  }

  /** A chunk that is evicted and inserted again while it is being written is read wrong. */
  method ReadSecondWrite(objects: string -> Bytes, c: Positive, key: Key, n: nat) returns (r: Answer)
    requires Inside(objects, c, key) && n < |Truth(objects, c, key)|
    ensures r == Ok(Truth(objects, c, key)[..n]) && r != Ok(Truth(objects, c, key))
  {
    WholeChunk(objects(key.path), c, key.chunk);
    SecondWrite(key, n, objects, c);
    hide Offset, Slice, Piece, Apply;
    r := ReadPart(objects, c, key, n, EvictedWhileWriting(key, n), []);
  }

  /** A chunk whose write failed half-way, and that is inserted again, is read wrong. */
  method ReadTornWrite(objects: string -> Bytes, c: Positive, key: Key, n: nat) returns (r: Answer)
    requires Inside(objects, c, key) && n < |Truth(objects, c, key)|
    ensures r == Ok(Truth(objects, c, key)[..n]) && r != Ok(Truth(objects, c, key))
  {
    WholeChunk(objects(key.path), c, key.chunk);
    NextWrite(key, n, objects, c);
    hide Offset, Slice, Piece, Apply;
    r := ReadPart(objects, c, key, n, TornWrite(key, n), []);
  }

  /** A chunk that is evicted and inserted again between a reader's lookup and its opening the file, and
      whose new write has begun, is read wrong. */
  method ReadStalePointer(objects: string -> Bytes, c: Positive, key: Key, n: nat) returns (r: Answer)
    requires Inside(objects, c, key) && n < |Truth(objects, c, key)|
    ensures r == Ok(Truth(objects, c, key)[..n]) && r != Ok(Truth(objects, c, key))
  {
    WholeChunk(objects(key.path), c, key.chunk);
    StalePointer(key, n, objects, c);
    hide Offset, Slice, Piece, Apply;
    r := ReadPart(objects, c, key, n, [Insert(key), WriteDone(0)], Replaced(key, n));
  }
}

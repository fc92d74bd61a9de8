/** What a reader makes of the chunks it finds: which bytes it returns, and which requests it makes. */
module CacheReads {
  import opened CacheModel

  // ---------------------------------------------------------------------------------------------
  // What a reader finds
  // ---------------------------------------------------------------------------------------------

  /** One chunk as found by a reader: present, absent, or with an entry whose file is gone. */
  datatype Found = Hit(data: Bytes) | Missing | Lost

  function Look(st: CacheState, key: Key): Found {
    if key !in st.cache then Missing
    else if st.cache[key].Memory? then Hit(st.cache[key].data)
    else if key in st.disk then Hit(st.disk[key].data)
    else Lost
  }

  /** From an empty cache, no chunk is ever found lost in an orderly run in which nobody else deletes
      files. */
  lemma NeverLost(steps: seq<CacheStep>, objects: string -> Bytes, c: nat, key: Key)
    requires c > 0 && OrderlyRun(EMPTY_CACHE, steps, objects, c)
    requires forall i :: 0 <= i < |steps| ==> !steps[i].LoseFile?
    ensures !Look(ApplyAll(EMPTY_CACHE, steps, objects, c), key).Lost?
  {
    hide OrderlyRun, ApplyAll;
    OrderlyFiles(EMPTY_CACHE, steps, objects, c);
  }

  /** Otherwise one is: inserted a second time before the first write begins. */
  lemma LostOnce(objects: string -> Bytes, c: nat, key: Key)
    requires c > 0
    ensures Look(ApplyAll(EMPTY_CACHE, WrittenTwice(key), objects, c), key) == Lost
  {
    hide ApplyAll;
    SecondDone(key, objects, c);
  }

  /** The bytes a found chunk contributes to the answer. */
  function Part(obj: Bytes, c: nat, i: nat, f: Found): Bytes {
    if f.Hit? then f.data else Slice(obj, c, i)
  }

  function Assemble(obj: Bytes, c: nat, first: nat, found: seq<Found>): Bytes {
    if found == [] then []
    else
      var n := |found| - 1;
      Assemble(obj, c, first, found[..n]) + Part(obj, c, first + n, found[n])
  }

  ghost predicate AllTrue(obj: Bytes, c: nat, first: nat, found: seq<Found>) {
    forall k :: 0 <= k < |found| ==> found[k].Hit? ==> found[k].data == Slice(obj, c, first + k)
  }

  lemma AssembleSnoc(obj: Bytes, c: nat, first: nat, found: seq<Found>, f: Found)
    ensures Assemble(obj, c, first, found + [f]) == Assemble(obj, c, first, found) + Part(obj, c, first + |found|, f)
  {
    assert (found + [f])[..|found|] == found;
  }

  lemma TruePart(obj: Bytes, c: nat, first: nat, found: seq<Found>, f: Found)
    requires AllTrue(obj, c, first, found + [f])
    ensures AllTrue(obj, c, first, found) && Part(obj, c, first + |found|, f) == Slice(obj, c, first + |found|)
  {
    hide Slice;
    assert (found + [f])[|found|] == f;
    forall k | 0 <= k < |found| && found[k].Hit? ensures found[k].data == Slice(obj, c, first + k) {
      assert (found + [f])[k] == found[k];
    }
  }

  lemma SliceNext(obj: Bytes, c: nat, i: nat, j: nat)
    requires i <= j
    ensures Offset(i, c) <= Offset(j, c) <= Offset(j + 1, c)
    ensures Cut(obj, Offset(i, c), Offset(j, c)) + Slice(obj, c, j) == Cut(obj, Offset(i, c), Offset(j + 1, c))
  {
    hide Offset, Cut;
    Scaled(i, j, c);
    Scaled(j, j, c);
    CutJoins(obj, Offset(i, c), Offset(j, c), Offset(j + 1, c));
  }

  lemma NoCut(obj: Bytes, from: nat)
    ensures Cut(obj, from, from) == []
  {
  }

  /** If every chunk that was found holds its true bytes, the answer is the byte range of the chunks. */
  lemma {:induction false} AssembleTrue(obj: Bytes, c: nat, first: nat, found: seq<Found>)
    requires AllTrue(obj, c, first, found)
    ensures Offset(first, c) <= Offset(first + |found|, c)
    ensures Assemble(obj, c, first, found) == Cut(obj, Offset(first, c), Offset(first + |found|, c))
  {
    hide AllTrue, Offset, Cut, Slice, Assemble, Part;
    if found == [] {
      NoCut(obj, Offset(first, c));
      NothingFound(obj, c, first);
    } else {
      var n := |found| - 1;
      var init, f := found[..n], found[n];
      assert found == init + [f];
      TruePart(obj, c, first, init, f);
      AssembleTrue(obj, c, first, init);
      AssembleSnoc(obj, c, first, init, f);
      SliceNext(obj, c, first, first + n);
    }
  }

  lemma NothingFound(obj: Bytes, c: nat, first: nat)
    ensures Assemble(obj, c, first, []) == [] && Runs(first, []) == [] && LostChunks(first, []) == []
    ensures Sent(first, []) == []
  {
  }

  // ---------------------------------------------------------------------------------------------
  // Runs of missing chunks
  // ---------------------------------------------------------------------------------------------

  datatype Run = Run(first: nat, last: nat)

  /** A stretch of missing chunks. */
  function Gap(k: nat): (g: seq<Found>)
    ensures |g| == k
  {
    seq(k, _ => Missing)
  }

  lemma GapSnoc(head: seq<Found>, k: nat)
    ensures head + Gap(k) + [Missing] == head + Gap(k + 1)
  {
  }

  /** How many chunks at the end are missing. */
  function Trailing(found: seq<Found>): (k: nat)
    ensures k <= |found|
  {
    if found == [] || !found[|found| - 1].Missing? then 0 else 1 + Trailing(found[..|found| - 1])
  }

  /** The last chunk, if there is one, is not missing. */
  ghost predicate EndsPresent(found: seq<Found>) {
    found != [] ==> !found[|found| - 1].Missing?
  }

  lemma {:induction false} TrailingGap(head: seq<Found>, k: nat)
    requires EndsPresent(head)
    ensures Trailing(head + Gap(k)) == k
  {
    var w := head + Gap(k);
    if k == 0 {
      assert w == head;
    } else {
      assert w[..|w| - 1] == head + Gap(k - 1);
      TrailingGap(head, k - 1);
    }
  }

  /** All found chunks are those up to the last present one, and a gap. */
  lemma {:induction false} TrailingSplit(found: seq<Found>)
    ensures var m := |found| - Trailing(found);
      found == found[..m] + Gap(Trailing(found)) && EndsPresent(found[..m])
  {
    hide Trailing, Gap;
    if found != [] && found[|found| - 1].Missing? {
      var n := |found| - 1;
      var init := found[..n];
      TrailingSplit(init);
      TrailsMore(found);
      var m := n - Trailing(init);
      assert found == init + [Missing] && found[..m] == init[..m];
      GapSnoc(init[..m], n - m);
    } else {
      TrailsNone(found);
      assert found[..|found|] + Gap(0) == found;
    }
  }

  lemma TrailsMore(found: seq<Found>)
    requires found != [] && found[|found| - 1].Missing?
    ensures Trailing(found) == 1 + Trailing(found[..|found| - 1])
  {
  }

  lemma TrailsNone(found: seq<Found>)
    requires EndsPresent(found)
    ensures Trailing(found) == 0
  {
  }

  /** The run of `k` missing chunks from `i` on, if there are any. */
  function GapRun(i: nat, k: nat): seq<Run> {
    if k == 0 then [] else [Run(i, i + k - 1)]
  }

  /** The runs of missing chunks. */
  function Runs(first: nat, found: seq<Found>): seq<Run>
    decreases |found|
  {
    if found == [] then []
    else if !found[|found| - 1].Missing? then Runs(first, found[..|found| - 1])
    else
      var m := |found| - Trailing(found);
      Runs(first, found[..m]) + GapRun(first + m, |found| - m)
  }

  function LostChunks(first: nat, found: seq<Found>): seq<nat> {
    if found == [] then []
    else
      var n := |found| - 1;
      LostChunks(first, found[..n]) + if found[n].Lost? then [first + n] else []
  }

  lemma RunsOpen(first: nat, found: seq<Found>, m: nat)
    requires found != [] && found[|found| - 1].Missing? && m == |found| - Trailing(found)
    ensures Runs(first, found) == Runs(first, found[..m]) + GapRun(first + m, |found| - m)
  {
    hide Trailing, GapRun;
  }

  lemma RunsGap(first: nat, head: seq<Found>, k: nat)
    requires EndsPresent(head)
    ensures Runs(first, head + Gap(k)) == Runs(first, head) + GapRun(first + |head|, k)
  {
    hide Runs, Trailing;
    var w := head + Gap(k);
    if k == 0 {
      assert w == head;
    } else {
      TrailingGap(head, k);
      assert w[|w| - 1] == Missing && w[..|head|] == head;
      RunsOpen(first, w, |head|);
    }
  }

  lemma RunsPresent(first: nat, found: seq<Found>, f: Found)
    requires !f.Missing?
    ensures Runs(first, found + [f]) == Runs(first, found)
  {
    assert (found + [f])[..|found|] == found;
  }

  lemma LostSnoc(first: nat, found: seq<Found>, f: Found)
    ensures LostChunks(first, found + [f]) == LostChunks(first, found) + if f.Lost? then [first + |found|] else []
  {
    assert (found + [f])[..|found|] == found;
  }

  lemma {:induction false} LostGap(first: nat, head: seq<Found>, k: nat)
    ensures LostChunks(first, head + Gap(k)) == LostChunks(first, head)
  {
    if k == 0 {
      assert head + Gap(k) == head;
    } else {
      LostGap(first, head, k - 1);
      GapSnoc(head, k - 1);
      LostSnoc(first, head + Gap(k - 1), Missing);
    }
  }

  ghost predicate MissingAt(first: nat, found: seq<Found>, i: int) {
    first <= i < first + |found| && found[i - first].Missing?
  }

  /** A run holds missing chunks only, and cannot be extended on either side. */
  ghost predicate IsMaximal(first: nat, found: seq<Found>, r: Run) {
    && r.first <= r.last
    && (forall i :: r.first <= i <= r.last ==> MissingAt(first, found, i))
    && !MissingAt(first, found, r.first - 1) && !MissingAt(first, found, r.last + 1)
  }

  ghost predicate Within(r: Run, i: int) {
    r.first <= i <= r.last
  }

  ghost predicate IsWithin(runs: seq<Run>, i: int) {
    exists j :: 0 <= j < |runs| && Within(runs[j], i)
  }

  /** Every run is maximal, runs do not overlap, and together they are exactly the missing chunks. */
  ghost predicate AreRuns(first: nat, found: seq<Found>, runs: seq<Run>) {
    && (forall j :: 0 <= j < |runs| ==> IsMaximal(first, found, runs[j]))
    && (forall j, k :: 0 <= j < k < |runs| ==> runs[j].last < runs[k].first)
    && (forall i :: MissingAt(first, found, i) ==> IsWithin(runs, i))
  }

  lemma MissingSnoc(first: nat, found: seq<Found>, f: Found)
    requires !f.Missing?
    ensures forall i :: MissingAt(first, found + [f], i) <==> MissingAt(first, found, i)
  {
  }

  lemma MissingGap(first: nat, head: seq<Found>, k: nat)
    requires EndsPresent(head)
    ensures var n := first + |head|;
      && (forall i :: MissingAt(first, head + Gap(k), i) <==> MissingAt(first, head, i) || n <= i < n + k)
      && (forall i :: MissingAt(first, head, i) ==> i < n - 1)
  {
  }

  lemma WithinMore(runs: seq<Run>, r: Run)
    ensures forall i :: IsWithin(runs + [r], i) <==> IsWithin(runs, i) || Within(r, i)
  {
    hide Within;
    var more := runs + [r];
    forall i ensures IsWithin(more, i) <==> IsWithin(runs, i) || Within(r, i) {
      if j :| 0 <= j < |runs| && Within(runs[j], i) {
        assert Within(more[j], i);
      }
      if Within(r, i) {
        assert Within(more[|runs|], i);
      }
    }
  }

  lemma RunEnds(first: nat, head: seq<Found>, runs: seq<Run>, k: nat)
    requires AreRuns(first, head, runs) && EndsPresent(head) && k > 0
    ensures AreRuns(first, head + Gap(k), runs + [Run(first + |head|, first + |head| + k - 1)])
  {
    hide MissingAt, IsWithin, EndsPresent;
    MissingGap(first, head, k);
    var n := first + |head|;
    WithinMore(runs, Run(n, n + k - 1));
    forall j | 0 <= j < |runs| ensures runs[j].last < n && IsMaximal(first, head + Gap(k), runs[j]) {
      assert IsMaximal(first, head, runs[j]) && MissingAt(first, head, runs[j].last);
    }
  }

  lemma PresentNext(first: nat, found: seq<Found>, f: Found, runs: seq<Run>)
    requires AreRuns(first, found, runs) && !f.Missing?
    ensures AreRuns(first, found + [f], runs)
  {
    hide MissingAt, IsWithin;
    MissingSnoc(first, found, f);
  }

  lemma NoRuns(first: nat)
    ensures AreRuns(first, [], Runs(first, []))
  {
  }

  /** The runs are exactly the maximal runs of missing chunks. */
  lemma {:induction false} RunsExact(first: nat, found: seq<Found>)
    ensures AreRuns(first, found, Runs(first, found))
    decreases |found|
  {
    hide *;
    if found == [] {
      NoRuns(first);
    } else if !found[|found| - 1].Missing? {
      var n := |found| - 1;
      assert found == found[..n] + [found[n]];
      RunsExact(first, found[..n]);
      RunsPresent(first, found[..n], found[n]);
      PresentNext(first, found[..n], found[n], Runs(first, found[..n]));
    } else {
      TrailingSplit(found);
      TrailsMore(found);
      var k := Trailing(found);
      var head := found[..|found| - k];
      RunsExact(first, head);
      RunsGap(first, head, k);
      RunEnds(first, head, Runs(first, head), k);
      OneGap(first + |head|, k);
    }
  }

  lemma OneGap(i: nat, k: nat)
    requires k > 0
    ensures GapRun(i, k) == [Run(i, i + k - 1)]
  {
  }

  /** A stretch of missing chunks contributes its byte range. */
  lemma {:induction false} GapAssembled(obj: Bytes, c: nat, first: nat, found: seq<Found>, k: nat)
    ensures Offset(first + |found|, c) <= Offset(first + |found| + k, c)
    ensures Assemble(obj, c, first, found + Gap(k))
         == Assemble(obj, c, first, found) + Cut(obj, Offset(first + |found|, c), Offset(first + |found| + k, c))
  {
    hide Offset, Cut, Slice, Assemble;
    var i := first + |found|;
    Scaled(i, i + k, c);
    if k == 0 {
      assert found + Gap(k) == found;
      NoCut(obj, Offset(i, c));
    } else {
      GapAssembled(obj, c, first, found, k - 1);
      GapSnoc(found, k - 1);
      AssembleSnoc(obj, c, first, found + Gap(k - 1), Missing);
      SliceNext(obj, c, i, i + k - 1);
    }
  }

  // ---------------------------------------------------------------------------------------------
  // The requests in the order in which they are made
  // ---------------------------------------------------------------------------------------------

  function LostRun(i: nat, f: Found): seq<Run> {
    if f.Lost? then [Run(i, i)] else []
  }

  /** The requests for chunks all of which have been resolved: a present chunk ends the run of missing
      chunks before it, and if it is lost its own request is made first. */
  function Sent(first: nat, found: seq<Found>): seq<Run>
    decreases |found|
  {
    if found == [] then []
    else
      var n := |found| - 1;
      if found[n].Missing? then
        var m := |found| - Trailing(found);
        Sent(first, found[..m]) + GapRun(first + m, |found| - m)
      else
        var m := n - Trailing(found[..n]);
        Sent(first, found[..m]) + LostRun(first + n, found[n]) + GapRun(first + m, n - m)
  }

  lemma SentOpen(first: nat, found: seq<Found>, m: nat)
    requires found != [] && found[|found| - 1].Missing? && m == |found| - Trailing(found)
    ensures Sent(first, found) == Sent(first, found[..m]) + GapRun(first + m, |found| - m)
  {
    hide Trailing, GapRun, LostRun;
  }

  lemma SentClosed(first: nat, found: seq<Found>, f: Found, m: nat)
    requires !f.Missing? && m == |found| - Trailing(found)
    ensures Sent(first, found + [f])
         == Sent(first, found[..m]) + LostRun(first + |found|, f) + GapRun(first + m, |found| - m)
  {
    hide Trailing, GapRun, LostRun;
    assert (found + [f])[..|found|] == found;
    assert (found + [f])[..m] == found[..m];
  }

  lemma SentGap(first: nat, head: seq<Found>, k: nat)
    requires k > 0 && EndsPresent(head)
    ensures Sent(first, head + Gap(k)) == Sent(first, head) + GapRun(first + |head|, k)
  {
    hide *;
    TrailingGap(head, k);
    GapEnds(head, k);
    SentOpen(first, head + Gap(k), |head|);
  }

  lemma GapEnds(head: seq<Found>, k: nat)
    ensures (head + Gap(k))[..|head|] == head
    ensures k > 0 ==> (head + Gap(k))[|head| + k - 1] == Missing
  {
  }

  lemma SentPart(first: nat, head: seq<Found>, k: nat, f: Found)
    requires !f.Missing? && EndsPresent(head)
    ensures Sent(first, head + Gap(k) + [f])
         == Sent(first, head) + LostRun(first + |head| + k, f) + GapRun(first + |head|, k)
  {
    hide Sent, Trailing, GapRun, LostRun, Gap;
    TrailingGap(head, k);
    SentClosed(first, head + Gap(k), f, |head|);
    assert (head + Gap(k))[..|head|] == head;
  }

  function Singles(lost: seq<nat>): seq<Run> {
    seq(|lost|, i requires 0 <= i < |lost| => Run(lost[i], lost[i]))
  }

  lemma SinglesSnoc(lost: seq<nat>, i: nat, f: Found)
    ensures Singles(lost + if f.Lost? then [i] else []) == Singles(lost) + LostRun(i, f)
  {
  }

  /** As many requests as there are runs and lost chunks, and exactly those. */
  ghost predicate IsExact(first: nat, found: seq<Found>) {
    multiset(Sent(first, found)) == multiset(Runs(first, found)) + multiset(Singles(LostChunks(first, found)))
  }

  lemma Counted(sent: seq<Run>, runs: seq<Run>, lost: seq<Run>, l: seq<Run>, g: seq<Run>)
    requires multiset(sent) == multiset(runs) + multiset(lost)
    ensures multiset(sent + l + g) == multiset(runs + g) + multiset(lost + l)
  {
  }

  lemma SentExactGap(first: nat, head: seq<Found>, k: nat)
    requires k > 0 && EndsPresent(head) && IsExact(first, head)
    ensures IsExact(first, head + Gap(k))
  {
    hide Sent, Runs, LostChunks, Singles, Gap, GapRun;
    SentGap(first, head, k);
    RunsGap(first, head, k);
    LostGap(first, head, k);
    Counted(Sent(first, head), Runs(first, head), Singles(LostChunks(first, head)), [], GapRun(first + |head|, k));
    assert Sent(first, head) + [] == Sent(first, head);
    assert Singles(LostChunks(first, head)) + [] == Singles(LostChunks(first, head));
  }

  lemma SentExactPart(first: nat, head: seq<Found>, k: nat, f: Found)
    requires !f.Missing? && EndsPresent(head) && IsExact(first, head)
    ensures IsExact(first, head + Gap(k) + [f])
  {
    hide Sent, Runs, LostChunks, Singles, Gap, GapRun, LostRun;
    var mid := head + Gap(k);
    SentPart(first, head, k, f);
    RunsGap(first, head, k);
    RunsPresent(first, mid, f);
    LostGap(first, head, k);
    LostSnoc(first, mid, f);
    SinglesSnoc(LostChunks(first, head), first + |mid|, f);
    Counted(Sent(first, head), Runs(first, head), Singles(LostChunks(first, head)), LostRun(first + |mid|, f),
            GapRun(first + |head|, k));
  }

  lemma NoneSent(first: nat)
    ensures IsExact(first, [])
  {
  }

  /** The requests are exactly one per maximal run of missing chunks and one per lost file. */
  lemma {:induction false} SentExact(first: nat, found: seq<Found>)
    ensures IsExact(first, found)
    decreases |found|
  {
    hide IsExact, Trailing, EndsPresent, Gap;
    if found == [] {
      NoneSent(first);
    } else if found[|found| - 1].Missing? {
      TrailingSplit(found);
      TrailsMore(found);
      SentExact(first, found[..|found| - Trailing(found)]);
      SentExactGap(first, found[..|found| - Trailing(found)], Trailing(found));
    } else {
      var n := |found| - 1;
      var init, f := found[..n], found[n];
      TrailingSplit(init);
      var k := Trailing(init);
      SentExact(first, init[..n - k]);
      SentExactPart(first, init[..n - k], k, f);
      assert found == init + [f];
    }
  }

  // ---------------------------------------------------------------------------------------------
  // Requests that are refused
  // ---------------------------------------------------------------------------------------------

  function ChunksIn(start: nat, end: nat): nat {
    if start <= end then end - start + 1 else 0
  }

  /** The chunks were found as they were in a given state. */
  ghost predicate Looks(st: CacheState, path: string, first: nat, found: seq<Found>) {
    forall k :: 0 <= k < |found| ==> found[k] == Look(st, Key(path, first + k))
  }

  /** Every chunk inside the object that was found in the cache has its true bytes. */
  ghost predicate HitsTrue(obj: Bytes, c: nat, first: nat, found: seq<Found>) {
    forall k :: 0 <= k < |found| && found[k].Hit? && Offset(first + k, c) < |obj| ==>
      found[k].data == Slice(obj, c, first + k)
  }

  /** A request to the inner store starts at this chunk. */
  ghost predicate Requests(found: seq<Found>, k: nat)
    requires k < |found|
  {
    found[k].Lost? || (found[k].Missing? && (k == 0 || !found[k - 1].Missing?))
  }

  /** Some request starts past the end of the object. */
  ghost predicate Refused(obj: Bytes, c: nat, first: nat, found: seq<Found>) {
    exists k :: 0 <= k < |found| && Requests(found, k) && |obj| <= Offset(first + k, c)
  }

  lemma RefusedSnoc(obj: Bytes, c: nat, first: nat, found: seq<Found>, f: Found)
    ensures Refused(obj, c, first, found + [f]) <==>
      Refused(obj, c, first, found) || (Requests(found + [f], |found|) && |obj| <= Offset(first + |found|, c))
  {
    hide Offset;
    forall k | 0 <= k < |found| ensures Requests(found + [f], k) <==> Requests(found, k) {
    }
  }

  /** A run of missing chunks is refused if its first chunk is. */
  lemma {:induction false} RefusedGap(obj: Bytes, c: nat, first: nat, head: seq<Found>, k: nat)
    requires k > 0 && EndsPresent(head)
    ensures Refused(obj, c, first, head + Gap(k))
      <==> Refused(obj, c, first, head) || |obj| <= Offset(first + |head|, c)
  {
    hide Offset, Refused;
    var init := head + Gap(k - 1);
    GapSnoc(head, k - 1);
    RefusedSnoc(obj, c, first, init, Missing);
    if k == 1 {
      assert init == head;
    } else {
      RefusedGap(obj, c, first, head, k - 1);
      assert (init + [Missing])[|init| - 1] == init[|init| - 1] == Missing;
    }
  }

  lemma FailsNext(fails: bool, obj: Bytes, c: nat, first: nat, found: seq<Found>, f: Found)
    requires fails ==> f.Lost? && |obj| <= Offset(first + |found|, c)
    ensures fails ==> Refused(obj, c, first, found + [f])
  {
    RefusedSnoc(obj, c, first, found, f);
  }

  lemma FailsPending(fails: bool, obj: Bytes, c: nat, first: nat, head: seq<Found>, k: nat, found: seq<Found>, f: Found)
    requires k > 0 && EndsPresent(head) && (fails ==> |obj| <= Offset(first + |head|, c))
    requires found == head + Gap(k) || found == head + Gap(k) + [f]
    ensures fails ==> Refused(obj, c, first, found)
  {
    RefusedGap(obj, c, first, head, k);
    RefusedSnoc(obj, c, first, head + Gap(k), f);
  }

  /** A refused request of a first part is refused in the whole. */
  lemma StaysRefused(obj: Bytes, c: nat, first: nat, found: seq<Found>, more: seq<Found>)
    requires Refused(obj, c, first, found)
    ensures Refused(obj, c, first, found + more)
  {
    hide Offset;
    var k :| 0 <= k < |found| && Requests(found, k) && |obj| <= Offset(first + k, c);
    assert Requests(found + more, k);
  }
}

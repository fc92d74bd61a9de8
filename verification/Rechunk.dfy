/** The re-chunking loop of `plan_to_object_store`: batches of rows arrive in order and are written
    to a sequence of files of at most `limit` rows each. */
module Rechunk {

  function Flatten<T>(parts: seq<seq<T>>): seq<T> {
    if parts == [] then [] else Flatten(parts[..|parts| - 1]) + parts[|parts| - 1]
  }

  lemma {:induction false} FlattenConcat<T>(a: seq<seq<T>>, b: seq<seq<T>>)
    ensures Flatten(a + b) == Flatten(a) + Flatten(b)
  {
    if b == [] {
      assert a + b == a;
    } else {
      FlattenConcat(a, b[..|b| - 1]);
      assert (a + b)[..|a + b| - 1] == a + b[..|b| - 1];
    }
  }

  lemma FlattenSnoc<T>(a: seq<seq<T>>, x: seq<T>)
    ensures Flatten(a + [x]) == Flatten(a) + x
  {
    assert (a + [x])[..|a|] == a;
  }

  /** Every file but the last is exactly full, and the last is within the limit. */
  ghost predicate Chunked<T>(files: seq<seq<T>>, limit: nat) {
    && files != []
    && (forall i :: 0 <= i < |files| - 1 ==> |files[i]| == limit)
    && |files[|files| - 1]| <= limit
    && (|files| > 1 ==> files[|files| - 1] != [])
  }

  lemma {:induction false} FullSize<T>(files: seq<seq<T>>, limit: nat)
    requires forall i :: 0 <= i < |files| ==> |files[i]| == limit
    ensures |Flatten(files)| == |files| * limit
  {
    if files != [] {
      var n := |files| - 1;
      FullSize(files[..n], limit);
      assert (n + 1) * limit == n * limit + limit;
    }
  }

  /** As many files as the rows need, rounded up, and never none. */
  ghost predicate FileCount(files: nat, rows: nat, limit: nat) {
    if rows == 0 then files == 1 else files > 0 && (files - 1) * limit < rows <= files * limit
  }

  lemma ChunkCount<T>(files: seq<seq<T>>, limit: nat)
    requires Chunked(files, limit) && limit > 0
    ensures FileCount(|files|, |Flatten(files)|, limit)
  {
    var n := |files| - 1;
    FullSize(files[..n], limit);
    assert (n + 1) * limit == n * limit + limit;
  }

  lemma SameCount(a: nat, b: nat, rows: nat, limit: nat)
    requires limit > 0 && FileCount(a, rows, limit) && FileCount(b, rows, limit)
    ensures a == b
  {
    assert a < b ==> a * limit <= (b - 1) * limit;
    assert b < a ==> b * limit <= (a - 1) * limit;
  }

  lemma SameLast<T>(a: seq<seq<T>>, b: seq<seq<T>>)
    requires |a| == |b| > 0 && Flatten(a) == Flatten(b)
    requires |Flatten(a[..|a| - 1])| == |Flatten(b[..|b| - 1])|
    ensures Flatten(a[..|a| - 1]) == Flatten(b[..|b| - 1]) && a[|a| - 1] == b[|b| - 1]
  {
    var n := |a| - 1;
    var p, q, x, y := Flatten(a[..n]), Flatten(b[..n]), a[n], b[n];
    assert p + x == q + y;
    assert p == (p + x)[..|p|] && q == (q + y)[..|p|];
    assert x == (p + x)[|p|..] && y == (q + y)[|p|..];
  }

  /** Chunking is determined by the rows and the limit. */
  lemma {:induction false} ChunkedUnique<T>(a: seq<seq<T>>, b: seq<seq<T>>, limit: nat)
    requires Chunked(a, limit) && Chunked(b, limit) && limit > 0 && Flatten(a) == Flatten(b)
    ensures a == b
  {
    ChunkCount(a, limit);
    ChunkCount(b, limit);
    SameCount(|a|, |b|, |Flatten(a)|, limit);
    var n := |a| - 1;
    FullSize(a[..n], limit);
    FullSize(b[..n], limit);
    SameLast(a, b);
    hide Flatten, FileCount;
    if n > 0 {
      ChunkedUnique(a[..n], b[..n], limit);
    }
    assert a == a[..n] + [a[n]] && b == b[..n] + [b[n]];
  }

  /** Write the batches of all partitions. The open file is kept apart from the closed ones until it is
      closed at the end; a file is opened and closed once, so there are as many paths as metadata. */
  method PlanToFiles<T>(partitions: seq<seq<seq<T>>>, limit: nat)
    returns (files: seq<seq<T>>, paths: nat, metadata: nat)
    requires limit > 0
    ensures Flatten(files) == Flatten(Flatten(partitions))
    ensures Chunked(files, limit)
    ensures FileCount(|files|, |Flatten(Flatten(partitions))|, limit)
    ensures paths == metadata == |files|
  {
    hide Flatten, Chunked, FileCount;
    var closed: seq<seq<T>>, writer: seq<T> := [], [];
    NothingWritten(partitions, limit);
    var size := 0;
    paths, metadata := 1, 0;
    var i := 0;
    while i < |partitions|
      invariant 0 <= i <= |partitions|
      invariant Flatten(closed + [writer]) == Flatten(Flatten(partitions[..i]))
      invariant Chunked(closed + [writer], limit) && size == |writer|
      invariant paths == metadata + 1 && metadata == |closed|
    {
      FlattenNone(partitions[i]);
      var j := 0;
      while j < |partitions[i]|
        invariant 0 <= j <= |partitions[i]|
        invariant Flatten(closed + [writer]) == Flatten(Flatten(partitions[..i])) + Flatten(partitions[i][..j])
        invariant Chunked(closed + [writer], limit) && size == |writer|
        invariant paths == metadata + 1 && metadata == |closed|
      {
        var batch := partitions[i][j];
        closed, writer, size, paths, metadata := WriteBatch(closed, writer, size, paths, metadata, batch, limit);
        assert partitions[i][..j + 1] == partitions[i][..j] + [batch];
        FlattenSnoc(partitions[i][..j], batch);
        j := j + 1;
      }
      assert partitions[i][..j] == partitions[i];
      assert partitions[..i + 1] == partitions[..i] + [partitions[i]];
      FlattenSnoc(partitions[..i], partitions[i]);
      FlattenConcat(Flatten(partitions[..i]), partitions[i]);
      i := i + 1;
    }
    assert partitions[..i] == partitions;
    files := closed + [writer];
    metadata := metadata + 1;
    ChunkCount(files, limit);
  }

  lemma FlattenNone<T>(parts: seq<seq<T>>)
    ensures Flatten(parts[..0]) == []
  {
  }

  lemma NothingWritten<T>(partitions: seq<seq<seq<T>>>, limit: nat)
    ensures var none: seq<seq<T>> := [] + [[]];
      Flatten(none) == Flatten(Flatten(partitions[..0])) && Chunked(none, limit)
  {
  }

  /** Closing the open file, with the part of the batch that fits, moves rows from batch to files. */
  lemma RollOver<T>(closed: seq<seq<T>>, writer: seq<T>, batch: seq<T>, fits: nat)
    requires fits <= |batch|
    ensures Flatten(closed + [writer + batch[..fits]]) + batch[fits..] == Flatten(closed) + writer + batch
  {
    FlattenSnoc(closed, writer + batch[..fits]);
    assert batch == batch[..fits] + batch[fits..];
  }

  /** Write one batch, rolling over to a new file whenever the open one is full. */
  method WriteBatch<T>(closed0: seq<seq<T>>, writer0: seq<T>, size0: nat, paths0: nat, metadata0: nat, batch0: seq<T>,
                       limit: nat)
    returns (closed: seq<seq<T>>, writer: seq<T>, size: nat, paths: nat, metadata: nat)
    requires limit > 0 && Chunked(closed0 + [writer0], limit) && size0 == |writer0|
    requires paths0 == metadata0 + 1 && metadata0 == |closed0|
    ensures Flatten(closed + [writer]) == Flatten(closed0 + [writer0]) + batch0
    ensures Chunked(closed + [writer], limit) && size == |writer|
    ensures paths == metadata + 1 && metadata == |closed|
  {
    closed, writer, size, paths, metadata := closed0, writer0, size0, paths0, metadata0;
    var batch := batch0;
    var leftover := limit - size;
    FlattenSnoc(closed, writer);
    hide Flatten;
    while |batch| > leftover
      invariant forall k :: 0 <= k < |closed| ==> |closed[k]| == limit
      invariant 0 <= leftover == limit - |writer| && size == |writer|
      invariant Flatten(closed) + writer + batch == Flatten(closed0 + [writer0]) + batch0
      invariant |closed| > 0 ==> writer != [] || batch != []
      invariant paths == metadata + 1 && metadata == |closed|
      decreases |batch| + (if leftover == 0 then 1 else 0)
    {
      RollOver(closed, writer, batch, leftover);
      if leftover > 0 {
        writer := writer + batch[..leftover];
        batch := batch[leftover..];
      }
      assert leftover == 0 ==> batch[0..] == batch && writer + batch[..0] == writer;
      closed := closed + [writer];
      metadata := metadata + 1;
      size, leftover := 0, limit;
      writer := [];
      paths := paths + 1;
    }
    size := size + |batch|;
    writer := writer + batch;
    FlattenSnoc(closed, writer);
  }
}

/** What the data-sync writer promises about its sequence numbers over whole runs: durable numbers are
    safe, only move forward, stay behind the memory numbers, and catch up when the queues are empty. */
module SyncTheorems {
  import opened Basics
  import opened Schema
  import opened Prune
  import opened SyncState
  import opened SyncInvariant
  import opened SyncStore
  import Squash

  // ---------------------------------------------------------------------------------------------
  // Durability
  // ---------------------------------------------------------------------------------------------

  lemma {:induction false} LastSequencesAt(rec: seq<TxRecord>, o: string) returns (i: nat)
    requires o in LastSequences(rec)
    ensures i < |rec| && rec[i] == TxRecord(o, Some(LastSequences(rec)[o]))
    ensures forall j :: i < j < |rec| && rec[j].sequence.Some? ==> rec[j].origin != o
  {
    var n := |rec| - 1;
    if rec[n].sequence.Some? && rec[n].origin == o {
      i := n;
    } else {
      i := LastSequencesAt(rec[..n], o);
    }
  }

  /** All messages of a table up to a transaction are done, and without replays they are in the
      committed table. */
  ghost predicate Flushed(s: State, url: string, i: nat) {
    var log, done := LogOf(s.h, url), DoneOf(s.h, url);
    && (forall j :: 0 <= j < |log| && log[j].item.txId <= i ==> j < done)
    && (done > 0 ==> url in s.tables && url in s.h.base && done <= |log|)
    && (done > 0 && NoReplay(s.h.txs, s.h.base[url].commit) ==>
          ShapedItems(ItemsOf(log)[..done])
          && s.tables[url].bag == ApplyBag(s.h.base[url].cols, s.h.base[url].bag, AllChanges(ItemsOf(log)[..done])))
  }

  /** Transaction `i` carries the reported sequence number; it and all before it are complete, and
      nothing of them is pending for any table. */
  ghost predicate DurableAt(s: State, o: string, i: nat) {
    && o in s.m.durable && i < |s.h.txs| && s.h.txs[i] == TxRecord(o, Some(s.m.durable[o]))
    && (forall k :: 0 <= k <= i ==> s.h.txs[k].sequence.Some?)
    && (forall url :: Flushed(s, url, i))
  }

  lemma FlushedBefore(s: State, url: string, i: nat)
    requires Inv(s) && i < |s.h.txs| - |s.m.txs|
    ensures Flushed(s, url, i)
  {
    hide LastSequences, LocationsExact, QueueShape, OnlyLastOpen, TxsMatch, ApplyBag, LogOk, QueueMatches,
      CommitFrom, CommitEnds, NoReplay, ShapedItems;
    var log, done := LogOf(s.h, url), DoneOf(s.h, url);
    assert TableStore(s, url);
    assert TableInv(s.m.txs, s.m.syncs, |s.h.txs|, url, log, done);
    forall j | done <= j < |log| ensures i < log[j].item.txId {
      assert Holds(s.m.txs, |s.h.txs|, log[j].item.txId, url);
    }
  }

  lemma DurableIsCommitted(s: State, o: string)
    requires Inv(s) && o in s.m.durable
    ensures exists i :: DurableAt(s, o, i)
  {
    InvRecords(s.m, s.h);
    TxsFit(s.m.txs, s.h.txs);
    var gone := |s.h.txs| - |s.m.txs|;
    DurableMatches(s.m, s.h);
    var i := LastSequencesAt(s.h.txs[..gone], o);
    hide Inv, TxsMatch, LastSequences, Flushed;
    forall url ensures Flushed(s, url, i) {
      FlushedBefore(s, url, i);
    }
    assert DurableAt(s, o, i);
  }

  lemma DurableMatches(m: Memory, h: History)
    requires MemInv(m, h)
    ensures |m.txs| <= |h.txs| && m.durable == LastSequences(h.txs[..|h.txs| - |m.txs|])
    ensures IsTold(h.told, h.txs) && m.memory == LastSequences(h.told) && (h.intact ==> h.told == h.txs)
  {
    hide TableInv, LocationsExact, QueueShape, OnlyLastOpen, LastSequences, IsTold, IsStuck;
  }

  /** Durability safety: in every state of every run, the durable sequence number reported for an
      origin belongs to a transaction all of whose rows, and all rows of all transactions that started
      before it, from any origin and for any table, have been committed. */
  lemma DurabilitySafety(run: seq<State>, steps: seq<Step>, k: nat, o: string)
    requires IsRun(run, steps) && k < |run| && o in run[k].m.durable
    ensures exists i :: DurableAt(run[k], o, i)
  {
    hide IsRun, Inv, DurableAt;
    RunInv(run, steps, k);
    DurableIsCommitted(run[k], o);
  }

  // ---------------------------------------------------------------------------------------------
  // What a message does
  // ---------------------------------------------------------------------------------------------

  /** The squashing of the message fails: a flag column, and nothing left. */
  ghost predicate CannotSquash(msg: Message)
    requires Shaped(msg.schema, msg.rows)
  {
    msg.rows != [] && (exists c :: 0 <= c < |msg.schema| && msg.schema[c].role == Changed)
    && |Squash.SquashRows(msg.schema, msg.rows)| == 0
  }

  lemma CannotSquashIs(msg: Message)
    requires Shaped(msg.schema, msg.rows)
    ensures SquashPanics(msg) <==> CannotSquash(msg)
  {
    hide Squash.SquashRows, Columns;
    Squash.SomeChanged(msg.schema);
  }

  /** The transactions after a message that was not refused: the open one, or else a new one at the end,
      has the message's origin and number, and waits for its table if the message has rows. */
  ghost predicate IsJoined(txs: seq<Transaction>, txs': seq<Transaction>, open: bool, next: nat, msg: Message) {
    && |txs'| == (if open then |txs| else |txs| + 1) > 0
    && txs'[..|txs'| - 1] == txs[..|txs'| - 1]
    && var tx := txs'[|txs'| - 1];
       && tx.origin == msg.origin && tx.sequence == msg.sequence
       && tx.id == (if open then txs[|txs| - 1].id else next)
       && forall u :: u in tx.locations <==> (open && u in txs[|txs| - 1].locations) || (u == msg.url && msg.rows != [])
  }

  /** The queues after an item was added: one more item at the end of its table's queue, which keeps its
      time, or else a queue of its own that starts now. */
  ghost predicate IsPushed(syncs: seq<Entry>, syncs': seq<Entry>, msg: Message, item: DataSyncItem) {
    && (forall q: Entry :: q.url != msg.url ==> (q in syncs' <==> q in syncs))
    && (forall q :: q in syncs && q.url == msg.url ==>
          Entry(q.url, q.size + msg.size, q.rows + |item.batch|, q.insertionTime, q.items + [item]) in syncs')
    && ((forall q :: q in syncs ==> q.url != msg.url) ==>
          Entry(msg.url, msg.size, |item.batch|, msg.now, [item]) in syncs')
  }

  /** What a message does. It is refused, and changes nothing, if and only if another origin's transaction
      is open, or none is open and it has no rows. Otherwise it joins or starts a transaction. If its rows
      can be squashed they are queued for its table, and its number becomes the memory number of its
      origin. */
  ghost predicate IsEnqueued(m: Memory, m': Memory, msg: Message)
    requires Shaped(msg.schema, msg.rows)
  {
    var open := m.txs != [] && m.txs[|m.txs| - 1].sequence.None?;
    if (if open then m.txs[|m.txs| - 1].origin != msg.origin else msg.rows == []) then m' == m
    else
      && IsJoined(m.txs, m'.txs, open, m.nextTx, msg) && m'.durable == m.durable
      && (if CannotSquash(msg) then m'.syncs == m.syncs && m'.memory == m.memory && m'.size == m.size
          else
            && m'.memory == (if msg.sequence.Some? then m.memory[msg.origin := msg.sequence.value] else m.memory)
            && (if msg.rows == [] then m'.syncs == m.syncs && m'.size == m.size
                else
                  && m'.size == m.size + msg.size
                  && IsPushed(m.syncs, m'.syncs, msg, DataSyncItem(m'.txs[|m'.txs| - 1].id, msg.schema,
                                                                   Squash.SquashRows(msg.schema, msg.rows)))))
  }

  lemma Enqueues(s: State, msg: Message)
    requires Inv(s) && MessageOk(s.h, msg)
    ensures Shaped(msg.schema, msg.rows) && IsEnqueued(s.m, Next(s, Enqueue(msg)).m, msg)
  {
    hide Inv, MemInv, EnqueueMem, EnqueueHistory, IsEnqueued, Shaped, Valid, Names;
    InvMem(s);
    InvShape(s.m, s.h);
    EnqueuedMem(s.m, msg);
  }

  lemma EnqueuedMem(m: Memory, msg: Message)
    requires Shaped(msg.schema, msg.rows) && !IsProbe(msg) && DistinctUrls(m.syncs)
    ensures IsEnqueued(m, EnqueueMem(m, msg), msg)
  {
    hide Squash.SquashRows, PushItem, IsPushed, Shaped, SquashPanics, CannotSquash, IsJoined, JoinTx, JoinedTx,
      DistinctUrls;
    CannotSquashIs(msg);
    if TxOutcome(m, msg) == Accepted {
      Joined(m, msg);
      PushedOne(m.syncs, msg, ItemOf(m, msg));
    }
  }

  lemma InvShape(m: Memory, h: History)
    requires MemInv(m, h)
    ensures DistinctUrls(m.syncs)
  {
    hide TableInv, LocationsExact, LastSequences, TxsMatch, OnlyLastOpen, IsTold, IsStuck;
    ShapeDistinct(m.syncs, m.size, h.clock);
  }

  lemma Joined(m: Memory, msg: Message)
    requires TxOutcome(m, msg) == Accepted && !IsProbe(msg)
    ensures var m' := JoinTx(m, msg);
      && IsJoined(m.txs, m'.txs, HasOpenTx(m), m.nextTx, msg) && m'.txs[|m'.txs| - 1] == JoinedTx(m, msg)
      && m'.syncs == m.syncs && m'.size == m.size && m'.memory == m.memory && m'.durable == m.durable
  {
  }

  lemma PushedOne(syncs: seq<Entry>, msg: Message, item: DataSyncItem)
    requires DistinctUrls(syncs)
    ensures IsPushed(syncs, PushItem(syncs, msg, item), msg, item)
  {
    hide EntryOf;
    var e, syncs' := EntryOf(syncs, msg.url), PushItem(syncs, msg, item);
    if e < |syncs| {
      forall q: Entry | q.url != msg.url ensures q in syncs' <==> q in syncs {
        OtherEntry(syncs, syncs', e, q);
      }
      assert syncs[e] in syncs && syncs'[e] in syncs';
    } else {
      NotBefore(syncs, msg.url);
      assert syncs'[|syncs|] in syncs';
    }
  }

  lemma OtherEntry(syncs: seq<Entry>, syncs': seq<Entry>, e: nat, q: Entry)
    requires e < |syncs| == |syncs'| && syncs[e].url == syncs'[e].url != q.url
    requires forall f :: 0 <= f < |syncs| && f != e ==> syncs'[f] == syncs[f]
    ensures q in syncs' <==> q in syncs
  {
    if q in syncs {
      var f :| 0 <= f < |syncs| && syncs[f] == q;
      assert syncs'[f] == q;
    }
    if q in syncs' {
      var f :| 0 <= f < |syncs| && syncs'[f] == q;
      assert syncs[f] == q;
    }
  }

  lemma StepOf(run: seq<State>, steps: seq<Step>, k: nat)
    requires IsRun(run, steps) && k < |steps|
    ensures |run| == |steps| + 1 && Enabled(run[k], steps[k]) && run[k + 1] == Next(run[k], steps[k])
  {
    hide Enabled, Next, Initial;
  }

  /** Over runs: a message with a number from the origin of the open transaction, with or without rows,
      completes it, and its number becomes the memory number of the origin unless squashing fails. */
  lemma Completes(run: seq<State>, steps: seq<Step>, k: nat, msg: Message)
    requires IsRun(run, steps) && k < |steps| && steps[k] == Enqueue(msg) && msg.sequence.Some?
    requires var txs := run[k].m.txs;
      txs != [] && txs[|txs| - 1].sequence.None? && txs[|txs| - 1].origin == msg.origin
    ensures Shaped(msg.schema, msg.rows)
    ensures var m, m', n := run[k].m, run[k + 1].m, |run[k].m.txs| - 1;
      && |m'.txs| == |m.txs| && m'.txs[n].id == m.txs[n].id && m'.txs[n].sequence == msg.sequence
      && (!CannotSquash(msg) ==> msg.origin in m'.memory && m'.memory[msg.origin] == msg.sequence.value)
  {
    hide Inv, Next, IsPushed, CannotSquash, Shaped, IsRun, MessageOk;
    StepOf(run, steps, k);
    RunInv(run, steps, k);
    Enqueues(run[k], msg);
  }

  // ---------------------------------------------------------------------------------------------
  // Sequence numbers move forward
  // ---------------------------------------------------------------------------------------------

  /** Each origin's sequence numbers arrive in increasing order. */
  ghost predicate Increasing(rec: seq<TxRecord>) {
    forall i, j :: 0 <= i < j < |rec| && rec[i].origin == rec[j].origin
      && rec[i].sequence.Some? && rec[j].sequence.Some?
      ==> rec[i].sequence.value < rec[j].sequence.value
  }

  ghost predicate Behind(d: map<string, nat>, e: map<string, nat>) {
    forall o :: o in d ==> o in e && d[o] <= e[o]
  }

  lemma {:induction false} BehindLonger(rec: seq<TxRecord>, n: nat)
    requires Increasing(rec) && n <= |rec|
    ensures Behind(LastSequences(rec[..n]), LastSequences(rec))
  {
    if n == |rec| {
      assert rec[..n] == rec;
    } else {
      var k := |rec| - 1;
      var init := rec[..k];
      assert init[..n] == rec[..n];
      BehindLonger(init, n);
      forall o | o in LastSequences(init)
        ensures o in LastSequences(rec) && LastSequences(init)[o] <= LastSequences(rec)[o]
      {
        var i := LastSequencesAt(init, o);
        assert rec[i] == init[i];
      }
    }
  }

  lemma {:induction false} SequenceListed(rec: seq<TxRecord>, i: nat)
    requires i < |rec| && rec[i].sequence.Some?
    ensures rec[i].origin in LastSequences(rec)
  {
    var n := |rec| - 1;
    if i < n {
      SequenceListed(rec[..n], i);
    }
  }

  /** A later transaction of the same origin has been reported to the client. */
  ghost predicate Overtaken(told: seq<TxRecord>, i: nat)
    requires i < |told|
  {
    exists j :: i < j < |told| && told[j].origin == told[i].origin && told[j].sequence.Some?
  }

  /** Every durable transaction has been reported to the client, or a later one of its origin has. */
  ghost predicate AllReported(told: seq<TxRecord>, durable: nat)
    requires durable <= |told|
  {
    forall i :: 0 <= i < durable && told[i].sequence.None? ==> Overtaken(told, i)
  }

  lemma LastTold(rec: seq<TxRecord>, told: seq<TxRecord>, i: nat) returns (j: nat)
    requires IsTold(told, rec) && Increasing(rec) && i < |rec| && rec[i].sequence.Some?
    requires rec[i].origin in LastSequences(told)
    ensures j < |rec| && told[j] == rec[j] == TxRecord(rec[i].origin, Some(LastSequences(told)[rec[i].origin]))
    ensures rec[i].sequence.value <= LastSequences(told)[rec[i].origin] <==> i <= j
    ensures forall k :: j < k < |told| && told[k].sequence.Some? ==> told[k].origin != rec[i].origin
  {
    hide LastSequences;
    j := LastSequencesAt(told, rec[i].origin);
  }

  lemma ReportedBehind(rec: seq<TxRecord>, told: seq<TxRecord>, n: nat)
    requires IsTold(told, rec) && Increasing(rec) && n <= |rec| && AllReported(told, n)
    ensures Behind(LastSequences(rec[..n]), LastSequences(told))
  {
    hide LastSequences;
    forall o | o in LastSequences(rec[..n])
      ensures o in LastSequences(told) && LastSequences(rec[..n])[o] <= LastSequences(told)[o]
    {
      var i := LastSequencesAt(rec[..n], o);
      assert rec[..n][i] == rec[i];
      var k := i;
      if told[i].sequence.None? {
        k :| i < k < |told| && told[k].origin == told[i].origin && told[k].sequence.Some?;
      }
      SequenceListed(told, k);
      var j := LastTold(rec, told, i);
    }
  }

  lemma BehindReported(rec: seq<TxRecord>, told: seq<TxRecord>, n: nat)
    requires IsTold(told, rec) && Increasing(rec) && n <= |rec| && forall i :: 0 <= i < n ==> rec[i].sequence.Some?
    requires Behind(LastSequences(rec[..n]), LastSequences(told))
    ensures AllReported(told, n)
  {
    hide LastSequences;
    forall i | 0 <= i < n && told[i].sequence.None? ensures Overtaken(told, i) {
      var o := rec[i].origin;
      SequenceListed(rec[..n], i);
      var d := LastSequencesAt(rec[..n], o);
      assert rec[..n][d] == rec[d] && rec[..n][i] == rec[i];
      var j := LastTold(rec, told, d);
      assert i <= d <= j && i != j;
    }
  }

  lemma GoneComplete(m: Memory, h: History)
    requires MemInv(m, h)
    ensures |m.txs| <= |h.txs| && forall i :: 0 <= i < |h.txs| - |m.txs| ==> h.txs[i].sequence.Some?
  {
    hide MemInv;
    InvRecords(m, h);
    hide TxsMatch;
    TxsFit(m.txs, h.txs);
  }

  /** With increasing sequence numbers, the durable numbers are behind the memory numbers if and only if
      every durable transaction was reported in memory, or a later one of its origin was. Only a
      transaction whose last message failed is not. */
  lemma DurableBehindMemory(s: State)
    requires Inv(s) && Increasing(s.h.txs)
    ensures |s.m.txs| <= |s.h.txs| == |s.h.told|
    ensures Behind(s.m.durable, s.m.memory) <==> AllReported(s.h.told, |s.h.txs| - |s.m.txs|)
    ensures s.h.intact ==> Behind(s.m.durable, s.m.memory)
  {
    hide Inv, MemInv, LastSequences, Behind, Overtaken, Increasing;
    InvMem(s);
    DurableMatches(s.m, s.h);
    GoneComplete(s.m, s.h);
    var n := |s.h.txs| - |s.m.txs|;
    if AllReported(s.h.told, n) {
      ReportedBehind(s.h.txs, s.h.told, n);
    }
    if Behind(s.m.durable, s.m.memory) {
      BehindReported(s.h.txs, s.h.told, n);
    }
  }

  lemma EnqueueTxs(m: Memory, h: History, msg: Message)
    requires Shaped(msg.schema, msg.rows)
    ensures var accepted := TxOutcome(m, msg) == Accepted;
      && EnqueueMem(m, msg).txs == (if accepted then JoinTx(m, msg).txs else m.txs)
      && EnqueueHistory(m, h, msg).txs == (if accepted then RecordTx(h.txs, HasOpenTx(m), JoinedTx(m, msg)) else h.txs)
  {
    hide Squash.SquashRows, SquashPanics, JoinTx, JoinedTx, ToldTx, TxOutcome, RecordTx, PushItem, HasOpenTx, Shaped,
      LogAfter;
  }

  lemma EnqueueGone(m: Memory, h: History, msg: Message)
    requires TxsMatch(m.txs, h.txs) && OnlyLastOpen(m.txs, h.txs) && m.nextTx == |h.txs| && Shaped(msg.schema, msg.rows)
    ensures var m', h' := EnqueueMem(m, msg), EnqueueHistory(m, h, msg);
      |m'.txs| <= |h'.txs| && |h'.txs| - |m'.txs| == |h.txs| - |m.txs|
      && h'.txs[..|h.txs| - |m.txs|] == h.txs[..|h.txs| - |m.txs|]
  {
    hide *;
    EnqueueTxs(m, h, msg);
    TxsFit(m.txs, h.txs);
    if TxOutcome(m, msg) == Accepted {
      JoinTxs(m, h.txs, msg);
      JoinPrefix(m, h.txs, msg);
      TxsFit(JoinTx(m, msg).txs, RecordTx(h.txs, HasOpenTx(m), JoinedTx(m, msg)));
    }
  }

  lemma CommitGone(m: Memory, url: string)
    requires EntryOf(m.syncs, url) < |m.syncs|
    ensures |CommitMem(m, url).txs| <= |m.txs|
  {
    hide ReleaseTx, DurablePrefix, AddSequences;
  }

  /** How the records of durable transactions change in a step: not at all, though more may follow. */
  lemma GonePrefix(s: State, step: Step)
    requires Inv(s) && Enabled(s, step) && step != Restart
    ensures var s' := Next(s, step);
      |s.m.txs| <= |s.h.txs| && |s'.m.txs| <= |s'.h.txs| &&
      var gone, gone' := |s.h.txs| - |s.m.txs|, |s'.h.txs| - |s'.m.txs|;
      gone <= gone' && s'.h.txs[..gone] == s.h.txs[..gone]
  {
    hide MemInv, TableStore, ApplyBag, Kept, NewCommit, Shaped, Valid, Names, EnqueueMem, EnqueueHistory,
      CommitMem, TxsMatch, OnlyLastOpen;
    InvRecords(s.m, s.h);
    TxsFit(s.m.txs, s.h.txs);
    match step {
      case Enqueue(msg) => EnqueueGone(s.m, s.h, msg);
      case Create(_, _) =>
      case Commit(url) => CommitGone(s.m, url);
      case SkipAll(url) =>
    }
  }

  /** Between restarts, the durable sequence number of an origin never decreases. */
  lemma DurableMonotone(s: State, step: Step)
    requires Inv(s) && Enabled(s, step) && step != Restart && Increasing(Next(s, step).h.txs)
    ensures Behind(s.m.durable, Next(s, step).m.durable)
  {
    hide Inv, MemInv, Next, Enabled, LastSequences, Behind;
    var s' := Next(s, step);
    GonePrefix(s, step);
    NextInv(s, step);
    InvMem(s);
    InvMem(s');
    DurableMatches(s.m, s.h);
    DurableMatches(s'.m, s'.h);
    var gone, gone' := |s.h.txs| - |s.m.txs|, |s'.h.txs| - |s'.m.txs|;
    var rec := s'.h.txs[..gone'];
    assert rec[..gone] == s.h.txs[..gone];
    BehindLonger(rec, gone);
  }

  lemma BehindBehind(d: map<string, nat>, e: map<string, nat>, f: map<string, nat>)
    requires Behind(d, e) && Behind(e, f)
    ensures Behind(d, f)
  {
  }

  /** Over any stretch of a run without a restart, the durable sequence numbers only grow. */
  lemma {:induction false} DurableOnlyGrows(run: seq<State>, steps: seq<Step>, i: nat, j: nat)
    requires IsRun(run, steps) && i <= j < |run|
    requires forall k :: i <= k < j ==> steps[k] != Restart
    requires forall k :: i < k <= j ==> Increasing(run[k].h.txs)
    ensures Behind(run[i].m.durable, run[j].m.durable)
  {
    hide Initial, Inv, Next, Enabled, Increasing;
    if i < j {
      DurableOnlyGrows(run, steps, i, j - 1);
      RunInv(run, steps, j - 1);
      assert run[j - 1 + 1] == Next(run[j - 1], steps[j - 1]);
      DurableMonotone(run[j - 1], steps[j - 1]);
      BehindBehind(run[i].m.durable, run[j - 1].m.durable, run[j].m.durable);
    }
  }

  // ---------------------------------------------------------------------------------------------
  // A commit that empties the queue
  // ---------------------------------------------------------------------------------------------

  lemma NoPending(m: Memory, h: History, url: string)
    requires MemInv(m, h) && m.syncs == []
    ensures DoneOf(h, url) == |LogOf(h, url)|
  {
    PendingLength(m, h, url);
  }

  /** With nothing queued and nothing stuck, complete transactions wait for no table. */
  lemma NoLocations(m: Memory, h: History, i: nat)
    requires MemInv(m, h) && !IsStuck(m.txs, h) && m.syncs == [] && i < |m.txs| && m.txs[i].sequence.Some?
    ensures m.txs[i].locations == {}
  {
    hide MemInv;
    forall url ensures url !in m.txs[i].locations {
      NoPending(m, h, url);
      assert !WaitsFor(m.txs[i].id, LogOf(h, url), DoneOf(h, url));
      assert !StuckAt(m.txs[i], url, h);
    }
  }

  /** The first transaction left by a commit is not durable. */
  lemma CommitStops(m: Memory, url: string)
    requires EntryOf(m.syncs, url) < |m.syncs|
    ensures CommitMem(m, url).txs != [] ==> !IsDurable(CommitMem(m, url).txs[0])
  {
    hide ReleaseTx, AddSequences;
  }

  /** At most one transaction is in memory, and it is not complete. */
  ghost predicate AtMostOpen(m: Memory) {
    |m.txs| <= 1 && (|m.txs| == 1 ==> m.txs[0].sequence.None?)
  }

  lemma DrainedOpen(m: Memory, h: History)
    requires MemInv(m, h) && m.syncs == [] && (m.txs != [] ==> !IsDurable(m.txs[0]))
    ensures AtMostOpen(m) <==> !IsStuck(m.txs, h)
  {
    hide MemInv, TxsMatch, OnlyLastOpen, StuckAt;
    InvRecords(m, h);
    if !IsStuck(m.txs, h) && m.txs != [] {
      if m.txs[0].sequence.Some? {
        NoLocations(m, h, 0);
      }
      LastOpen(m.txs, h.txs);
    }
    if i, url :| 0 <= i < |m.txs| && StuckAt(m.txs[i], url, h) {
      StuckComplete(m.txs[i], url, h);
    }
  }

  lemma StuckComplete(tx: Transaction, url: string, h: History)
    requires StuckAt(tx, url, h)
    ensures tx.sequence.Some?
  {
  }

  /** With at most an open transaction in memory, every complete one is durable. */
  lemma OpenDurable(m: Memory, h: History)
    requires MemInv(m, h) && AtMostOpen(m)
    ensures m.durable == LastSequences(h.txs) && (h.intact ==> m.durable == m.memory)
  {
    hide MemInv, TxsMatch, OnlyLastOpen, LastSequences, IsTold;
    InvRecords(m, h);
    DurableMatches(m, h);
    if m.txs != [] {
      LastOpen(m.txs, h.txs);
      var n := |h.txs| - 1;
      assert h.txs == h.txs[..n] + [h.txs[n]];
      LastSequencesSnoc(h.txs[..n], h.txs[n]);
    } else {
      assert h.txs[..|h.txs|] == h.txs;
    }
  }

  /** Without a failed message, a transaction is stuck exactly when some queue was skipped whole. */
  lemma StuckWhenSkipped(m: Memory, h: History)
    requires MemInv(m, h) && h.intact
    ensures IsStuck(m.txs, h) <==> h.skipped
  {
    hide TableInv, TxsMatch, OnlyLastOpen, LastSequences, QueueShape, IsTold, WaitsFor;
  }

  lemma SkippedStuck(m: Memory, h: History)
    requires MemInv(m, h) && h.skipped
    ensures !AtMostOpen(m)
  {
    hide TableInv, TxsMatch, OnlyLastOpen, LastSequences, QueueShape, LocationsExact, IsTold, WaitsFor;
    var i, url :| 0 <= i < |m.txs| && StuckAt(m.txs[i], url, h);
  }

  /** A transaction that is stuck after a commit was so before it, and the other way round. */
  lemma CommitStuck(m: Memory, h: History, url: string, h': History)
    requires MemInv(m, h) && EntryOf(m.syncs, url) < |m.syncs| && IsDone(h, h', url)
    ensures IsStuck(CommitMem(m, url).txs, h') <==> IsStuck(m.txs, h)
  {
    hide MemInv, IsStuck, ReleaseTx, DurablePrefix, AddSequences, EntryOf;
    var e := EntryOf(m.syncs, url);
    var txs := ReleaseTxs(m.txs, url, m.syncs[e].items);
    ReleasedQueue(m, h, e);
    DoneLog(h, h', url);
    if IsStuck(m.txs, h) {
      StuckReleased(m.txs, h, url, m.syncs[e].items, h');
      StuckAdvanced(txs, h');
    }
    StuckBefore(m.txs, h, url, m.syncs[e].items, h', DurablePrefix(txs));
  }

  lemma DoneLog(h: History, h': History, url: string)
    requires IsDone(h, h', url)
    ensures h'.log == h.log && h'.done == h.done[url := |LogOf(h, url)|]
  {
  }

  lemma StuckBefore(txs: seq<Transaction>, h: History, url: string, items: seq<DataSyncItem>, h': History, n: nat)
    requires DoneOf(h, url) <= |LogOf(h, url)| && items == ItemsOf(LogOf(h, url))[DoneOf(h, url)..]
    requires h'.log == h.log && h'.done == h.done[url := |LogOf(h, url)|] && n <= |txs|
    ensures IsStuck(ReleaseTxs(txs, url, items)[n..], h') ==> IsStuck(txs, h)
  {
    var txs' := ReleaseTxs(txs, url, items);
    if i, u :| 0 <= i < |txs'[n..]| && StuckAt(txs'[n..][i], u, h') {
      var tx := txs[n + i];
      assert txs'[n..][i] == ReleaseTx(tx, url, items);
      if u == url {
        forall j | DoneOf(h, url) <= j < |LogOf(h, url)| ensures LogOf(h, url)[j].item.txId != tx.id {
          assert items[j - DoneOf(h, url)].txId == LogOf(h, url)[j].item.txId;
        }
      }
      assert StuckAt(txs[n + i], u, h);
    }
  }

  /** A commit that leaves nothing queued leaves at most an open transaction if and only if no complete
      transaction was waiting for a table that has none of its messages queued, and then every complete
      transaction is durable. As long as no message failed, that is the case exactly if no queue was
      skipped whole, and then every origin's durable number is its memory number. */
  lemma DrainedIsDurable(s: State, url: string)
    requires Inv(s) && Enabled(s, Commit(url)) && Next(s, Commit(url)).m.syncs == []
    ensures var m' := Next(s, Commit(url)).m;
      && (AtMostOpen(m') <==> !IsStuck(s.m.txs, s.h))
      && (AtMostOpen(m') ==> m'.durable == LastSequences(s.h.txs))
      && (s.h.intact ==> (IsStuck(s.m.txs, s.h) <==> s.h.skipped) && (AtMostOpen(m') ==> m'.durable == m'.memory))
  {
    hide Inv, MemInv, CommitMem, ApplyBag, Kept, NewCommit, AtMostOpen, IsStuck, LastSequences, EntryOf, ShapedItems;
    var s' := Next(s, Commit(url));
    NextInv(s, Commit(url));
    InvMem(s);
    InvMem(s');
    CommitStops(s.m, url);
    CommitStuck(s.m, s.h, url, s'.h);
    DrainedOpen(s'.m, s'.h);
    if AtMostOpen(s'.m) {
      OpenDurable(s'.m, s'.h);
    }
    if s.h.intact {
      StuckWhenSkipped(s.m, s.h);
    }
  }

  /** Step `j` is before state `k`, with no restart in between. */
  ghost predicate IsSince(steps: seq<Step>, k: nat, j: nat) {
    j < k <= |steps| && forall i :: j < i < k ==> steps[i] != Restart
  }

  /** Some queue was skipped whole since the last restart. */
  ghost predicate SkippedSince(steps: seq<Step>, k: nat) {
    exists j: nat :: IsSince(steps, k, j) && steps[j].SkipAll?
  }

  /** Some message failed after its transaction was updated, since the last restart. */
  ghost predicate FailedSince(run: seq<State>, steps: seq<Step>, k: nat)
    requires IsRun(run, steps) && k < |run|
  {
    exists j: nat :: IsSince(steps, k, j) && Fails(run[j], steps[j])
  }

  ghost predicate Fails(s: State, step: Step)
    requires Enabled(s, step)
  {
    step.Enqueue? && EnqueueOutcome(s.m, step.msg) == SquashFailed
  }

  lemma SkippedNext(steps: seq<Step>, k: nat)
    requires k < |steps|
    ensures SkippedSince(steps, k + 1) <==> steps[k].SkipAll? || (SkippedSince(steps, k) && steps[k] != Restart)
  {
    SinceNext(steps, k);
    assert IsSince(steps, k + 1, k);
  }

  lemma SinceNext(steps: seq<Step>, k: nat)
    requires k < |steps|
    ensures forall j: nat :: IsSince(steps, k + 1, j) <==> j == k || (IsSince(steps, k, j) && steps[k] != Restart)
  {
    forall j: nat ensures IsSince(steps, k + 1, j) <==> j == k || (IsSince(steps, k, j) && steps[k] != Restart) {
      if IsSince(steps, k, j) && steps[k] != Restart {
        assert forall i :: j < i < k + 1 ==> steps[i] != Restart;
      }
    }
  }

  lemma FailedNext(run: seq<State>, steps: seq<Step>, k: nat)
    requires IsRun(run, steps) && k < |steps|
    ensures FailedSince(run, steps, k + 1)
      <==> Fails(run[k], steps[k]) || (FailedSince(run, steps, k) && steps[k] != Restart)
  {
    hide Next, Enabled, Fails, Initial;
    SinceNext(steps, k);
    assert IsSince(steps, k + 1, k);
  }

  lemma EnqueueFlags(m: Memory, h: History, msg: Message)
    requires Shaped(msg.schema, msg.rows)
    ensures var h' := EnqueueHistory(m, h, msg);
      h'.skipped == h.skipped && (!h'.intact <==> EnqueueOutcome(m, msg) == SquashFailed || !h.intact)
  {
    hide SquashPanics, JoinedTx, RecordTx, ToldTx, Shaped, Squash.SquashRows, LogAfter, HasOpenTx, TxOutcome;
    assert TxOutcome(m, msg) != SquashFailed by { JoiningNeverFails(m, msg); }
  }

  lemma JoiningNeverFails(m: Memory, msg: Message)
    ensures TxOutcome(m, msg) != SquashFailed
  {
  }

  lemma FlagsNext(s: State, step: Step)
    requires Enabled(s, step)
    ensures var h' := Next(s, step).h;
      && (h'.skipped <==> step.SkipAll? || (s.h.skipped && step != Restart))
      && (!h'.intact <==> Fails(s, step) || (!s.h.intact && step != Restart))
  {
    hide ApplyBag, Kept, NewCommit, CommitMem, EnqueueMem, EnqueueHistory, EnqueueOutcome, RemoveEntry, EntryOf, Shaped,
      Valid, Names, ShapedItems;
    if step.Enqueue? {
      EnqueueFlags(s.m, s.h, step.msg);
    }
  }

  lemma NoneSince(run: seq<State>, steps: seq<Step>)
    requires IsRun(run, steps)
    ensures !run[0].h.skipped && run[0].h.intact && !SkippedSince(steps, 0) && !FailedSince(run, steps, 0)
  {
    hide Next, Enabled, Fails;
  }

  lemma {:induction false} FlagsMean(run: seq<State>, steps: seq<Step>, k: nat)
    requires IsRun(run, steps) && k < |run|
    ensures run[k].h.skipped <==> SkippedSince(steps, k)
    ensures !run[k].h.intact <==> FailedSince(run, steps, k)
  {
    hide Next, Enabled, Fails, SkippedSince, FailedSince, Initial;
    if k == 0 {
      NoneSince(run, steps);
    } else {
      FlagsMean(run, steps, k - 1);
      assert Enabled(run[k - 1], steps[k - 1]) && run[k - 1 + 1] == Next(run[k - 1], steps[k - 1]);
      FlagsNext(run[k - 1], steps[k - 1]);
      SkippedNext(steps, k - 1);
      FailedNext(run, steps, k - 1);
    }
  }

  /** Over runs without a failed message since the last restart: the durable numbers are behind the
      memory numbers. */
  lemma RunBehind(run: seq<State>, steps: seq<Step>, k: nat)
    requires IsRun(run, steps) && k < |run| && !FailedSince(run, steps, k) && Increasing(run[k].h.txs)
    ensures Behind(run[k].m.durable, run[k].m.memory)
  {
    hide IsRun, Inv, FailedSince, Behind, Increasing, AllReported;
    FlagsMean(run, steps, k);
    RunInv(run, steps, k);
    DurableBehindMemory(run[k]);
  }

  /** Over runs: a commit that leaves nothing queued leaves at most an open transaction if and only if no
      complete one was stuck. Without a failed message since the last restart that is so if and only if no
      queue was skipped whole since then, and then every origin's durable number is its memory number. */
  lemma DrainedExactly(run: seq<State>, steps: seq<Step>, k: nat, url: string)
    requires IsRun(run, steps) && k < |steps| && steps[k] == Commit(url) && run[k + 1].m.syncs == []
    ensures AtMostOpen(run[k + 1].m) <==> !IsStuck(run[k].m.txs, run[k].h)
    ensures AtMostOpen(run[k + 1].m) ==> run[k + 1].m.durable == LastSequences(run[k].h.txs)
    ensures !FailedSince(run, steps, k) ==>
      && (AtMostOpen(run[k + 1].m) <==> !SkippedSince(steps, k))
      && (!SkippedSince(steps, k) ==> run[k + 1].m.durable == run[k + 1].m.memory)
  {
    hide Inv, FailedSince, SkippedSince, AtMostOpen, Next, Enabled, Initial, IsStuck, LastSequences;
    FlagsMean(run, steps, k);
    RunInv(run, steps, k);
    assert Enabled(run[k], steps[k]) && run[k + 1] == Next(run[k], steps[k]);
    DrainedIsDurable(run[k], url);
  }

  lemma LastOpen(txs: seq<Transaction>, rec: seq<TxRecord>)
    requires TxsMatch(txs, rec) && OnlyLastOpen(txs, rec) && txs != [] && txs[0].sequence.None?
    ensures |txs| == 1 && rec[|rec| - 1].sequence.None?
  {
  }
}

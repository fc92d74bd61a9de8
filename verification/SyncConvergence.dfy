/** The committed tables converge to the changes as received, replayed one row at a time. */
module SyncConvergence {
  import opened Tables
  import opened Schema
  import opened Prune
  import opened SyncState
  import opened SyncInvariant
  import opened SyncStore
  import Squash

  ghost predicate AllSquashed(log: seq<LogItem>) {
    forall j :: 0 <= j < |log| ==> IsSquashed(log[j])
  }

  /** All raw change rows of the logged messages, in arrival order. */
  ghost function RawChanges(log: seq<LogItem>): seq<Change>
    requires AllSquashed(log)
  {
    if log == [] then []
    else
      var n := |log| - 1;
      assert IsSquashed(log[n]);
      RawChanges(log[..n]) + DecodeAll(log[n].item.schema, log[n].raw)
  }

  /** Squashing keeps the meaning of every message: see `SquashLimits` for why these are the only schemas. */
  ghost predicate Squashables(log: seq<LogItem>) {
    && AllSquashed(log)
    && forall j :: 0 <= j < |log| ==> Squash.Squashable(log[j].item.schema)
  }

  ghost predicate AllPk(t: Table) {
    forall k :: k in t ==> k.Pk?
  }

  lemma SquashedShaped(l: LogItem)
    requires IsSquashed(l)
    ensures Shaped(l.item.schema, l.item.batch) && Shaped(l.item.schema, l.raw)
  {
  }

  lemma LogShaped(log: seq<LogItem>)
    requires AllSquashed(log)
    ensures ShapedItems(ItemsOf(log))
  {
    hide IsSquashed, Shaped;
    forall j | 0 <= j < |log| ensures Shaped(ItemsOf(log)[j].schema, ItemsOf(log)[j].batch) {
      SquashedShaped(log[j]);
    }
  }

  /** One more message: the join with its squashed rows represents the replay of its raw rows. */
  lemma MessageConverges(cols: set<string>, rows: seq<Row>, t: Table, l: LogItem)
    requires IsSquashed(l) && Squash.Squashable(l.item.schema) && AllPk(t) && Represents(multiset(rows), t)
    requires StreamOk(cols, t, DecodeAll(l.item.schema, l.raw))
    ensures Shaped(l.item.schema, l.item.batch)
    ensures Represents(multiset(ApplySync(cols, rows, Changes(l.item))),
                       Replay(cols, t, DecodeAll(l.item.schema, l.raw)))
    ensures AllPk(Replay(cols, t, DecodeAll(l.item.schema, l.raw)))
  {
    hide Represents, Replay, StreamOk, BatchOk, ApplySync, Squash.SquashRows, DistinctColumns, Squash.Squashable,
      Shaped, DecodeAll, Names;
    SquashedShaped(l);
    Squash.MessagePreserved(l.item.schema, cols, t, l.raw);
  }

  lemma SquashedPart(log: seq<LogItem>)
    requires log != [] && AllSquashed(log)
    ensures AllSquashed(log[..|log| - 1]) && IsSquashed(log[|log| - 1])
  {
    hide IsSquashed;
  }

  lemma SquashablePart(log: seq<LogItem>, i: nat, j: nat)
    requires i <= j <= |log| && Squashables(log)
    ensures Squashables(log[i..j])
  {
    hide IsSquashed, Squash.Squashable;
  }

  lemma RawSnoc(log: seq<LogItem>, l: LogItem)
    requires AllSquashed(log) && IsSquashed(l)
    ensures Shaped(l.item.schema, l.raw) && AllSquashed(log + [l])
    ensures RawChanges(log + [l]) == RawChanges(log) + DecodeAll(l.item.schema, l.raw)
  {
    hide DecodeAll;
    assert (log + [l])[..|log|] == log;
  }

  lemma {:induction false} RawSplit(a: seq<LogItem>, b: seq<LogItem>)
    requires AllSquashed(a) && AllSquashed(b)
    ensures AllSquashed(a + b) && RawChanges(a + b) == RawChanges(a) + RawChanges(b)
  {
    hide *;
    if b == [] {
      assert a + b == a;
      NoRaw();
    } else {
      var n := |b| - 1;
      var init, l := b[..n], b[n];
      SquashedPart(b);
      RawSplit(a, init);
      RawSnoc(a + init, l);
      RawSnoc(init, l);
      assert a + b == a + init + [l] && init + [l] == b;
    }
  }

  lemma NoRaw()
    ensures RawChanges([]) == [] && ItemsOf([]) == [] && ShapedItems([]) && AllChanges([]) == []
  {
  }

  lemma NoChanges(cols: set<string>, rows: seq<Row>, t: Table)
    ensures ApplyAll(cols, rows, []) == rows && Replay(cols, t, []) == t
  {
  }

  lemma {:induction false} LogConverges(cols: set<string>, rows: seq<Row>, t: Table, log: seq<LogItem>)
    requires Squashables(log) && AllPk(t) && Represents(multiset(rows), t) && StreamOk(cols, t, RawChanges(log))
    ensures ShapedItems(ItemsOf(log))
    ensures Represents(multiset(ApplyAll(cols, rows, AllChanges(ItemsOf(log)))), Replay(cols, t, RawChanges(log)))
    ensures AllPk(Replay(cols, t, RawChanges(log)))
    decreases |log|
  {
    hide *;
    if log == [] {
      NoRaw();
      NoChanges(cols, rows, t);
    } else {
      var n := |log| - 1;
      var init, l := log[..n], log[n];
      assert log == init + [l];
      SplitSquashables(init, [l]);
      LogShaped(log);
      LastSquashable(log);
      RawSnoc(init, l);
      ReplayConcat(cols, t, RawChanges(init), DecodeAll(l.item.schema, l.raw));
      LogConverges(cols, rows, t, init);
      MessageConverges(cols, ApplyAll(cols, rows, AllChanges(ItemsOf(init))), Replay(cols, t, RawChanges(init)), l);
      ApplySnoc(cols, rows, init, l);
    }
  }

  lemma LastSquashable(log: seq<LogItem>)
    requires Squashables(log) && log != []
    ensures IsSquashed(log[|log| - 1]) && Squash.Squashable(log[|log| - 1].item.schema)
  {
  }

  lemma ApplySnoc(cols: set<string>, rows: seq<Row>, init: seq<LogItem>, l: LogItem)
    requires ShapedItems(ItemsOf(init)) && Shaped(l.item.schema, l.item.batch)
    ensures ShapedItems(ItemsOf(init + [l]))
    ensures ApplyAll(cols, rows, AllChanges(ItemsOf(init + [l])))
         == ApplySync(cols, ApplyAll(cols, rows, AllChanges(ItemsOf(init))), Changes(l.item))
  {
    hide Shaped, Changes, ApplySync;
    var all := AllChanges(ItemsOf(init + [l]));
    assert all == AllChanges(ItemsOf(init)) + [Changes(l.item)];
    assert all[..|init|] == AllChanges(ItemsOf(init));
  }

  lemma ConvergesBag(cols: set<string>, bag: multiset<Row>, t: Table, log: seq<LogItem>)
    requires Squashables(log) && AllPk(t) && Represents(bag, t) && StreamOk(cols, t, RawChanges(log))
    ensures ShapedItems(ItemsOf(log))
    ensures Represents(ApplyBag(cols, bag, AllChanges(ItemsOf(log))), Replay(cols, t, RawChanges(log)))
  {
    hide Squashables, AllPk, Represents, StreamOk, ApplyAll, Replay, RawChanges, ShapedItems;
    LogConverges(cols, Listed(bag), t, log);
  }

  /** Applying a first part of the log, and then the rest to the result. */
  lemma PartsConverge(cols: set<string>, bag: multiset<Row>, t: Table, a: seq<LogItem>, b: seq<LogItem>)
    requires Squashables(a + b) && AllPk(t) && Represents(bag, t) && StreamOk(cols, t, RawChanges(a + b))
    ensures AllSquashed(a) && ShapedItems(ItemsOf(a)) && ShapedItems(ItemsOf(b))
    ensures var mid := ApplyBag(cols, bag, AllChanges(ItemsOf(a)));
      && Represents(mid, Replay(cols, t, RawChanges(a)))
      && Represents(ApplyBag(cols, mid, AllChanges(ItemsOf(b))), Replay(cols, t, RawChanges(a + b)))
  {
    hide *;
    SplitSquashables(a, b);
    RawSplit(a, b);
    ReplayConcat(cols, t, RawChanges(a), RawChanges(b));
    ConvergesBag(cols, bag, t, a);
    ConvergesBag(cols, bag, t, a + b);
    LogShaped(b);
    assert ItemsOf(a + b) == ItemsOf(a) + ItemsOf(b);
    ChangesConcat(ItemsOf(a), ItemsOf(b));
    ApplyBagConcat(cols, bag, AllChanges(ItemsOf(a)), AllChanges(ItemsOf(b)));
  }

  lemma SplitSquashables(a: seq<LogItem>, b: seq<LogItem>)
    requires Squashables(a + b)
    ensures Squashables(a) && AllSquashed(a) && AllSquashed(b) && AllSquashed(a + b)
  {
    hide IsSquashed, Squash.Squashable;
    assert a == (a + b)[0..|a|] && b == (a + b)[|a|..|a + b|];
    SquashablePart(a + b, 0, |a|);
    SquashablePart(a + b, |a|, |a + b|);
  }

  lemma StoredItems(s: State, url: string)
    requires Inv(s) && url in s.tables && url in s.h.base && NoReplay(s.h.txs, s.h.base[url].commit)
    ensures var log, done := LogOf(s.h, url), DoneOf(s.h, url);
      && done <= |log| && s.tables[url].cols == s.h.base[url].cols
      && ShapedItems(ItemsOf(log[..done]))
      && s.tables[url].bag == ApplyBag(s.tables[url].cols, s.h.base[url].bag, AllChanges(ItemsOf(log[..done])))
      && PendingIn(s.m.syncs, url) == ItemsOf(log[done..])
  {
    hide MemInv, ApplyBag, CommitFrom, CommitEnds, NoReplay, ShapedItems;
    var log, done := LogOf(s.h, url), DoneOf(s.h, url);
    assert TableStore(s, url);
    PendingLength(s.m, s.h, url);
    assert ItemsOf(log[..done]) == ItemsOf(log)[..done];
    assert ItemsOf(log[done..]) == ItemsOf(log)[done..];
  }

  /** Convergence: in every reachable state without replays, the committed table is the replay of the
      raw rows of the messages done, and with the pending items applied it is the replay of every raw
      row accepted for it, one at a time in arrival order. */
  lemma Convergence(s: State, url: string, t0: Table)
    requires Inv(s) && url in s.tables && url in s.h.base
    requires NoReplay(s.h.txs, s.h.base[url].commit)
    requires AllPk(t0) && Represents(s.h.base[url].bag, t0) && Squashables(LogOf(s.h, url))
    requires StreamOk(s.tables[url].cols, t0, RawChanges(LogOf(s.h, url)))
    ensures var log, done, cols := LogOf(s.h, url), DoneOf(s.h, url), s.tables[url].cols;
      && done <= |log| && AllSquashed(log[..done])
      && Represents(s.tables[url].bag, Replay(cols, t0, RawChanges(log[..done])))
      && ShapedItems(PendingIn(s.m.syncs, url))
      && Represents(ApplyBag(cols, s.tables[url].bag, AllChanges(PendingIn(s.m.syncs, url))),
                    Replay(cols, t0, RawChanges(log)))
  {
    hide Inv, Represents, Replay, StreamOk, ApplyBag, NoReplay, AllPk, Squashables, AllSquashed, RawChanges,
      ShapedItems, AllChanges, PendingIn, LogOf, DoneOf;
    var log, done, cols, bag := LogOf(s.h, url), DoneOf(s.h, url), s.tables[url].cols, s.h.base[url].bag;
    StoredItems(s, url);
    assert log == log[..done] + log[done..];
    PartsConverge(cols, bag, t0, log[..done], log[done..]);
  }

  /** Convergence in every state of every run. */
  lemma RunConverges(run: seq<State>, steps: seq<Step>, k: nat, url: string, t0: Table)
    requires IsRun(run, steps) && k < |run| && url in run[k].tables && url in run[k].h.base
    requires NoReplay(run[k].h.txs, run[k].h.base[url].commit)
    requires AllPk(t0) && Represents(run[k].h.base[url].bag, t0) && Squashables(LogOf(run[k].h, url))
    requires StreamOk(run[k].tables[url].cols, t0, RawChanges(LogOf(run[k].h, url)))
    ensures var s := run[k];
      var log, done, cols := LogOf(s.h, url), DoneOf(s.h, url), s.tables[url].cols;
      && done <= |log| && AllSquashed(log[..done])
      && Represents(s.tables[url].bag, Replay(cols, t0, RawChanges(log[..done])))
      && ShapedItems(PendingIn(s.m.syncs, url))
      && Represents(ApplyBag(cols, s.tables[url].bag, AllChanges(PendingIn(s.m.syncs, url))),
                    Replay(cols, t0, RawChanges(log)))
  {
    hide *;
    RunInv(run, steps, k);
    Convergence(run[k], url, t0);
  }
}

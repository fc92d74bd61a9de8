/** Change chains: consecutive changes to one row, linked by "new key of the earlier = old key of the
    later", collapse to a single change from the first old key to the last new key. */
module Chains {
  import opened Tables

  /** `live` points from the current key of every chain that still has a row to that chain. */
  datatype ChainState = ChainState(chains: seq<Change>, temp: set<nat>, live: map<Key, nat>)

  predicate LiveInRange(st: ChainState) {
    forall k :: k in st.live ==> st.live[k] < |st.chains|
  }

  function Compose(d: Change, c: Change): Change {
    Change(d.oldPk, c.newPk, d.write + c.write)
  }

  function AddChange(st: ChainState, c: Change): (st': ChainState)
    requires LiveInRange(st)
    ensures LiveInRange(st')
  {
    if c.oldPk in st.live then
      var id := st.live[c.oldPk];
      var d := st.chains[id];
      ChainState(
        st.chains[id := Compose(d, c)],
        if c.newPk.NoPk? && d.oldPk.NoPk? then st.temp + {id} else st.temp,
        if c.newPk.NoPk? then st.live - {c.oldPk} else (st.live - {c.oldPk})[c.newPk := id])
    else
      ChainState(
        st.chains + [c],
        st.temp,
        if c.newPk.NoPk? then st.live else st.live[c.newPk := |st.chains|])
  }

  function Fold(cs: seq<Change>): (st: ChainState)
    ensures LiveInRange(st)
  {
    if cs == [] then ChainState([], {}, map[])
    else AddChange(Fold(cs[..|cs| - 1]), cs[|cs| - 1])
  }

  lemma FoldNone()
    ensures Fold([]) == ChainState([], {}, map[])
  {
  }

  lemma FoldNext(cs: seq<Change>, n: nat)
    requires n < |cs|
    ensures Fold(cs[..n + 1]) == AddChange(Fold(cs[..n]), cs[n])
  {
    hide AddChange;
    assert cs[..n + 1][..n] == cs[..n];
  }

  /** The chains that are not temporary, in the order in which they started. */
  function Survivors(chains: seq<Change>, temp: set<nat>): seq<Change> {
    if chains == [] then []
    else
      var n := |chains| - 1;
      Survivors(chains[..n], temp) + if n in temp then [] else [chains[n]]
  }

  lemma NoSurvivors(temp: set<nat>)
    ensures Survivors([], temp) == []
  {
  }

  lemma SurvivorsNext(chains: seq<Change>, temp: set<nat>)
    requires chains != []
    ensures var n := |chains| - 1;
      Survivors(chains, temp) == Survivors(chains[..n], temp) + if n in temp then [] else [chains[n]]
  {
  }

  function Squashed(cs: seq<Change>): seq<Change> {
    Survivors(Fold(cs).chains, Fold(cs).temp)
  }

  // ---------------------------------------------------------------------------------------------
  // Meaning: the squashed batch, applied at once, equals the changes applied one by one
  // ---------------------------------------------------------------------------------------------

  /** Every live key points to the chain that currently holds it, and every chain with a row is live. */
  ghost predicate LiveIsCurrent(st: ChainState) {
    && LiveInRange(st)
    && (forall k :: k in st.live ==> k.Pk? && st.chains[st.live[k]].newPk == k)
    && (forall j :: 0 <= j < |st.chains| && !st.chains[j].newPk.NoPk? ==>
          st.chains[j].newPk in st.live && st.live[st.chains[j].newPk] == j)
  }

  ghost predicate TempIsGone(st: ChainState) {
    && (forall j :: j in st.temp ==> j < |st.chains|)
    && (forall j :: 0 <= j < |st.chains| ==>
          (j in st.temp <==> st.chains[j].oldPk.NoPk? && st.chains[j].newPk.NoPk?))
  }

  /** Chains start at distinct rows of the original table, or at an insert. */
  ghost predicate Rooted(t: Table, roots: set<Key>, st: ChainState) {
    && (forall j :: 0 <= j < |st.chains| && !st.chains[j].oldPk.NoPk? ==> st.chains[j].oldPk in roots)
    && (forall k :: k in roots ==> k in t && exists j :: 0 <= j < |st.chains| && st.chains[j].oldPk == k)
    && (forall i, j :: 0 <= i < j < |st.chains| && !st.chains[i].oldPk.NoPk? ==>
          st.chains[i].oldPk != st.chains[j].oldPk)
  }

  /** The current table, seen through the chains: a live chain holds its composed effect on the
      original table, and every other row is an original one that no chain started at. */
  ghost predicate Tracks(cols: set<string>, t: Table, roots: set<Key>, cur: Table, st: ChainState)
    requires LiveInRange(st)
  {
    && (forall k :: k in cur <==> k in st.live || (k in t && k !in roots))
    && (forall k :: k in st.live ==> cur[k] == Effect(cols, t, st.chains[st.live[k]]))
    && (forall k :: k in t && k !in roots ==> k !in st.live && cur[k] == t[k])
  }

  ghost predicate Inv(cols: set<string>, t: Table, roots: set<Key>, cur: Table, st: ChainState) {
    && (forall k :: k in t ==> k.Pk?)
    && LiveIsCurrent(st) && TempIsGone(st) && Rooted(t, roots, st) && Tracks(cols, t, roots, cur, st)
  }

  lemma OverlayTwice(vals: Values, w1: Values, w2: Values)
    ensures Overlay(Overlay(vals, w1), w2) == Overlay(vals, w1 + w2)
  {
  }

  lemma ContinueLive(st: ChainState, c: Change)
    requires LiveIsCurrent(st) && c.oldPk in st.live
    requires !c.newPk.Mixed? && (c.newPk == c.oldPk || c.newPk !in st.live)
    ensures LiveIsCurrent(AddChange(st, c))
  {
    var id := st.live[c.oldPk];
    var st' := AddChange(st, c);
    assert forall j :: 0 <= j < |st.chains| && j != id ==> st'.chains[j] == st.chains[j];
    forall k | k in st'.live
      ensures k.Pk? && st'.chains[st'.live[k]].newPk == k
    {
      if k != c.newPk {
        assert k in st.live && k != c.oldPk;
      }
    }
    forall j | 0 <= j < |st'.chains| && !st'.chains[j].newPk.NoPk?
      ensures st'.chains[j].newPk in st'.live && st'.live[st'.chains[j].newPk] == j
    {
      if j != id {
        var k := st.chains[j].newPk;
        assert k in st.live && st.live[k] == j && k != c.oldPk && k != c.newPk;
      }
    }
  }

  lemma ContinueRoots(t: Table, roots: set<Key>, st: ChainState, c: Change)
    requires LiveIsCurrent(st) && TempIsGone(st) && Rooted(t, roots, st) && c.oldPk in st.live
    ensures TempIsGone(AddChange(st, c)) && Rooted(t, roots, AddChange(st, c))
  {
    var st' := AddChange(st, c);
    assert forall j :: 0 <= j < |st.chains| ==> st'.chains[j].oldPk == st.chains[j].oldPk;
    assert st.chains[st.live[c.oldPk]].newPk == c.oldPk;
    forall k | k in roots
      ensures exists j :: 0 <= j < |st'.chains| && st'.chains[j].oldPk == k
    {
      var j :| 0 <= j < |st.chains| && st.chains[j].oldPk == k;
      assert st'.chains[j].oldPk == k;
    }
  }

  lemma ContinueTracks(cols: set<string>, t: Table, roots: set<Key>, cur: Table, st: ChainState, c: Change)
    requires LiveIsCurrent(st) && Tracks(cols, t, roots, cur, st)
    requires StepOk(cur, c) && c.oldPk in st.live
    ensures Tracks(cols, t, roots, Step(cols, cur, c), AddChange(st, c))
  {
    var id := st.live[c.oldPk];
    var d := st.chains[id];
    var st' := AddChange(st, c);
    var cur' := Step(cols, cur, c);
    assert Effect(cols, t, Compose(d, c)) == Overlay(cur[c.oldPk], c.write) by {
      OverlayTwice(if d.oldPk in t then t[d.oldPk] else Nulls(cols), d.write, c.write);
    }
    forall k | k in st'.live
      ensures k in cur' && cur'[k] == Effect(cols, t, st'.chains[st'.live[k]])
    {
      if k != c.newPk {
        assert st.chains[st.live[k]].newPk == k && st.live[k] != id;
      }
    }
  }

  lemma StartLive(st: ChainState, c: Change)
    requires LiveIsCurrent(st) && TempIsGone(st) && c.oldPk !in st.live
    requires !(c.oldPk.NoPk? && c.newPk.NoPk?) && !c.newPk.Mixed? && c.newPk !in st.live
    ensures LiveIsCurrent(AddChange(st, c)) && TempIsGone(AddChange(st, c))
  {
  }

  lemma StartRoots(t: Table, roots: set<Key>, st: ChainState, c: Change)
    requires Rooted(t, roots, st) && LiveInRange(st) && c.oldPk !in st.live
    requires c.oldPk !in roots && (c.oldPk.NoPk? || c.oldPk in t)
    ensures Rooted(t, if c.oldPk.NoPk? then roots else roots + {c.oldPk}, AddChange(st, c))
  {
    var st' := AddChange(st, c);
    var n := |st.chains|;
    assert forall j :: 0 <= j < n ==> st'.chains[j] == st.chains[j];
    assert st'.chains[n] == c;
    forall k | k in roots
      ensures exists j :: 0 <= j < |st'.chains| && st'.chains[j].oldPk == k
    {
      var j :| 0 <= j < |st.chains| && st.chains[j].oldPk == k;
      assert st'.chains[j].oldPk == k;
    }
  }

  lemma StartEffect(cols: set<string>, t: Table, roots: set<Key>, cur: Table, st: ChainState, c: Change)
    requires (forall k :: k in t ==> k.Pk?) && LiveIsCurrent(st) && Tracks(cols, t, roots, cur, st)
    requires StepOk(cur, c) && c.oldPk !in st.live
    ensures Effect(cols, cur, c) == Effect(cols, t, c)
    ensures c.oldPk.NoPk? ==> c.oldPk !in cur
  {
  }

  lemma TracksWithoutRoot(cols: set<string>, t: Table, roots: set<Key>, cur: Table, st: ChainState, k: Key)
    requires LiveIsCurrent(st) && Tracks(cols, t, roots, cur, st)
    requires k in cur && k !in st.live
    ensures Tracks(cols, t, roots + {k}, cur - {k}, st)
  {
  }

  lemma TracksAppended(cols: set<string>, t: Table, roots: set<Key>, cur: Table, st: ChainState, c: Change)
    requires LiveInRange(st) && Tracks(cols, t, roots, cur, st)
    ensures Tracks(cols, t, roots, cur, ChainState(st.chains + [c], st.temp, st.live))
  {
  }

  lemma TracksUpsert(cols: set<string>, t: Table, roots: set<Key>, cur: Table, st: ChainState, c: Change)
    requires LiveInRange(st) && Tracks(cols, t, roots, cur, st) && c.newPk !in cur
    ensures Tracks(cols, t, roots, cur[c.newPk := Effect(cols, t, c)],
                   ChainState(st.chains + [c], st.temp, st.live[c.newPk := |st.chains|]))
  {
    TracksAppended(cols, t, roots, cur, st, c);
  }

  lemma StartTracks(cols: set<string>, t: Table, roots: set<Key>, cur: Table, st: ChainState, c: Change)
    requires (forall k :: k in t ==> k.Pk?) && LiveIsCurrent(st) && Tracks(cols, t, roots, cur, st)
    requires StepOk(cur, c) && c.oldPk !in st.live
    ensures Tracks(cols, t, if c.oldPk.NoPk? then roots else roots + {c.oldPk}, Step(cols, cur, c), AddChange(st, c))
  {
    StartEffect(cols, t, roots, cur, st, c);
    if !c.oldPk.NoPk? {
      TracksWithoutRoot(cols, t, roots, cur, st, c.oldPk);
    } else {
      assert cur - {c.oldPk} == cur;
    }
    var roots' := if c.oldPk.NoPk? then roots else roots + {c.oldPk};
    if c.newPk.NoPk? {
      TracksAppended(cols, t, roots', cur - {c.oldPk}, st, c);
    } else {
      TracksUpsert(cols, t, roots', cur - {c.oldPk}, st, c);
    }
  }

  lemma {:induction false} FoldTracks(cols: set<string>, t: Table, cs: seq<Change>) returns (roots: set<Key>)
    requires StreamOk(cols, t, cs) && forall k :: k in t ==> k.Pk?
    ensures Inv(cols, t, roots, Replay(cols, t, cs), Fold(cs))
  {
    if cs == [] {
      roots := {};
    } else {
      var n := |cs| - 1;
      roots := FoldTracks(cols, t, cs[..n]);
      var cur, st, c := Replay(cols, t, cs[..n]), Fold(cs[..n]), cs[n];
      if c.oldPk in st.live {
        ContinueLive(st, c);
        ContinueRoots(t, roots, st, c);
        ContinueTracks(cols, t, roots, cur, st, c);
      } else {
        StartLive(st, c);
        StartRoots(t, roots, st, c);
        StartTracks(cols, t, roots, cur, st, c);
        roots := if c.oldPk.NoPk? then roots else roots + {c.oldPk};
      }
    }
  }

  lemma {:induction false} SurvivorIsChain(chains: seq<Change>, temp: set<nat>, p: nat) returns (i: nat)
    requires p < |Survivors(chains, temp)|
    ensures i < |chains| && i !in temp && chains[i] == Survivors(chains, temp)[p]
  {
    var n := |chains| - 1;
    if p < |Survivors(chains[..n], temp)| {
      i := SurvivorIsChain(chains[..n], temp, p);
    } else {
      i := n;
    }
  }

  lemma {:induction false} SurvivorPair(chains: seq<Change>, temp: set<nat>, p: nat, q: nat) returns (i: nat, j: nat)
    requires p < q < |Survivors(chains, temp)|
    ensures i < j < |chains|
    ensures chains[i] == Survivors(chains, temp)[p] && chains[j] == Survivors(chains, temp)[q]
  {
    var n := |chains| - 1;
    if q < |Survivors(chains[..n], temp)| {
      i, j := SurvivorPair(chains[..n], temp, p, q);
    } else {
      i := SurvivorIsChain(chains[..n], temp, p);
      j := n;
    }
  }

  lemma {:induction false} ChainSurvives(chains: seq<Change>, temp: set<nat>, i: nat)
    requires i < |chains| && i !in temp
    ensures chains[i] in Survivors(chains, temp)
  {
    var n := |chains| - 1;
    if i < n {
      ChainSurvives(chains[..n], temp, i);
    }
  }

  lemma SurvivorsBatchOk(cols: set<string>, t: Table, roots: set<Key>, cur: Table, st: ChainState)
    requires Inv(cols, t, roots, cur, st)
    ensures BatchOk(t, Survivors(st.chains, st.temp))
  {
    var batch := Survivors(st.chains, st.temp);
    forall c | c in batch
      ensures !c.oldPk.Mixed? && !c.newPk.Mixed? && !(c.oldPk.NoPk? && c.newPk.NoPk?)
      ensures !c.oldPk.NoPk? ==> c.oldPk in t
      ensures !c.newPk.NoPk? && c.newPk in t ==> Vacated(batch, c.newPk)
    {
      var p :| 0 <= p < |batch| && batch[p] == c;
      var i := SurvivorIsChain(st.chains, st.temp, p);
      if !c.newPk.NoPk? && c.newPk in t {
        assert c.newPk in st.live;
        var j :| 0 <= j < |st.chains| && st.chains[j].oldPk == c.newPk;
        ChainSurvives(st.chains, st.temp, j);
      }
    }
    forall p, q | 0 <= p < q < |batch|
      ensures !batch[p].oldPk.NoPk? ==> batch[p].oldPk != batch[q].oldPk
      ensures !batch[p].newPk.NoPk? ==> batch[p].newPk != batch[q].newPk
    {
      var i, j := SurvivorPair(st.chains, st.temp, p, q);
    }
  }

  lemma SurvivorsVacate(t: Table, roots: set<Key>, st: ChainState, k: Key)
    requires Rooted(t, roots, st) && TempIsGone(st) && k in t && k.Pk?
    ensures Vacated(Survivors(st.chains, st.temp), k) <==> k in roots
  {
    var batch := Survivors(st.chains, st.temp);
    if Vacated(batch, k) {
      var c :| c in batch && c.oldPk == k;
      var p :| 0 <= p < |batch| && batch[p] == c;
      var i := SurvivorIsChain(st.chains, st.temp, p);
    }
    if k in roots {
      var j :| 0 <= j < |st.chains| && st.chains[j].oldPk == k;
      ChainSurvives(st.chains, st.temp, j);
    }
  }

  lemma SurvivorsProduce(st: ChainState, k: Key)
    requires LiveIsCurrent(st) && TempIsGone(st)
    ensures Produced(Survivors(st.chains, st.temp), k) <==> k in st.live
  {
    var batch := Survivors(st.chains, st.temp);
    if Produced(batch, k) {
      var c :| c in batch && c.newPk == k && !k.NoPk?;
      var p :| 0 <= p < |batch| && batch[p] == c;
      var i := SurvivorIsChain(st.chains, st.temp, p);
    }
    if k in st.live {
      ChainSurvives(st.chains, st.temp, st.live[k]);
      assert st.chains[st.live[k]] in batch;
    }
  }

  lemma SurvivorsApplied(cols: set<string>, t: Table, roots: set<Key>, cur: Table, st: ChainState)
    requires Inv(cols, t, roots, cur, st)
    ensures IsApplied(cols, t, Survivors(st.chains, st.temp), cur)
  {
    var batch := Survivors(st.chains, st.temp);
    forall k ensures Produced(batch, k) <==> k in st.live { SurvivorsProduce(st, k); }
    forall k | k in t ensures Vacated(batch, k) <==> k in roots { SurvivorsVacate(t, roots, st, k); }
    forall c | c in batch && !c.newPk.NoPk?
      ensures c.newPk in cur && cur[c.newPk] == Effect(cols, t, c)
    {
      var p :| 0 <= p < |batch| && batch[p] == c;
      var i := SurvivorIsChain(st.chains, st.temp, p);
      assert st.live[c.newPk] == i;
    }
  }

  /** Squashing preserves meaning: over any table and any well-formed stream, including key moves,
      re-used keys, delete-then-insert and rows that come and go, applying the squashed batch at once
      yields the table that applying the changes one by one yields. */
  lemma SquashPreservesMeaning(cols: set<string>, t: Table, cs: seq<Change>)
    requires StreamOk(cols, t, cs) && forall k :: k in t ==> k.Pk?
    ensures BatchOk(t, Squashed(cs))
    ensures IsApplied(cols, t, Squashed(cs), Replay(cols, t, cs))
    ensures forall k :: k in Replay(cols, t, cs) ==> k.Pk?
  {
    var roots := FoldTracks(cols, t, cs);
    SurvivorsBatchOk(cols, t, roots, Replay(cols, t, cs), Fold(cs));
    SurvivorsApplied(cols, t, roots, Replay(cols, t, cs), Fold(cs));
  }

  // ---------------------------------------------------------------------------------------------
  // Conservation: for every list of changes, well-formed or not
  // ---------------------------------------------------------------------------------------------

  /** +1 for an insert, -1 for a delete, 0 otherwise. */
  function Weight(c: Change): int {
    (if c.oldPk.NoPk? then 1 else 0) - (if c.newPk.NoPk? then 1 else 0)
  }

  function NetInserts(cs: seq<Change>): int {
    if cs == [] then 0 else NetInserts(cs[..|cs| - 1]) + Weight(cs[|cs| - 1])
  }

  lemma {:induction false} NetOfUpdate(cs: seq<Change>, i: nat, c: Change)
    requires i < |cs|
    ensures NetInserts(cs[i := c]) == NetInserts(cs) - Weight(cs[i]) + Weight(c)
  {
    var n := |cs| - 1;
    if i == n {
      assert cs[i := c][..n] == cs[..n];
    } else {
      NetOfUpdate(cs[..n], i, c);
      assert cs[i := c][..n] == cs[..n][i := c];
    }
  }

  lemma NetOfAppend(cs: seq<Change>, c: Change)
    ensures NetInserts(cs + [c]) == NetInserts(cs) + Weight(c)
  {
    assert (cs + [c])[..|cs|] == cs;
  }

  /** The temporary chains among the first ones. */
  function TempBelow(temp: set<nat>, n: nat): set<nat> {
    set j | j in temp && j < n
  }

  lemma TempNext(temp: set<nat>, n: nat)
    ensures |TempBelow(temp, n + 1)| == |TempBelow(temp, n)| + if n in temp then 1 else 0
  {
    if n in temp {
      assert TempBelow(temp, n + 1) == TempBelow(temp, n) + {n};
    } else {
      assert TempBelow(temp, n + 1) == TempBelow(temp, n);
    }
  }

  lemma NoneBelow(temp: set<nat>)
    ensures TempBelow(temp, 0) == {}
  {
  }

  lemma {:induction false} NetOfSurvivors(chains: seq<Change>, temp: set<nat>)
    requires forall j :: 0 <= j < |chains| && j in temp ==> Weight(chains[j]) == 0
    ensures NetInserts(Survivors(chains, temp)) == NetInserts(chains)
    ensures |Survivors(chains, temp)| + |TempBelow(temp, |chains|)| == |chains|
  {
    hide TempBelow, Weight;
    if chains == [] {
      NoneBelow(temp);
    } else {
      var n := |chains| - 1;
      var init := chains[..n];
      assert forall j :: 0 <= j < n ==> init[j] == chains[j];
      NetOfSurvivors(init, temp);
      TempNext(temp, n);
      assert NetInserts(chains) == NetInserts(init) + Weight(chains[n]);
      if n in temp {
        assert Survivors(chains, temp) == Survivors(init, temp);
      } else {
        assert Survivors(chains, temp) == Survivors(init, temp) + [chains[n]];
        NetOfAppend(Survivors(init, temp), chains[n]);
      }
    }
  }

  /** What holds of the chains whatever the input: a live key belongs to its chain, is not NULL, and
      a temporary chain is one that was inserted and deleted again. */
  ghost predicate Linked(st: ChainState) {
    && LiveInRange(st)
    && (forall k :: k in st.live ==> !k.NoPk? && !st.chains[st.live[k]].newPk.NoPk? && st.live[k] !in st.temp)
    && (forall k, k' :: k in st.live && k' in st.live && st.live[k] == st.live[k'] ==> k == k')
    && (forall j :: j in st.temp ==> j < |st.chains| && Weight(st.chains[j]) == 0)
  }

  lemma ContinueLinked(st: ChainState, c: Change)
    requires Linked(st) && c.oldPk in st.live
    ensures Linked(AddChange(st, c))
  {
    var id := st.live[c.oldPk];
    var st' := AddChange(st, c);
    forall k | k in st'.live && k != c.newPk
      ensures k in st.live && st'.live[k] == st.live[k] != id
    {
      assert k != c.oldPk;
    }
    forall j | j in st'.temp
      ensures j < |st'.chains| && Weight(st'.chains[j]) == 0
    {
      assert j != id ==> st'.chains[j] == st.chains[j];
    }
  }

  lemma StartLinked(st: ChainState, c: Change)
    requires Linked(st) && c.oldPk !in st.live
    ensures Linked(AddChange(st, c))
  {
    var st' := AddChange(st, c);
    assert forall k :: k in st'.live && k != c.newPk ==> k in st.live && st'.live[k] == st.live[k];
    assert forall j :: 0 <= j < |st.chains| ==> st'.chains[j] == st.chains[j];
  }

  lemma StepConserves(st: ChainState, c: Change)
    requires Linked(st)
    ensures var st' := AddChange(st, c);
      Linked(st') && NetInserts(st'.chains) == NetInserts(st.chains) + Weight(c) && |st'.chains| <= |st.chains| + 1
  {
    hide NetInserts;
    if c.oldPk in st.live {
      ContinueLinked(st, c);
      NetOfUpdate(st.chains, st.live[c.oldPk], Compose(st.chains[st.live[c.oldPk]], c));
    } else {
      StartLinked(st, c);
      NetOfAppend(st.chains, c);
    }
  }

  lemma {:induction false} FoldConserves(cs: seq<Change>)
    ensures Linked(Fold(cs))
    ensures NetInserts(Fold(cs).chains) == NetInserts(cs)
    ensures |Fold(cs).chains| <= |cs|
  {
    hide AddChange, Weight;
    if cs == [] {
      assert Fold(cs) == ChainState([], {}, map[]);
    } else {
      hide Linked;
      var n := |cs| - 1;
      FoldConserves(cs[..n]);
      StepConserves(Fold(cs[..n]), cs[n]);
    }
  }

  /** For every stream, well-formed or not: inserts minus deletes is unchanged, the output has a change
      for every chain that is not temporary, and changes are never added. */
  lemma SquashConserves(cs: seq<Change>)
    ensures NetInserts(Squashed(cs)) == NetInserts(cs)
    ensures |Squashed(cs)| == |Fold(cs).chains| - |Fold(cs).temp|
    ensures |Squashed(cs)| <= |cs|
  {
    hide Fold, NetInserts, Survivors;
    var st := Fold(cs);
    FoldConserves(cs);
    NetOfSurvivors(st.chains, st.temp);
    assert TempBelow(st.temp, |st.chains|) == st.temp;
  }
}

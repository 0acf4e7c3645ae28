/** Which versions retention keeps, stated on the rows of one game
    (crates/savr-server/src/db.rs, `prune_game`).  `ServerStore.PruneGame` computes
    the same set with the source's index arrays. */
module Pruning {
  import opened Types
  import opened ServerTables
  import opened Chains

  predicate IsFull(rows: Versions, v: VersionId)
    requires v in rows
  {
    rows[v].kind == Full
  }

  predicate IsTip(rows: Versions, v: VersionId) {
    forall w :: w in rows ==> rows[w].parent != Some(v)
  }

  /** The head and every unresolved tip. */
  predicate Protected(rows: Versions, head: Option<VersionId>, losers: set<VersionId>, v: VersionId) {
    head == Some(v) || (IsTip(rows, v) && v !in losers)
  }

  /** `f` is the nearest full at or before `v`; a full owns itself. */
  predicate Owns(rows: Versions, f: VersionId, v: VersionId) {
    && f in rows && v in rows && IsFull(rows, f) && rows[f].seqNo <= rows[v].seqNo
    && forall w :: w in rows && IsFull(rows, w) && rows[w].seqNo <= rows[v].seqNo ==> rows[w].seqNo <= rows[f].seqNo
  }

  function NewerFulls(rows: Versions, f: VersionId): set<VersionId>
    requires f in rows
  {
    set w | w in rows && IsFull(rows, w) && rows[w].seqNo > rows[f].seqNo
  }

  function NewerDiffs(rows: Versions, f: VersionId, v: VersionId): set<VersionId>
    requires v in rows
  {
    set w | w in rows && !IsFull(rows, w) && Owns(rows, f, w) && rows[w].seqNo > rows[v].seqNo
  }

  /** Among the newest `ret.full` fulls. */
  predicate RecentFull(rows: Versions, ret: Retention, f: VersionId) {
    f in rows && IsFull(rows, f) && |NewerFulls(rows, f)| < ret.full
  }

  predicate OwnsProtected(rows: Versions, head: Option<VersionId>, losers: set<VersionId>, f: VersionId) {
    exists t {:trigger Owns(rows, f, t)} :: t in rows && Protected(rows, head, losers, t) && Owns(rows, f, t)
  }

  /** Among the newest `ret.diffPerFull` differentials of a recent full. */
  predicate RecentDiff(rows: Versions, ret: Retention, v: VersionId) {
    && v in rows && !IsFull(rows, v)
    && exists f {:trigger Owns(rows, f, v)} :: f in rows && RecentFull(rows, ret, f) && Owns(rows, f, v)
        && |NewerDiffs(rows, f, v)| < ret.diffPerFull
  }

  predicate Keep(rows: Versions, head: Option<VersionId>, losers: set<VersionId>, ret: Retention, v: VersionId) {
    || Protected(rows, head, losers, v)
    || OwnsProtected(rows, head, losers, v)
    || RecentFull(rows, ret, v)
    || RecentDiff(rows, ret, v)
  }

  function LosersOf(t: Tables, g: GameId): set<VersionId> {
    set l | l in t.losers && l.0 == g :: l.1
  }

  function Dead(rows: Versions, head: Option<VersionId>, losers: set<VersionId>, ret: Retention): set<VersionId> {
    set v | v in rows && !Keep(rows, head, losers, ret, v)
  }

  function DeadIn(t: Tables, g: GameId, ret: Retention): set<VersionId>
    requires g in t.heads
  {
    Dead(Rows(t, g), t.heads[g], LosersOf(t, g), ret)
  }

  /** One retention pass over one game. */
  ghost function Prune(t: Tables, g: GameId, ret: Retention): Tables {
    if g in t.heads then RemoveAll(t, DeadIn(t, g, ret)) else t
  }

  // ---- order facts about the rows of one game ----

  ghost predicate Ordered(rows: Versions) {
    && Acyclic(rows)
    && forall v, w {:trigger rows[v].seqNo, rows[w].seqNo} ::
         v in rows && w in rows && rows[v].seqNo == rows[w].seqNo ==> v == w
  }

  lemma RowsOrdered(t: Tables, g: GameId)
    requires TablesOk(t)
    ensures Ordered(Rows(t, g))
  {
    RowsAcyclic(t, g);
    forall v, w | v in Rows(t, g) && w in Rows(t, g) && Rows(t, g)[v].seqNo == Rows(t, g)[w].seqNo ensures v == w {
      assert SameSlot(t.versions[v], t.versions[w]);
    }
  }

  lemma OwnerUnique(rows: Versions, f: VersionId, h: VersionId, v: VersionId)
    requires Ordered(rows) && Owns(rows, f, v) && Owns(rows, h, v)
    ensures f == h
  {
  }

  /** A full newer than a recent full is recent. */
  lemma NewerIsRecent(rows: Versions, ret: Retention, f: VersionId, h: VersionId)
    requires RecentFull(rows, ret, f) && h in rows && IsFull(rows, h) && rows[h].seqNo > rows[f].seqNo
    ensures RecentFull(rows, ret, h)
  {
    SubsetSize(NewerFulls(rows, h), NewerFulls(rows, f));
  }

  lemma {:induction false} SubsetSize<T>(a: set<T>, b: set<T>)
    requires a <= b
    ensures |a| <= |b|
  {
    if a != {} {
      var x :| x in a;
      SubsetSize(a - {x}, b - {x});
    }
  }

  // ---- a second pass finds nothing to prune ----

  /** Removing rows keeps ownership between survivors. */
  lemma OwnsSurvives(rows: Versions, dead: set<VersionId>, f: VersionId, v: VersionId)
    requires Owns(rows, f, v) && f !in dead && v !in dead
    ensures Owns(UnlinkAll(rows, dead), f, v)
  {
  }

  lemma ProtectedSurvives(
    rows: Versions, dead: set<VersionId>, head: Option<VersionId>, losers: set<VersionId>, v: VersionId)
    requires Protected(rows, head, losers, v)
    ensures Protected(UnlinkAll(rows, dead), head, losers, v)
  {
  }

  lemma RecentFullSurvives(rows: Versions, dead: set<VersionId>, ret: Retention, f: VersionId)
    requires RecentFull(rows, ret, f) && f !in dead
    ensures RecentFull(UnlinkAll(rows, dead), ret, f)
  {
    SubsetSize(NewerFulls(UnlinkAll(rows, dead), f), NewerFulls(rows, f));
  }

  /** A set of deletions that spares the recent fulls. */
  ghost predicate SparesRecent(rows: Versions, dead: set<VersionId>, ret: Retention) {
    forall f :: RecentFull(rows, ret, f) ==> f !in dead
  }

  /** Deleting other versions gives a recent full nothing it did not own. */
  lemma OwnedBefore(rows: Versions, dead: set<VersionId>, ret: Retention, f: VersionId, w: VersionId)
    requires SparesRecent(rows, dead, ret) && RecentFull(rows, ret, f) && Owns(UnlinkAll(rows, dead), f, w)
    ensures Owns(rows, f, w)
  {
    forall h | h in rows && IsFull(rows, h) && rows[h].seqNo <= rows[w].seqNo ensures rows[h].seqNo <= rows[f].seqNo {
      if rows[h].seqNo > rows[f].seqNo {
        NewerIsRecent(rows, ret, f, h);
        assert h in UnlinkAll(rows, dead) && IsFull(UnlinkAll(rows, dead), h);
      }
    }
  }

  lemma NewerDiffsShrink(rows: Versions, dead: set<VersionId>, ret: Retention, f: VersionId, v: VersionId)
    requires SparesRecent(rows, dead, ret) && RecentFull(rows, ret, f) && v in rows && v !in dead
    ensures |NewerDiffs(UnlinkAll(rows, dead), f, v)| <= |NewerDiffs(rows, f, v)|
  {
    var left := UnlinkAll(rows, dead);
    forall w | w in NewerDiffs(left, f, v) ensures w in NewerDiffs(rows, f, v) { OwnedBefore(rows, dead, ret, f, w); }
    SubsetSize(NewerDiffs(left, f, v), NewerDiffs(rows, f, v));
  }

  lemma RecentDiffStays(rows: Versions, dead: set<VersionId>, ret: Retention, v: VersionId)
    requires SparesRecent(rows, dead, ret) && RecentDiff(rows, ret, v) && v !in dead
    ensures RecentDiff(UnlinkAll(rows, dead), ret, v)
  {
    var f :| f in rows && RecentFull(rows, ret, f) && Owns(rows, f, v) && |NewerDiffs(rows, f, v)| < ret.diffPerFull;
    RecentFullSurvives(rows, dead, ret, f);
    OwnsSurvives(rows, dead, f, v);
    NewerDiffsShrink(rows, dead, ret, f, v);
  }

  lemma RecentDiffSurvives(
    rows: Versions, head: Option<VersionId>, losers: set<VersionId>, ret: Retention, v: VersionId)
    requires RecentDiff(rows, ret, v)
    ensures RecentDiff(UnlinkAll(rows, Dead(rows, head, losers, ret)), ret, v)
  {
    assert SparesRecent(rows, Dead(rows, head, losers, ret), ret);
    RecentDiffStays(rows, Dead(rows, head, losers, ret), ret, v);
  }

  /** With the same head, losers and retention a second pass prunes nothing, even
      though the first nulled parents and so created new tips. */
  lemma PruneIdempotent(rows: Versions, head: Option<VersionId>, losers: set<VersionId>, ret: Retention)
    requires Ordered(rows)
    ensures Dead(UnlinkAll(rows, Dead(rows, head, losers, ret)), head, losers, ret) == {}
  {
    var dead := Dead(rows, head, losers, ret);
    var left := UnlinkAll(rows, dead);
    forall v | v in left ensures Keep(left, head, losers, ret, v) {
      if Protected(rows, head, losers, v) {
        ProtectedSurvives(rows, dead, head, losers, v);
      } else if OwnsProtected(rows, head, losers, v) {
        var t :| t in rows && Protected(rows, head, losers, t) && Owns(rows, v, t);
        ProtectedSurvives(rows, dead, head, losers, t);
        OwnsSurvives(rows, dead, v, t);
      } else if RecentFull(rows, ret, v) {
        RecentFullSurvives(rows, dead, ret, v);
      } else {
        RecentDiffSurvives(rows, head, losers, ret, v);
      }
    }
  }

  /** The same for the tables: pruning twice is pruning once. */
  lemma PruneTwice(t: Tables, g: GameId, ret: Retention)
    requires TablesOk(t)
    ensures Prune(Prune(t, g, ret), g, ret) == Prune(t, g, ret)
  {
    if g in t.heads {
      var once := Prune(t, g, ret);
      RowsOrdered(t, g);
      RowsAfterRemoval(t, DeadIn(t, g, ret), g);
      PruneIdempotent(Rows(t, g), t.heads[g], LosersOf(t, g), ret);
      assert LosersOf(once, g) == LosersOf(t, g);
      assert DeadIn(once, g, ret) == {};
      RemoveNone(once);
    }
  }

  // ---- what a pass leaves standing ----

  /** What is kept keeps its owner. */
  lemma OwnerKept(
    rows: Versions, head: Option<VersionId>, losers: set<VersionId>, ret: Retention, h: VersionId, v: VersionId)
    requires Ordered(rows) && Owns(rows, h, v) && Keep(rows, head, losers, ret, v)
    ensures Keep(rows, head, losers, ret, h)
  {
    if Protected(rows, head, losers, v) {
      assert OwnsProtected(rows, head, losers, h);
    } else if IsFull(rows, v) {
      assert h == v;
    } else {
      var k :| k in rows && RecentFull(rows, ret, k) && Owns(rows, k, v) && |NewerDiffs(rows, k, v)| < ret.diffPerFull;
      OwnerUnique(rows, h, k, v);
    }
  }

  lemma SameOwnerLeft(rows: Versions, dead: set<VersionId>, h: VersionId, f: VersionId, v: VersionId)
    requires Ordered(rows) && Owns(rows, h, v) && h !in dead && v !in dead
    ensures Owns(UnlinkAll(rows, dead), f, v) <==> Owns(rows, f, v)
  {
    OwnsSurvives(rows, dead, h, v);
    var left := UnlinkAll(rows, dead);
    if Owns(left, f, v) { assert left[f].seqNo == left[h].seqNo; }
    if Owns(rows, f, v) { OwnerUnique(rows, f, h, v); }
  }

  /** A surviving differential keeps its nearest preceding full, and a leading
      differential stays leading. */
  lemma OwnerSurvives(
    rows: Versions, head: Option<VersionId>, losers: set<VersionId>, ret: Retention, f: VersionId, v: VersionId)
    requires Ordered(rows) && v in rows && Keep(rows, head, losers, ret, v)
    ensures Owns(UnlinkAll(rows, Dead(rows, head, losers, ret)), f, v) <==> Owns(rows, f, v)
  {
    var dead := Dead(rows, head, losers, ret);
    if h :| h in rows && Owns(rows, h, v) {
      OwnerKept(rows, head, losers, ret, h, v);
      SameOwnerLeft(rows, dead, h, f, v);
    } else {
      NoOwnerLeft(rows, dead, f, v);
    }
  }

  lemma NoOwnerLeft(rows: Versions, dead: set<VersionId>, f: VersionId, v: VersionId)
    requires v in rows && forall h :: h in rows ==> !Owns(rows, h, v)
    ensures !Owns(UnlinkAll(rows, dead), f, v) && !Owns(rows, f, v)
  {
    if Owns(UnlinkAll(rows, dead), f, v) { NoOwnerMeansNoFull(rows, f, v); }
  }

  lemma NoOwnerMeansNoFull(rows: Versions, f: VersionId, v: VersionId)
    requires f in rows && v in rows && IsFull(rows, f) && rows[f].seqNo <= rows[v].seqNo
    ensures exists h :: h in rows && Owns(rows, h, v)
  {
    var seqs := set w | w in rows && IsFull(rows, w) && rows[w].seqNo <= rows[v].seqNo :: rows[w].seqNo;
    assert rows[f].seqNo in seqs;
    var top := Greatest(seqs);
    forall w | w in rows && IsFull(rows, w) && rows[w].seqNo <= rows[v].seqNo ensures rows[w].seqNo <= top {
      assert rows[w].seqNo in seqs;
    }
    var h :| h in rows && IsFull(rows, h) && rows[h].seqNo <= rows[v].seqNo && rows[h].seqNo == top;
    assert Owns(rows, h, v);
  }

  /** A survivor's parent link is unchanged if the parent survives and nulled if not. */
  lemma ParentAfterPrune(t: Tables, g: GameId, ret: Retention, v: VersionId)
    requires TablesOk(t) && v in Prune(t, g, ret).versions
    ensures v in t.versions
    ensures var left, parent := Prune(t, g, ret).versions, t.versions[v].parent;
      left[v] == t.versions[v].(parent := if parent.Some? && parent.value in left then parent else None)
  {
    assert RowOk(t, v);
  }

  /** Exactly when a pruned history can still restore a survivor: every member of
      its chain survived, and then chain and replayed files are what they were. */
  lemma RestorableAfterPrune(t: Tables, g: GameId, ret: Retention, v: VersionId)
    requires TablesOk(t) && g in t.heads && TablesOk(Prune(t, g, ret))
    requires v in Rows(t, g) && v !in DeadIn(t, g, ret) && Acyclic(Rows(t, g)) && Acyclic(Rows(Prune(t, g, ret), g))
    ensures Chain(Rows(Prune(t, g, ret), g), v).Some? <==> Intact(Chain(Rows(t, g), v), DeadIn(t, g, ret))
    ensures Chain(Rows(Prune(t, g, ret), g), v).Some? ==>
      && Chain(Rows(Prune(t, g, ret), g), v) == Chain(Rows(t, g), v)
      && var c := Chain(Rows(t, g), v).value;
         && (forall u :: u in c ==> u in Rows(t, g) && u in Rows(Prune(t, g, ret), g))
         && Replay(Rows(Prune(t, g, ret), g), c) == Replay(Rows(t, g), c)
  {
    RowsAfterRemoval(t, DeadIn(t, g, ret), g);
    RestorableAfterRemoval(Rows(t, g), Rows(Prune(t, g, ret), g), DeadIn(t, g, ret), v);
  }

  lemma RestorableAfterRemoval(rows: Versions, left: Versions, dead: set<VersionId>, v: VersionId)
    requires left == UnlinkAll(rows, dead) && Acyclic(rows) && Acyclic(left) && v in rows && v !in dead
    ensures Chain(left, v).Some? <==> Intact(Chain(rows, v), dead)
    ensures Chain(left, v).Some? ==>
      && Chain(left, v) == Chain(rows, v)
      && var c := Chain(rows, v).value;
         && (forall u :: u in c ==> u in rows && u in left)
         && Replay(left, c) == Replay(rows, c)
  {
    ChainAfterRemoval(rows, dead, v);
    if Chain(left, v).Some? {
      ChainIsLinked(rows, v);
      ChainIsLinked(left, v);
      SameReplay(rows, left, Chain(rows, v).value);
    }
  }

  /** A pass leaves a survivor the chain it had or none. */
  lemma ChainInPrune(t: Tables, g: GameId, ret: Retention, v: VersionId)
    requires TablesOk(t) && TablesOk(Prune(t, g, ret))
    ensures ChainIn(Prune(t, g, ret), v) == ChainIn(t, v) || ChainIn(Prune(t, g, ret), v) == None
  {
    if g in t.heads && v in Prune(t, g, ret).versions {
      var dead, k := DeadIn(t, g, ret), t.versions[v].game;
      RowsAcyclic(t, k);
      RowsAcyclic(Prune(t, g, ret), k);
      RowsAfterRemoval(t, dead, k);
      ChainAfterRemoval(Rows(t, k), dead, v);
    }
  }

  lemma {:induction false} SameReplay(a: Versions, b: Versions, c: seq<VersionId>)
    requires forall v :: v in c ==> v in a && v in b && a[v].blob == b[v].blob
    ensures Replay(a, c) == Replay(b, c)
    decreases |c|
  {
    if c != [] { SameReplay(a, b, c[..|c| - 1]); }
  }

  /** A full and two differentials, each on the one before. */
  ghost predicate ThreeVersions(rows: Versions, a: Archive) {
    && rows.Keys == {0, 1, 2}
    && rows[0] == Version(0, 0, None, Full, map[], a, 1)
    && rows[1] == Version(0, 0, Some(0), Differential, map[], a, 2)
    && rows[2] == Version(0, 0, Some(1), Differential, map[], a, 3)
  }

  lemma MiddleIsDropped(rows: Versions, a: Archive, head: Option<VersionId>, ret: Retention)
    requires ThreeVersions(rows, a) && head == Some(2) && ret == Retention(1, 1)
    ensures !Keep(rows, head, {}, ret, 1)
  {
    assert Owns(rows, 0, 2) && Owns(rows, 0, 1);
    assert 2 in NewerDiffs(rows, 0, 1);
    SubsetSize({2}, NewerDiffs(rows, 0, 1));
    assert rows[2].parent == Some(1);
  }

  lemma EndsAreKept(rows: Versions, a: Archive, head: Option<VersionId>, ret: Retention)
    requires ThreeVersions(rows, a) && head == Some(2)
    ensures Keep(rows, head, {}, ret, 0) && Keep(rows, head, {}, ret, 2)
  {
    assert Protected(rows, head, {}, 2) && Owns(rows, 0, 2);
    assert OwnsProtected(rows, head, {}, 0);
  }

  lemma LastIsStranded(rows: Versions, a: Archive)
    requires ThreeVersions(rows, a)
    ensures Acyclic(rows) && Chain(rows, 2) == Some([0, 1, 2])
    ensures Acyclic(UnlinkAll(rows, {1})) && Chain(UnlinkAll(rows, {1}), 2) == None
  {
    assert [0] + [1] == [0, 1] && [0, 1] + [2] == [0, 1, 2];
    assert rows[1].parent == Some(0) && rows[2].parent == Some(1);
    assert Chain(rows, 0) == Some([0]);
    assert Chain(rows, 1) == Extend(Chain(rows, 0), 1);
    assert Chain(rows, 2) == Extend(Chain(rows, 1), 2);
    assert UnlinkAll(rows, {1})[2].parent == None;
  }

  lemma ChildOfFullIntact(
    rows: Versions, head: Option<VersionId>, losers: set<VersionId>, ret: Retention, f: VersionId, v: VersionId)
    requires Ordered(rows) && Acyclic(rows) && Owns(rows, f, v) && Keep(rows, head, losers, ret, v)
    requires rows[v].kind == Differential && rows[v].parent == Some(f)
    ensures Chain(rows, v) == Some([f, v]) && Intact(Chain(rows, v), Dead(rows, head, losers, ret))
  {
    OwnerKept(rows, head, losers, ret, f, v);
    assert Chain(rows, f) == Some([f]) && [f] + [v] == [f, v];
  }

  /** What retention does guarantee of a differential it keeps: the full that owns it
      stays, so a differential taken against that full keeps its chain of two. */
  lemma KeptChildOfFullRestores(t: Tables, g: GameId, ret: Retention, f: VersionId, v: VersionId)
    requires TablesOk(t) && g in t.heads && v in Rows(t, g) && v !in DeadIn(t, g, ret)
    requires t.versions[v].kind == Differential && t.versions[v].parent == Some(f) && Owns(Rows(t, g), f, v)
    ensures TablesOk(Prune(t, g, ret)) && v in Prune(t, g, ret).versions
    ensures ChainIn(Prune(t, g, ret), v) == ChainIn(t, v) == Some([f, v])
  {
    RowsOrdered(t, g);
    RowsAcyclic(t, g);
    ChildOfFullIntact(Rows(t, g), t.heads[g], LosersOf(t, g), ret, f, v);
    PruneKeepsTables(t, g, ret);
    RowsAcyclic(Prune(t, g, ret), g);
    RestorableAfterPrune(t, g, ret, v);
  }

  /** The retention comment takes differentials of one full to be independent; they
      are not.  Keeping one differential per full, of a full and two differentials
      the second survives without the first and can no longer be restored. */
  lemma GcCanStrandADifferential(rows: Versions, a: Archive, head: Option<VersionId>, ret: Retention)
    requires ThreeVersions(rows, a) && head == Some(2) && ret == Retention(1, 1)
    ensures Acyclic(rows) && Chain(rows, 2) == Some([0, 1, 2])
    ensures Dead(rows, head, {}, ret) == {1}
    ensures Acyclic(UnlinkAll(rows, {1})) && Chain(UnlinkAll(rows, {1}), 2) == None
  {
    MiddleIsDropped(rows, a, head, ret);
    EndsAreKept(rows, a, head, ret);
    LastIsStranded(rows, a);
  }

  // ---- the newest version ----

  ghost predicate Newest(rows: Versions, v: VersionId) {
    v in rows && forall w :: w in rows ==> rows[w].seqNo <= rows[v].seqNo
  }

  ghost predicate HasOwner(rows: Versions, v: VersionId) {
    exists f :: f in rows && Owns(rows, f, v)
  }

  /** Exactly when a pass spares the version with the highest seq: it is the head,
      it is no resolved loser, or retention keeps at least one full and it is that
      full, or one differential of the full that owns it. */
  lemma NewestKeptIff(rows: Versions, head: Option<VersionId>, losers: set<VersionId>, ret: Retention, v: VersionId)
    requires Ordered(rows) && Newest(rows, v)
    ensures Keep(rows, head, losers, ret, v) <==>
      || head == Some(v)
      || v !in losers
      || (ret.full >= 1 && (IsFull(rows, v) || (ret.diffPerFull >= 1 && HasOwner(rows, v))))
  {
    assert IsTip(rows, v);
    if IsFull(rows, v) {
      assert NewerFulls(rows, v) == {};
    } else if HasOwner(rows, v) {
      var f :| f in rows && Owns(rows, f, v);
      assert NewerFulls(rows, f) == {};
      assert NewerDiffs(rows, f, v) == {};
    }
    if OwnsProtected(rows, head, losers, v) {
      var t :| t in rows && Protected(rows, head, losers, t) && Owns(rows, v, t);
      assert rows[t].seqNo == rows[v].seqNo;
    }
  }

  // ---- what a pass spares, in terms of the tables ----

  lemma SparedIffKept(t: Tables, g: GameId, ret: Retention, v: VersionId)
    requires g in t.heads && v in t.versions && t.versions[v].game == g
    ensures v in Prune(t, g, ret).versions <==> Keep(Rows(t, g), t.heads[g], LosersOf(t, g), ret, v)
  {
  }

  lemma ProtectedIff(t: Tables, g: GameId, v: VersionId)
    requires g in t.heads
    ensures Protected(Rows(t, g), t.heads[g], LosersOf(t, g), v) <==>
      || t.heads[g] == Some(v)
      || ((g, v) !in t.losers
          && forall w :: w in t.versions && t.versions[w].game == g ==> t.versions[w].parent != Some(v))
  {
    assert v in LosersOf(t, g) <==> (g, v) in t.losers;
    if w :| w in t.versions && t.versions[w].game == g && t.versions[w].parent == Some(v) {
      assert w in Rows(t, g) && Rows(t, g)[w].parent == Some(v);
    }
  }

  /** A pass never deletes the head or an unresolved conflict tip, a version that no row
      names as parent and that is no resolved loser; nor the nearest full at or before it. */
  lemma TipsAndTheirFullsSurvive(t: Tables, g: GameId, ret: Retention, v: VersionId, f: VersionId)
    requires TablesOk(t) && g in t.heads && v in t.versions && t.versions[v].game == g
    requires
      || t.heads[g] == Some(v)
      || ((g, v) !in t.losers
          && forall w :: w in t.versions && t.versions[w].game == g ==> t.versions[w].parent != Some(v))
    ensures v in Prune(t, g, ret).versions
    ensures
      var fulls := set w | w in t.versions && t.versions[w].game == g && t.versions[w].kind == Full
                           && t.versions[w].seqNo <= t.versions[v].seqNo;
      f in fulls && (forall w :: w in fulls ==> t.versions[w].seqNo <= t.versions[f].seqNo)
      ==> f in Prune(t, g, ret).versions
  {
    var rows := Rows(t, g);
    ProtectedIff(t, g, v);
    SparedIffKept(t, g, ret, v);
    if f in rows && Owns(rows, f, v) { SparedIffKept(t, g, ret, f); }
  }

  /** A full owns what comes before all newer fulls. */
  lemma FullOwnsIff(rows: Versions, f: VersionId, v: VersionId)
    requires f in rows && IsFull(rows, f) && v in rows
    ensures Owns(rows, f, v) <==>
      rows[f].seqNo <= rows[v].seqNo && forall w :: w in NewerFulls(rows, f) ==> rows[w].seqNo > rows[v].seqNo
  {
  }

  lemma OwnerSharesFulls(rows: Versions, h: VersionId, v: VersionId)
    requires Owns(rows, h, v)
    ensures NewerFulls(rows, h) == NewerFulls(rows, v)
  {
  }

  /** The differentials after `v` up to the next full. */
  function RestOfGroup(rows: Versions, v: VersionId): set<VersionId>
    requires v in rows
  {
    set w | w in rows && rows[w].kind == Differential && rows[w].seqNo > rows[v].seqNo
            && forall f :: f in NewerFulls(rows, v) ==> rows[f].seqNo > rows[w].seqNo
  }

  lemma NewerDiffsAreRest(rows: Versions, h: VersionId, v: VersionId)
    requires Owns(rows, h, v)
    ensures NewerDiffs(rows, h, v) == RestOfGroup(rows, v)
  {
    OwnerSharesFulls(rows, h, v);
    forall w | w in rows { FullOwnsIff(rows, h, w); }
  }

  lemma RecentDiffIff(rows: Versions, ret: Retention, v: VersionId)
    requires Ordered(rows) && v in rows && !IsFull(rows, v)
    ensures RecentDiff(rows, ret, v) <==>
      && (exists f :: f in rows && IsFull(rows, f) && rows[f].seqNo <= rows[v].seqNo)
      && |NewerFulls(rows, v)| < ret.full && |RestOfGroup(rows, v)| < ret.diffPerFull
  {
    if f :| f in rows && IsFull(rows, f) && rows[f].seqNo <= rows[v].seqNo {
      NoOwnerMeansNoFull(rows, f, v);
      var h :| h in rows && Owns(rows, h, v);
      OwnerSharesFulls(rows, h, v);
      NewerDiffsAreRest(rows, h, v);
      forall k | k in rows && Owns(rows, k, v) ensures k == h { OwnerUnique(rows, k, h, v); }
    }
  }

  lemma OwnsProtectedIff(rows: Versions, head: Option<VersionId>, losers: set<VersionId>, f: VersionId)
    requires f in rows
    ensures OwnsProtected(rows, head, losers, f) <==>
      IsFull(rows, f) && exists u ::
        && u in rows && Protected(rows, head, losers, u) && rows[f].seqNo <= rows[u].seqNo
        && forall w :: w in NewerFulls(rows, f) ==> rows[w].seqNo > rows[u].seqNo
  {
    if IsFull(rows, f) {
      forall u | u in rows { FullOwnsIff(rows, f, u); }
    }
  }

  lemma FullKeptIff(
    rows: Versions, head: Option<VersionId>, losers: set<VersionId>, ret: Retention, v: VersionId,
    guarded: set<VersionId>)
    requires v in rows && IsFull(rows, v)
    requires forall u :: u in guarded <==> u in rows && Protected(rows, head, losers, u)
    ensures Keep(rows, head, losers, ret, v) <==>
      || v in guarded || |NewerFulls(rows, v)| < ret.full
      || exists u ::
           && u in guarded && rows[v].seqNo <= rows[u].seqNo
           && forall w :: w in NewerFulls(rows, v) ==> rows[w].seqNo > rows[u].seqNo
  {
    OwnsProtectedIff(rows, head, losers, v);
  }

  lemma DiffKeptIff(
    rows: Versions, head: Option<VersionId>, losers: set<VersionId>, ret: Retention, v: VersionId)
    requires Ordered(rows) && v in rows && !IsFull(rows, v)
    ensures Keep(rows, head, losers, ret, v) <==>
      || Protected(rows, head, losers, v)
      || (&& (exists f :: f in rows && IsFull(rows, f) && rows[f].seqNo <= rows[v].seqNo)
          && |NewerFulls(rows, v)| < ret.full && |RestOfGroup(rows, v)| < ret.diffPerFull)
  {
    RecentDiffIff(rows, ret, v);
  }

  /** Exactly which fulls a pass spares: the newest `ret.full`, the head and the unresolved
      conflict tips, and the nearest full before each of those. */
  lemma PassSparesFullIff(
    t: Tables, g: GameId, ret: Retention, v: VersionId, guarded: set<VersionId>, newerFulls: set<VersionId>)
    requires TablesOk(t) && g in t.heads && v in t.versions && t.versions[v].game == g && t.versions[v].kind == Full
    requires forall u :: u in guarded <==>
      && u in t.versions && t.versions[u].game == g
      && (|| t.heads[g] == Some(u)
          || ((g, u) !in t.losers
              && forall w :: w in t.versions && t.versions[w].game == g ==> t.versions[w].parent != Some(u)))
    requires forall f :: f in newerFulls <==>
      && f in t.versions && t.versions[f].game == g && t.versions[f].kind == Full
      && t.versions[f].seqNo > t.versions[v].seqNo
    ensures v in Prune(t, g, ret).versions <==>
      || |newerFulls| < ret.full
      || exists u ::
           && u in guarded && t.versions[v].seqNo <= t.versions[u].seqNo
           && forall f :: f in newerFulls ==> t.versions[f].seqNo > t.versions[u].seqNo
  {
    var rows, head, losers := Rows(t, g), t.heads[g], LosersOf(t, g);
    GuardedIsProtected(t, g, guarded);
    assert newerFulls == NewerFulls(rows, v);
    SparedIffKept(t, g, ret, v);
    FullKeptIff(rows, head, losers, ret, v, guarded);
  }

  lemma GuardedIsProtected(t: Tables, g: GameId, guarded: set<VersionId>)
    requires g in t.heads
    requires forall u :: u in guarded <==>
      && u in t.versions && t.versions[u].game == g
      && (|| t.heads[g] == Some(u)
          || ((g, u) !in t.losers
              && forall w :: w in t.versions && t.versions[w].game == g ==> t.versions[w].parent != Some(u)))
    ensures forall u :: u in guarded <==> u in Rows(t, g) && Protected(Rows(t, g), t.heads[g], LosersOf(t, g), u)
  {
    forall u: VersionId ensures u in guarded <==>
      u in Rows(t, g) && Protected(Rows(t, g), t.heads[g], LosersOf(t, g), u)
    {
      ProtectedIff(t, g, u);
    }
  }

  /** Exactly which differentials a pass spares: the head and the unresolved conflict tips,
      and of each of the newest `ret.full` fulls the last `ret.diffPerFull` up to the next. */
  lemma PassSparesDiffIff(
    t: Tables, g: GameId, ret: Retention, v: VersionId, newerFulls: set<VersionId>, restOfGroup: set<VersionId>)
    requires TablesOk(t) && g in t.heads && v in t.versions && t.versions[v].game == g
    requires t.versions[v].kind == Differential
    requires forall f :: f in newerFulls <==>
      && f in t.versions && t.versions[f].game == g && t.versions[f].kind == Full
      && t.versions[f].seqNo > t.versions[v].seqNo
    requires forall w :: w in restOfGroup <==>
      && w in t.versions && t.versions[w].game == g && t.versions[w].kind == Differential
      && t.versions[w].seqNo > t.versions[v].seqNo
      && forall f :: f in newerFulls ==> t.versions[f].seqNo > t.versions[w].seqNo
    ensures v in Prune(t, g, ret).versions <==>
      || t.heads[g] == Some(v)
      || ((g, v) !in t.losers
          && forall w :: w in t.versions && t.versions[w].game == g ==> t.versions[w].parent != Some(v))
      || (&& (exists f ::
                && f in t.versions && t.versions[f].game == g && t.versions[f].kind == Full
                && t.versions[f].seqNo <= t.versions[v].seqNo)
          && |newerFulls| < ret.full && |restOfGroup| < ret.diffPerFull)
  {
    var rows := Rows(t, g);
    assert newerFulls == NewerFulls(rows, v);
    assert restOfGroup == RestOfGroup(rows, v);
    ProtectedIff(t, g, v);
    RowsOrdered(t, g);
    SparedIffKept(t, g, ret, v);
    DiffKeptIff(rows, t.heads[g], LosersOf(t, g), ret, v);
    FullBefore(t, g, v);
  }

  lemma FullBefore(t: Tables, g: GameId, v: VersionId)
    requires v in t.versions && t.versions[v].game == g
    ensures
      (exists f :: f in Rows(t, g) && IsFull(Rows(t, g), f) && Rows(t, g)[f].seqNo <= Rows(t, g)[v].seqNo) <==>
      (exists f ::
         && f in t.versions && t.versions[f].game == g && t.versions[f].kind == Full
         && t.versions[f].seqNo <= t.versions[v].seqNo)
  {
    var rows := Rows(t, g);
    if f :| f in t.versions && t.versions[f].game == g && t.versions[f].kind == Full
            && t.versions[f].seqNo <= t.versions[v].seqNo
    {
      assert f in rows && IsFull(rows, f) && rows[f].seqNo <= rows[v].seqNo;
    }
  }

  // ---- the tables after a pass ----

  lemma PruneKeepsTables(t: Tables, g: GameId, ret: Retention)
    requires TablesOk(t)
    ensures TablesOk(Prune(t, g, ret))
    ensures Conserved(t) ==> Conserved(Prune(t, g, ret))
  {
    if g in t.heads {
      forall k | k in t.heads && t.heads[k].Some? ensures t.heads[k].value !in DeadIn(t, g, ret) {
        assert t.heads[k].value in Rows(t, k);
      }
      RemoveKeepsTables(t, DeadIn(t, g, ret));
      if Conserved(t) { RemoveKeepsReferences(t, DeadIn(t, g, ret)); }
    }
  }
}

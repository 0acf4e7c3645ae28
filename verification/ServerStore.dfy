/** The server's tables as mutable state, with the transactions run statement by
    statement (crates/savr-server/src/db.rs).  Each method is proved to end in the
    state its function in `ServerTables` or `Pruning` names. */
module ServerStore {
  import opened Types
  import opened ServerTables
  import opened Pruning

  // ---- ORDER BY game_id, seq ----

  predicate Before(a: Version, b: Version) {
    a.game < b.game || (a.game == b.game && a.seqNo < b.seqNo)
  }

  /** `ids` lists exactly the rows, in ascending (game, seq) order. */
  ghost predicate Listing(rows: Versions, ids: seq<VersionId>) {
    && (forall i :: 0 <= i < |ids| ==> ids[i] in rows)
    && (forall v :: v in rows ==> v in ids)
    && (forall i, j :: 0 <= i < j < |ids| ==> Before(rows[ids[i]], rows[ids[j]]))
  }

  lemma {:induction false} LeastRow(rows: Versions, s: set<VersionId>) returns (v: VersionId)
    requires s != {} && s <= rows.Keys && SlotsDistinct(rows)
    ensures v in s && forall w :: w in s && w != v ==> Before(rows[v], rows[w])
  {
    var x :| x in s;
    v := x;
    var rest := s - {x};
    assert s == {x} + rest;
    if rest != {} {
      var y := LeastRow(rows, rest);
      assert x != y && !SameSlot(rows[x], rows[y]);
      v := if Before(rows[x], rows[y]) then x else y;
    }
  }

  method OrderRows(rows: Versions) returns (ids: seq<VersionId>)
    requires SlotsDistinct(rows)
    ensures Listing(rows, ids)
  {
    ids := [];
    var rest := rows.Keys;
    while rest != {}
      invariant rest <= rows.Keys
      invariant forall i :: 0 <= i < |ids| ==> ids[i] in rows
      invariant forall v :: v in rows ==> v in ids || v in rest
      invariant forall i, j :: 0 <= i < j < |ids| ==> Before(rows[ids[i]], rows[ids[j]])
      invariant forall i, w :: 0 <= i < |ids| && w in rest ==> Before(rows[ids[i]], rows[w])
      decreases rest
    {
      ghost var least := LeastRow(rows, rest);
      var v :| v in rest && forall w :: w in rest && w != v ==> Before(rows[v], rows[w]);
      rest := rest - {v};
      ids := ids + [v];
    }
  }

  // ---- retention over the index arrays ----

  /** `owner` is the index of the nearest full at or before `i`, if there is one. */
  predicate OwnerAt(rows: Versions, ids: seq<VersionId>, owner: Option<nat>, i: nat)
    requires i < |ids| && forall k :: 0 <= k < |ids| ==> ids[k] in rows
  {
    match owner
    case None => forall k :: 0 <= k <= i ==> !IsFull(rows, ids[k])
    case Some(f) => f <= i && IsFull(rows, ids[f]) && forall k :: f < k <= i ==> !IsFull(rows, ids[k])
  }

  /** One game's rows, listed by seq. */
  ghost predicate OneGame(rows: Versions, ids: seq<VersionId>) {
    Listing(rows, ids) && forall v, w :: v in rows && w in rows ==> rows[v].game == rows[w].game
  }

  lemma IndexOrder(rows: Versions, ids: seq<VersionId>, i: nat, j: nat)
    requires OneGame(rows, ids) && i < |ids| && j < |ids|
    ensures rows[ids[i]].seqNo < rows[ids[j]].seqNo <==> i < j
    ensures ids[i] == ids[j] <==> i == j
  {
    if i < j { assert Before(rows[ids[i]], rows[ids[j]]); }
    if j < i { assert Before(rows[ids[j]], rows[ids[i]]); }
  }

  lemma OwnerIsOwns(rows: Versions, ids: seq<VersionId>, owner: Option<nat>, i: nat, f: nat)
    requires OneGame(rows, ids) && i < |ids| && f < |ids| && OwnerAt(rows, ids, owner, i)
    ensures owner == Some(f) <==> Owns(rows, ids[f], ids[i])
  {
    IndexOrder(rows, ids, i, f);
    IndexOrder(rows, ids, f, i);
    if owner.Some? {
      var o := owner.value;
      IndexOrder(rows, ids, f, o);
      IndexOrder(rows, ids, o, f);
      IndexOrder(rows, ids, i, o);
      if o == f {
        forall w | w in rows && IsFull(rows, w) && rows[w].seqNo <= rows[ids[i]].seqNo
          ensures rows[w].seqNo <= rows[ids[f]].seqNo
        {
          var k :| 0 <= k < |ids| && ids[k] == w;
          IndexOrder(rows, ids, i, k);
          IndexOrder(rows, ids, f, k);
        }
      }
    }
  }

  method OwningFulls(rows: Versions, ids: seq<VersionId>) returns (owning: array<Option<nat>>)
    requires OneGame(rows, ids)
    ensures fresh(owning) && owning.Length == |ids|
    ensures forall i :: 0 <= i < |ids| ==> OwnerAt(rows, ids, owning[i], i)
  {
    owning := new Option<nat>[|ids|](_ => None);
    var lastFull: Option<nat> := None;
    for i := 0 to |ids|
      invariant forall k :: 0 <= k < i ==> OwnerAt(rows, ids, owning[k], k)
      invariant i > 0 ==> OwnerAt(rows, ids, lastFull, i - 1)
      invariant i == 0 ==> lastFull == None
    {
      if IsFull(rows, ids[i]) {
        lastFull := Some(i);
      }
      owning[i] := lastFull;
    }
  }

  ghost predicate MarkedTip(
    rows: Versions, ids: seq<VersionId>, owning: seq<Option<nat>>, head: Option<VersionId>,
    losers: set<VersionId>, upTo: nat, k: nat)
    requires |owning| == |ids| && upTo <= |ids| && k < |ids|
  {
    exists t :: 0 <= t < upTo && Protected(rows, head, losers, ids[t]) && (t == k || owning[t] == Some(k))
  }

  /** Head and unresolved tips, each with its owning full. */
  method MarkProtected(
    rows: Versions, ids: seq<VersionId>, owning: array<Option<nat>>, head: Option<VersionId>,
    losers: set<VersionId>, keep: array<bool>)
    requires OneGame(rows, ids) && owning.Length == |ids| == keep.Length
    requires forall i :: 0 <= i < |ids| ==> OwnerAt(rows, ids, owning[i], i)
    requires forall i :: 0 <= i < keep.Length ==> !keep[i]
    modifies keep
    ensures forall k :: 0 <= k < |ids| ==>
      (keep[k] <==> Protected(rows, head, losers, ids[k]) || OwnsProtected(rows, head, losers, ids[k]))
  {
    var referenced := set v | v in rows && rows[v].parent.Some? :: rows[v].parent.value;
    ghost var own := owning[..];
    for i := 0 to |ids|
      invariant owning[..] == own
      invariant forall k :: 0 <= k < |ids| ==> (keep[k] <==> MarkedTip(rows, ids, own, head, losers, i, k))
    {
      var id := ids[i];
      var isHead := head == Some(id);
      var isTip := id !in referenced;
      assert isTip <==> IsTip(rows, id);
      if isHead || (isTip && id !in losers) {
        keep[i] := true;
        match owning[i] {
          case Some(f) => keep[f] := true;
          case None =>
        }
      }
      forall k | 0 <= k < |ids| { OneMoreTip(rows, ids, own, head, losers, i, k); }
    }
    forall k | 0 <= k < |ids|
      ensures keep[k] <==> Protected(rows, head, losers, ids[k]) || OwnsProtected(rows, head, losers, ids[k])
    {
      TipMeaning(rows, ids, own, head, losers, k);
    }
  }

  lemma OneMoreTip(
    rows: Versions, ids: seq<VersionId>, owning: seq<Option<nat>>, head: Option<VersionId>,
    losers: set<VersionId>, i: nat, k: nat)
    requires |owning| == |ids| && i < |ids| && k < |ids|
    ensures MarkedTip(rows, ids, owning, head, losers, i + 1, k) <==>
      || MarkedTip(rows, ids, owning, head, losers, i, k)
      || (Protected(rows, head, losers, ids[i]) && (i == k || owning[i] == Some(k)))
  {
  }

  lemma TipMeaning(
    rows: Versions, ids: seq<VersionId>, owning: seq<Option<nat>>, head: Option<VersionId>,
    losers: set<VersionId>, k: nat)
    requires OneGame(rows, ids) && |owning| == |ids| && k < |ids|
    requires forall i :: 0 <= i < |ids| ==> OwnerAt(rows, ids, owning[i], i)
    ensures MarkedTip(rows, ids, owning, head, losers, |ids|, k)
        <==> Protected(rows, head, losers, ids[k]) || OwnsProtected(rows, head, losers, ids[k])
  {
    if MarkedTip(rows, ids, owning, head, losers, |ids|, k) {
      var t :| 0 <= t < |ids| && Protected(rows, head, losers, ids[t]) && (t == k || owning[t] == Some(k));
      OwnerIsOwns(rows, ids, owning[t], t, k);
    }
    if OwnsProtected(rows, head, losers, ids[k]) {
      var v :| v in rows && Protected(rows, head, losers, v) && Owns(rows, ids[k], v);
      var t :| 0 <= t < |ids| && ids[t] == v;
      OwnerIsOwns(rows, ids, owning[t], t, k);
    }
  }

  /** Strictly ascending indices into `ids`. */
  ghost predicate Selection(ids: seq<VersionId>, sel: seq<nat>) {
    && (forall p :: 0 <= p < |sel| ==> sel[p] < |ids|)
    && (forall p, q :: 0 <= p < q < |sel| ==> sel[p] < sel[q])
  }

  /** The versions selected after position `p` are as many as the positions. */
  lemma {:induction false} SelectedAfter(rows: Versions, ids: seq<VersionId>, sel: seq<nat>, p: nat, s: set<VersionId>)
    requires OneGame(rows, ids) && Selection(ids, sel) && p <= |sel|
    requires forall v :: v in s <==> exists q :: p <= q < |sel| && ids[sel[q]] == v
    ensures |s| == |sel| - p
    decreases |sel| - p
  {
    if p == |sel| {
      assert s == {};
    } else {
      var v := ids[sel[p]];
      forall w ensures w in s - {v} <==> exists q :: p + 1 <= q < |sel| && ids[sel[q]] == w {
        if exists q :: p + 1 <= q < |sel| && ids[sel[q]] == w {
          var q :| p + 1 <= q < |sel| && ids[sel[q]] == w;
          IndexOrder(rows, ids, sel[p], sel[q]);
        }
      }
      SelectedAfter(rows, ids, sel, p + 1, s - {v});
    }
  }

  ghost predicate SelectsFulls(rows: Versions, ids: seq<VersionId>, sel: seq<nat>, upTo: nat)
    requires upTo <= |ids| && forall k :: 0 <= k < |ids| ==> ids[k] in rows
  {
    Selection(ids, sel) && forall k :: 0 <= k < |ids| ==> (k in sel <==> k < upTo && IsFull(rows, ids[k]))
  }

  lemma FullRank(rows: Versions, ids: seq<VersionId>, fulls: seq<nat>, p: nat)
    requires OneGame(rows, ids) && SelectsFulls(rows, ids, fulls, |ids|) && p < |fulls|
    ensures |NewerFulls(rows, ids[fulls[p]])| == |fulls| - 1 - p
  {
    var f := ids[fulls[p]];
    forall v ensures v in NewerFulls(rows, f) <==> exists q :: p + 1 <= q < |fulls| && ids[fulls[q]] == v {
      if v in NewerFulls(rows, f) {
        var k :| 0 <= k < |ids| && ids[k] == v;
        assert k in fulls;
        var q :| 0 <= q < |fulls| && fulls[q] == k;
        IndexOrder(rows, ids, fulls[p], k);
      }
      if q :| p + 1 <= q < |fulls| && ids[fulls[q]] == v {
        IndexOrder(rows, ids, fulls[p], fulls[q]);
        assert fulls[q] in fulls;
      }
    }
    SelectedAfter(rows, ids, fulls, p + 1, NewerFulls(rows, f));
  }

  function SaturatingSub(a: nat, b: nat): nat {
    if a >= b then a - b else 0
  }

  method FullIndices(rows: Versions, ids: seq<VersionId>) returns (fulls: seq<nat>)
    requires OneGame(rows, ids)
    ensures SelectsFulls(rows, ids, fulls, |ids|)
  {
    fulls := [];
    for i := 0 to |ids|
      invariant SelectsFulls(rows, ids, fulls, i)
      invariant forall p :: 0 <= p < |fulls| ==> fulls[p] < i
    {
      if IsFull(rows, ids[i]) {
        fulls := fulls + [i];
      }
    }
  }

  /** The newest `ret.full` fulls, by index. */
  method MarkFulls(rows: Versions, ids: seq<VersionId>, ret: Retention, keep: array<bool>) returns (kept: set<nat>)
    requires OneGame(rows, ids) && keep.Length == |ids|
    modifies keep
    ensures forall k :: k in kept <==> 0 <= k < |ids| && RecentFull(rows, ret, ids[k])
    ensures forall k :: 0 <= k < |ids| ==> (keep[k] <==> old(keep[k]) || k in kept)
  {
    var fulls := FullIndices(rows, ids);
    var from := SaturatingSub(|fulls|, ret.full);
    kept := set p | from <= p < |fulls| :: fulls[p];
    forall k ensures k in kept <==> 0 <= k < |ids| && RecentFull(rows, ret, ids[k]) {
      if k in kept {
        var p :| from <= p < |fulls| && fulls[p] == k;
        assert k in fulls;
        FullRank(rows, ids, fulls, p);
      }
      if 0 <= k < |ids| && RecentFull(rows, ret, ids[k]) {
        assert k in fulls;
        var p :| 0 <= p < |fulls| && fulls[p] == k;
        FullRank(rows, ids, fulls, p);
      }
    }
    for p := from to |fulls|
      invariant forall k :: 0 <= k < |ids| ==> (keep[k] <==> old(keep[k]) || exists q :: from <= q < p && fulls[q] == k)
    {
      keep[fulls[p]] := true;
    }
  }

  // ---- differentials by full ----

  ghost predicate SelectsDiffs(
    rows: Versions, ids: seq<VersionId>, owning: seq<Option<nat>>, f: nat, sel: seq<nat>, upTo: nat)
    requires |owning| == |ids| && upTo <= |ids| && forall k :: 0 <= k < |ids| ==> ids[k] in rows
  {
    Selection(ids, sel) && forall k :: 0 <= k < |ids| ==> (k in sel <==>
        k < upTo && !IsFull(rows, ids[k]) && owning[k] == Some(f))
  }

  function Group(groups: map<nat, seq<nat>>, f: nat): seq<nat> {
    if f in groups then groups[f] else []
  }

  ghost predicate Grouped(
    rows: Versions, ids: seq<VersionId>, owning: seq<Option<nat>>, groups: map<nat, seq<nat>>, upTo: nat)
    requires |owning| == |ids| && upTo <= |ids| && forall k :: 0 <= k < |ids| ==> ids[k] in rows
  {
    forall f :: SelectsDiffs(rows, ids, owning, f, Group(groups, f), upTo)
  }

  method GroupDiffs(
    rows: Versions, ids: seq<VersionId>, owning: array<Option<nat>>)
    returns (groups: map<nat, seq<nat>>)
    requires OneGame(rows, ids) && owning.Length == |ids|
    ensures Grouped(rows, ids, owning[..], groups, |ids|)
  {
    groups := map[];
    for i := 0 to |ids|
      invariant Grouped(rows, ids, owning[..], groups, i)
    {
      GroupedStep(rows, ids, owning[..], groups, i);
      if !IsFull(rows, ids[i]) {
        match owning[i] {
          case Some(o) => groups := groups[o := Group(groups, o) + [i]];
          case None =>
        }
      }
    }
  }

  lemma GroupedStep(rows: Versions, ids: seq<VersionId>, owning: seq<Option<nat>>, groups: map<nat, seq<nat>>, i: nat)
    requires OneGame(rows, ids) && |owning| == |ids| && i < |ids| && Grouped(rows, ids, owning, groups, i)
    ensures !IsFull(rows, ids[i]) && owning[i].Some? ==>
      Grouped(rows, ids, owning, groups[owning[i].value := Group(groups, owning[i].value) + [i]], i + 1)
    ensures IsFull(rows, ids[i]) || owning[i].None? ==> Grouped(rows, ids, owning, groups, i + 1)
  {
    forall f: nat
      ensures SelectsDiffs(rows, ids, owning, f,
                           if !IsFull(rows, ids[i]) && owning[i] == Some(f) then Group(groups, f) + [i]
                           else Group(groups, f), i + 1)
    {
      assert SelectsDiffs(rows, ids, owning, f, Group(groups, f), i);
      GroupStep(rows, ids, owning, f, Group(groups, f), i);
    }
    if !IsFull(rows, ids[i]) && owning[i].Some? {
      var o := owning[i].value;
      var more := groups[o := Group(groups, o) + [i]];
      forall f: nat ensures SelectsDiffs(rows, ids, owning, f, Group(more, f), i + 1) {
        assert Group(more, f) == if owning[i] == Some(f) then Group(groups, f) + [i] else Group(groups, f);
      }
    }
  }

  lemma GroupStep(rows: Versions, ids: seq<VersionId>, owning: seq<Option<nat>>, f: nat, group: seq<nat>, i: nat)
    requires OneGame(rows, ids) && |owning| == |ids| && i < |ids| && SelectsDiffs(rows, ids, owning, f, group, i)
    ensures SelectsDiffs(rows, ids, owning, f,
                         if !IsFull(rows, ids[i]) && owning[i] == Some(f) then group + [i] else group, i + 1)
  {
    if !IsFull(rows, ids[i]) && owning[i] == Some(f) { GroupGains(rows, ids, owning, f, group, i); }
  }

  lemma GroupGains(rows: Versions, ids: seq<VersionId>, owning: seq<Option<nat>>, f: nat, group: seq<nat>, i: nat)
    requires |owning| == |ids| && i < |ids| && forall k :: 0 <= k < |ids| ==> ids[k] in rows
    requires SelectsDiffs(rows, ids, owning, f, group, i) && !IsFull(rows, ids[i]) && owning[i] == Some(f)
    ensures SelectsDiffs(rows, ids, owning, f, group + [i], i + 1)
  {
    forall p | 0 <= p < |group| ensures group[p] < i { assert group[p] in group; }
    assert forall k: nat :: k in group + [i] <==> k in group || k == i;
  }

  lemma DiffRank(rows: Versions, ids: seq<VersionId>, owning: seq<Option<nat>>, f: nat, group: seq<nat>, p: nat)
    requires OneGame(rows, ids) && |owning| == |ids| && f < |ids|
    requires forall i :: 0 <= i < |ids| ==> OwnerAt(rows, ids, owning[i], i)
    requires SelectsDiffs(rows, ids, owning, f, group, |ids|) && p < |group|
    ensures |NewerDiffs(rows, ids[f], ids[group[p]])| == |group| - 1 - p
  {
    var v := ids[group[p]];
    forall w ensures w in NewerDiffs(rows, ids[f], v) <==> exists q :: p + 1 <= q < |group| && ids[group[q]] == w {
      if w in NewerDiffs(rows, ids[f], v) {
        var k :| 0 <= k < |ids| && ids[k] == w;
        OwnerIsOwns(rows, ids, owning[k], k, f);
        assert k in group;
        var q :| 0 <= q < |group| && group[q] == k;
        IndexOrder(rows, ids, group[p], k);
      }
      if q :| p + 1 <= q < |group| && ids[group[q]] == w {
        IndexOrder(rows, ids, group[p], group[q]);
        assert group[q] in group;
        OwnerIsOwns(rows, ids, owning[group[q]], group[q], f);
      }
    }
    SelectedAfter(rows, ids, group, p + 1, NewerDiffs(rows, ids[f], v));
  }

  /** `k` is among the newest `m` of a group. */
  ghost predicate InTail(group: seq<nat>, m: nat, k: nat) {
    exists p :: SaturatingSub(|group|, m) <= p < |group| && group[p] == k
  }

  ghost predicate MarkedDiff(groups: map<nat, seq<nat>>, kept: set<nat>, m: nat, done: set<nat>, k: nat) {
    exists f :: f in kept && f in done && InTail(Group(groups, f), m, k)
  }

  lemma TailMeaning(
    rows: Versions, ids: seq<VersionId>, owning: seq<Option<nat>>, f: nat, group: seq<nat>, m: nat, k: nat)
    requires OneGame(rows, ids) && |owning| == |ids| && f < |ids| && k < |ids|
    requires forall i :: 0 <= i < |ids| ==> OwnerAt(rows, ids, owning[i], i)
    requires SelectsDiffs(rows, ids, owning, f, group, |ids|)
    ensures InTail(group, m, k) <==>
      !IsFull(rows, ids[k]) && Owns(rows, ids[f], ids[k]) && |NewerDiffs(rows, ids[f], ids[k])| < m
  {
    OwnerIsOwns(rows, ids, owning[k], k, f);
    if k in group {
      var p :| 0 <= p < |group| && group[p] == k;
      DiffRank(rows, ids, owning, f, group, p);
      if InTail(group, m, k) {
        var q :| SaturatingSub(|group|, m) <= q < |group| && group[q] == k;
        assert p == q;
      }
    }
  }

  lemma MarkedDiffMeaning(
    rows: Versions, ids: seq<VersionId>, owning: seq<Option<nat>>, groups: map<nat, seq<nat>>, kept: set<nat>,
    ret: Retention, k: nat)
    requires OneGame(rows, ids) && |owning| == |ids| && k < |ids|
    requires forall i :: 0 <= i < |ids| ==> OwnerAt(rows, ids, owning[i], i)
    requires Grouped(rows, ids, owning, groups, |ids|)
    requires forall f :: f in kept <==> 0 <= f < |ids| && RecentFull(rows, ret, ids[f])
    ensures MarkedDiff(groups, kept, ret.diffPerFull, groups.Keys, k) <==> RecentDiff(rows, ret, ids[k])
  {
    if MarkedDiff(groups, kept, ret.diffPerFull, groups.Keys, k) {
      var f :| f in kept && f in groups.Keys && InTail(Group(groups, f), ret.diffPerFull, k);
      TailMeaning(rows, ids, owning, f, Group(groups, f), ret.diffPerFull, k);
    }
    if RecentDiff(rows, ret, ids[k]) {
      var o :| o in rows && RecentFull(rows, ret, o) && Owns(rows, o, ids[k])
          && |NewerDiffs(rows, o, ids[k])| < ret.diffPerFull;
      var f :| 0 <= f < |ids| && ids[f] == o;
      TailMeaning(rows, ids, owning, f, Group(groups, f), ret.diffPerFull, k);
    }
  }

  /** The newest `ret.diffPerFull` differentials of each kept full. */
  method MarkDiffs(
    rows: Versions, ids: seq<VersionId>, owning: array<Option<nat>>, kept: set<nat>, ret: Retention,
    keep: array<bool>)
    requires OneGame(rows, ids) && owning.Length == |ids| == keep.Length
    requires forall i :: 0 <= i < |ids| ==> OwnerAt(rows, ids, owning[i], i)
    requires forall f :: f in kept <==> 0 <= f < |ids| && RecentFull(rows, ret, ids[f])
    modifies keep
    ensures forall k :: 0 <= k < |ids| ==> (keep[k] <==> old(keep[k]) || RecentDiff(rows, ret, ids[k]))
  {
    var groups := GroupDiffs(rows, ids, owning);
    ghost var own := owning[..];
    var rest := groups.Keys;
    ghost var done: set<nat> := {};
    while rest != {}
      invariant owning[..] == own && done + rest == groups.Keys && done !! rest
      invariant forall k :: 0 <= k < |ids| ==> (keep[k] <==>
          old(keep[k]) || MarkedDiff(groups, kept, ret.diffPerFull, done, k))
      decreases rest
    {
      var f :| f in rest;
      var group := groups[f];
      assert SelectsDiffs(rows, ids, own, f, Group(groups, f), |ids|);
      if f in kept {
        MarkTail(keep, group, SaturatingSub(|group|, ret.diffPerFull));
      }
      forall k | 0 <= k < |ids|
        ensures MarkedDiff(groups, kept, ret.diffPerFull, done + {f}, k) <==>
          || MarkedDiff(groups, kept, ret.diffPerFull, done, k)
          || (f in kept && InTail(group, ret.diffPerFull, k))
      {
        OneMoreGroup(groups, kept, ret.diffPerFull, done, f, k);
      }
      rest, done := rest - {f}, done + {f};
    }
    assert done == groups.Keys;
    forall k | 0 <= k < |ids| ensures keep[k] <==> old(keep[k]) || RecentDiff(rows, ret, ids[k]) {
      MarkedDiffMeaning(rows, ids, own, groups, kept, ret, k);
    }
  }

  lemma OneMoreGroup(groups: map<nat, seq<nat>>, kept: set<nat>, m: nat, done: set<nat>, f: nat, k: nat)
    requires f in groups
    ensures MarkedDiff(groups, kept, m, done + {f}, k) <==>
      || MarkedDiff(groups, kept, m, done, k)
      || (f in kept && InTail(groups[f], m, k))
  {
    if f in kept && InTail(groups[f], m, k) { assert f in done + {f} && InTail(Group(groups, f), m, k); }
  }

  method MarkTail(keep: array<bool>, group: seq<nat>, from: nat)
    requires from <= |group| && forall p :: 0 <= p < |group| ==> group[p] < keep.Length
    modifies keep
    ensures forall k :: 0 <= k < keep.Length ==> (keep[k] <==>
        old(keep[k]) || exists p :: from <= p < |group| && group[p] == k)
  {
    for p := from to |group|
      invariant forall k :: 0 <= k < keep.Length ==> (keep[k] <==>
          old(keep[k]) || exists q :: from <= q < p && group[q] == k)
    {
      keep[group[p]] := true;
    }
  }

  /** The whole of `prune_game`'s marking: exactly the versions retention keeps. */
  method MarkKept(rows: Versions, ids: seq<VersionId>, head: Option<VersionId>, losers: set<VersionId>, ret: Retention)
    returns (keep: array<bool>)
    requires OneGame(rows, ids)
    ensures fresh(keep) && keep.Length == |ids|
    ensures forall k :: 0 <= k < |ids| ==> (keep[k] <==> Keep(rows, head, losers, ret, ids[k]))
  {
    var owning := OwningFulls(rows, ids);
    keep := new bool[|ids|](_ => false);
    MarkProtected(rows, ids, owning, head, losers, keep);
    var kept := MarkFulls(rows, ids, ret, keep);
    MarkDiffs(rows, ids, owning, kept, ret, keep);
  }

  // ---- offline catch-up ----

  function LastSeq(last: map<GameId, nat>, g: GameId): nat {
    if g in last then last[g] else 0
  }

  datatype Notice = Notice(game: GameId, id: VersionId, seqNo: nat)

  predicate NoticeBefore(a: Notice, b: Notice) {
    a.game < b.game || (a.game == b.game && a.seqNo < b.seqNo)
  }

  ghost predicate IsMissed(versions: Versions, last: map<GameId, nat>, n: Notice) {
    && n.id in versions && versions[n.id].game == n.game && versions[n.id].seqNo == n.seqNo
    && n.seqNo > LastSeq(last, n.game)
  }

  /** A replay lists exactly the missed versions, in ascending (game, seq) order. */
  ghost predicate IsReplay(versions: Versions, last: map<GameId, nat>, out: seq<Notice>) {
    && (forall n :: n in out <==> IsMissed(versions, last, n))
    && (forall i, j :: 0 <= i < j < |out| ==> NoticeBefore(out[i], out[j]))
  }

  /** By game, and within a game by seq, each version past the client's mark of its game. */
  lemma ReplayLists(versions: Versions, last: map<GameId, nat>, out: seq<Notice>)
    requires IsReplay(versions, last, out)
    ensures forall n :: n in out <==>
      && n.id in versions && versions[n.id].game == n.game && versions[n.id].seqNo == n.seqNo
      && n.seqNo > (if n.game in last then last[n.game] else 0)
    ensures forall i, j :: 0 <= i < j < |out| ==>
      out[i].game < out[j].game || (out[i].game == out[j].game && out[i].seqNo < out[j].seqNo)
  {
    forall i, j | 0 <= i < j < |out|
      ensures out[i].game < out[j].game || (out[i].game == out[j].game && out[i].seqNo < out[j].seqNo)
    {
      assert NoticeBefore(out[i], out[j]);
    }
  }

  // ---- the store ----

  class Store {
    var heads: map<GameId, Option<VersionId>>
    var versions: Versions
    var blobs: map<Archive, int>
    var losers: set<(GameId, VersionId)>
    var nextId: nat

    function State(): Tables
      reads this
    {
      Tables(heads, versions, blobs, losers, nextId)
    }

    constructor ()
      ensures State() == EMPTY
    {
      heads, versions, blobs, losers, nextId := map[], map[], map[], {}, 0;
    }

    /** `INSERT OR IGNORE` of a blob row with no references yet. */
    method StoreBlob(a: Archive)
      modifies this`blobs
      ensures State() == PutBlob(old(State()), a)
    {
      if a !in blobs {
        blobs := blobs[a := 0];
      }
    }

    method CreateVersion(g: GameId, req: CreateVersion) returns (outcome: Outcome)
      modifies this
      ensures (State(), outcome) == Create(old(State()), g, req)
    {
      if req.blob !in blobs || g !in heads || (req.parent.Some? && req.parent.value !in versions) {
        return Rejected;
      }
      var seqNo := MaxSeq(versions, g) + 1;
      var id := nextId;
      nextId := nextId + 1;
      versions := versions[id := Version(g, req.device, req.parent, req.kind, req.files, req.blob, seqNo)];
      blobs := blobs[req.blob := blobs[req.blob] + 1];
      var prevHead := heads[g];
      var advanced := heads[g] == req.parent;
      if advanced {
        heads := heads[g := Some(id)];
      }
      outcome := if advanced then FastForward(id) else Conflict(prevHead, id);
    }

    method ResolveConflict(g: GameId, winner: VersionId) returns (outcome: ResolveOutcome)
      modifies this`heads, this`losers
      ensures (State(), outcome) == Resolve(old(State()), g, winner)
    {
      if g !in heads {
        return GameNotFound;
      }
      var curHead := heads[g];
      if winner !in versions || versions[winner].game != g {
        return WinnerNotFound;
      }
      heads := heads[g := Some(winner)];
      if curHead.Some? && curHead.value != winner {
        losers := losers + {(g, curHead.value)};
      } else {
        assert losers == losers + {};
      }
      outcome := Resolved(versions[winner].seqNo);
    }

    /** Null the parents that point at `v`, row by row. */
    method NullParents(v: VersionId)
      modifies this`versions
      ensures versions.Keys == old(versions).Keys
      ensures forall w :: w in versions ==> versions[w] == Unlink(old(versions)[w], {v})
    {
      var rest := versions.Keys;
      while rest != {}
        invariant rest <= old(versions).Keys && versions.Keys == old(versions).Keys
        invariant forall w :: w in versions ==>
          versions[w] == if w in rest then old(versions)[w] else Unlink(old(versions)[w], {v})
        decreases rest
      {
        var w :| w in rest;
        versions := versions[w := Unlink(versions[w], {v})];
        rest := rest - {w};
      }
    }

    /** One reference to `a` goes, and its row with the last. */
    method DropReference(a: Archive) returns (blobDeleted: bool)
      modifies this`blobs
      ensures blobs == DropOne(old(blobs), a)
      ensures blobDeleted <==> a in old(blobs) && a !in blobs
    {
      if a in blobs {
        blobs := blobs[a := blobs[a] - 1];
      }
      blobDeleted := a in blobs && blobs[a] <= 0;
      if blobDeleted {
        blobs := blobs - {a};
      }
    }

    /** One version row goes: null the parents into it, delete it, dereference its
        blob and drop the blob row if that was its last reference. */
    method DeleteVersionAndDeref(v: VersionId) returns (blobDeleted: bool)
      requires v in versions
      modifies this`versions, this`blobs
      ensures State() == RemoveAll(old(State()), {v})
      ensures blobDeleted <==> old(versions)[v].blob in old(blobs) && old(versions)[v].blob !in blobs
    {
      var a := versions[v].blob;
      NullParents(v);
      UnlinkOne(old(versions), versions, v);
      versions := versions - {v};
      blobDeleted := DropReference(a);
      DerefOne(old(State()), v);
    }

    /** One retention pass over one game, counting what it deletes. */
    method PruneGame(g: GameId, ret: Retention) returns (versionsPruned: nat)
      requires TablesOk(State())
      modifies this`versions, this`blobs
      ensures State() == Prune(old(State()), g, ret)
      ensures versionsPruned == |old(versions)| - |versions|
    {
      versionsPruned := 0;
      if g !in heads {
        return;
      }
      var rows := Rows(State(), g);
      var ids := ListGame(g);
      var keep := MarkKept(rows, ids, heads[g], LosersOf(State(), g), ret);
      ghost var t := State();
      versionsPruned := DeleteUnkept(g, ids, keep[..]);
      assert Unkept(ids, keep[..]) == DeadIn(t, g, ret);
      PrunedCount(t.versions, DeadIn(t, g, ret));
    }

    method DeleteUnkept(g: GameId, ids: seq<VersionId>, keep: seq<bool>) returns (versionsPruned: nat)
      requires OneGame(Rows(State(), g), ids) && |keep| == |ids| && TablesOk(State())
      modifies this`versions, this`blobs
      ensures State() == RemoveAll(old(State()), Unkept(ids, keep))
      ensures versionsPruned == |Unkept(ids, keep)|
    {
      versionsPruned := 0;
      ghost var t := State();
      RemoveNone(t);
      for i := 0 to |ids|
        invariant State() == RemoveAll(t, Unkept(ids[..i], keep[..i]))
        invariant versionsPruned == |Unkept(ids[..i], keep[..i])|
      {
        NextUnkept(t, g, ids, keep, i);
        if !keep[i] {
          ghost var s := State();
          assert ids[i] in s.versions;
          var _ := DeleteVersionAndDeref(ids[i]);
          assert State() == RemoveAll(s, {ids[i]});
          versionsPruned := versionsPruned + 1;
        }
      }
      assert ids[..|ids|] == ids && keep[..|ids|] == keep;
    }

    /** `SELECT .. WHERE game_id = ? ORDER BY seq`. */
    method ListGame(g: GameId) returns (ids: seq<VersionId>)
      requires TablesOk(State())
      ensures OneGame(Rows(State(), g), ids)
    {
      var rows := Rows(State(), g);
      forall v, w | v in rows && w in rows && SameSlot(rows[v], rows[w]) ensures v == w {
        assert SameSlot(versions[v], versions[w]);
      }
      ids := OrderRows(rows);
    }

    /** Offline catch-up: versions above the device's last seq of each game. */
    method VersionsSince(last: map<GameId, nat>) returns (out: seq<Notice>)
      requires TablesOk(State())
      ensures IsReplay(versions, last, out)
      ensures forall n :: n in out <==>
        && n.id in versions && versions[n.id].game == n.game && versions[n.id].seqNo == n.seqNo
        && n.seqNo > (if n.game in last then last[n.game] else 0)
      ensures forall i, j :: 0 <= i < j < |out| ==>
        out[i].game < out[j].game || (out[i].game == out[j].game && out[i].seqNo < out[j].seqNo)
    {
      var ids := OrderRows(versions);
      out := [];
      for i := 0 to |ids|
        invariant out == MissedOf(versions, last, ids[..i])
      {
        var row := versions[ids[i]];
        if row.seqNo > LastSeq(last, row.game) {
          out := out + [Notice(row.game, ids[i], row.seqNo)];
        }
        assert ids[..i + 1][..i] == ids[..i];
      }
      assert ids[..|ids|] == ids;
      MissedIsReplay(versions, last, ids);
      ReplayLists(versions, last, out);
    }
  }

  /** The listed ids whose mark is unset. */
  ghost function Unkept(ids: seq<VersionId>, keep: seq<bool>): set<VersionId>
    requires |keep| == |ids|
  {
    set k | 0 <= k < |ids| && !keep[k] :: ids[k]
  }

  /** What is deleted by the time index `i` is done. */
  lemma NextUnkept(t: Tables, g: GameId, ids: seq<VersionId>, keep: seq<bool>, i: nat)
    requires OneGame(Rows(t, g), ids) && |keep| == |ids| && i < |ids|
    ensures var before, after := Unkept(ids[..i], keep[..i]), Unkept(ids[..i + 1], keep[..i + 1]);
      if keep[i] then after == before
      else
        && ids[i] in RemoveAll(t, before).versions
        && RemoveAll(t, after) == RemoveAll(RemoveAll(t, before), {ids[i]})
        && |after| == |before| + 1
  {
    var before := Unkept(ids[..i], keep[..i]);
    UnkeptStep(Rows(t, g), ids, keep, i);
    if !keep[i] {
      assert ids[i] in Rows(t, g);
      RemoveOneMore(t, before, ids[i]);
    }
  }

  lemma UnkeptStep(rows: Versions, ids: seq<VersionId>, keep: seq<bool>, i: nat)
    requires OneGame(rows, ids) && |keep| == |ids| && i < |ids|
    ensures ids[i] !in Unkept(ids[..i], keep[..i])
    ensures Unkept(ids[..i + 1], keep[..i + 1]) == Unkept(ids[..i], keep[..i]) + (if keep[i] then {} else {ids[i]})
  {
    forall k | 0 <= k < i ensures ids[k] != ids[i] { IndexOrder(rows, ids, k, i); }
    var before, after := Unkept(ids[..i], keep[..i]), Unkept(ids[..i + 1], keep[..i + 1]);
    forall v | v in before ensures v in after {
      var k :| 0 <= k < i && !keep[..i][k] && ids[..i][k] == v;
      assert !keep[..i + 1][k] && ids[..i + 1][k] == v;
    }
    forall v | v in after ensures v in before + (if keep[i] then {} else {ids[i]}) {
      var k :| 0 <= k < i + 1 && !keep[..i + 1][k] && ids[..i + 1][k] == v;
      if k < i { assert !keep[..i][k] && ids[..i][k] == v; }
    }
    if !keep[i] { assert !keep[..i + 1][i] && ids[..i + 1][i] == ids[i]; }
  }

  function MissedOf(versions: Versions, last: map<GameId, nat>, ids: seq<VersionId>): seq<Notice>
    requires forall v :: v in ids ==> v in versions
  {
    if ids == [] then []
    else
      var rest, id := MissedOf(versions, last, ids[..|ids| - 1]), ids[|ids| - 1];
      if versions[id].seqNo > LastSeq(last, versions[id].game)
      then rest + [Notice(versions[id].game, id, versions[id].seqNo)] else rest
  }

  lemma {:induction false} MissedMembers(versions: Versions, last: map<GameId, nat>, ids: seq<VersionId>)
    requires forall v :: v in ids ==> v in versions
    ensures forall n :: n in MissedOf(versions, last, ids) <==> n.id in ids && IsMissed(versions, last, n)
  {
    if ids != [] {
      MissedMembers(versions, last, ids[..|ids| - 1]);
      assert ids == ids[..|ids| - 1] + [ids[|ids| - 1]];
    }
  }

  lemma {:induction false} MissedSorted(versions: Versions, last: map<GameId, nat>, ids: seq<VersionId>)
    requires forall v :: v in ids ==> v in versions
    requires forall i, j :: 0 <= i < j < |ids| ==> Before(versions[ids[i]], versions[ids[j]])
    ensures forall i, j :: 0 <= i < j < |MissedOf(versions, last, ids)| ==>
      NoticeBefore(MissedOf(versions, last, ids)[i], MissedOf(versions, last, ids)[j])
  {
    if ids != [] {
      var front := ids[..|ids| - 1];
      MissedSorted(versions, last, front);
      MissedMembers(versions, last, front);
      var rest := MissedOf(versions, last, front);
      forall i | 0 <= i < |rest|
        ensures var v := ids[|ids| - 1]; NoticeBefore(rest[i], Notice(versions[v].game, v, versions[v].seqNo))
      {
        assert rest[i] in rest;
        var k :| 0 <= k < |front| && front[k] == rest[i].id;
        assert Before(versions[ids[k]], versions[ids[|ids| - 1]]);
      }
    }
  }

  lemma MissedIsReplay(versions: Versions, last: map<GameId, nat>, ids: seq<VersionId>)
    requires Listing(versions, ids)
    ensures IsReplay(versions, last, MissedOf(versions, last, ids))
  {
    MissedMembers(versions, last, ids);
    MissedSorted(versions, last, ids);
  }

  lemma PrunedCount(versions: Versions, dead: set<VersionId>)
    requires dead <= versions.Keys
    ensures |UnlinkAll(versions, dead)| == |versions| - |dead|
  {
    assert UnlinkAll(versions, dead).Keys == versions.Keys - dead;
    assert |versions.Keys - dead| == |versions.Keys| - |dead|;
  }
}

/** On a history without conflicts: exactly which retentions leave every survivor
    restorable (crates/savr-server/src/db.rs, `prune_game`). */
module Survival {
  import opened Types
  import opened ServerTables
  import opened Chains
  import opened Pruning
  import opened Linear

  /** Where the run of differentials after `line[i]` ends. */
  ghost function GroupEnd(rows: Versions, line: seq<VersionId>, i: nat): (e: nat)
    requires i < |line| && forall v :: v in line ==> v in rows
    ensures i < e <= |line| && forall k :: i < k < e ==> !IsFull(rows, line[k])
    ensures e < |line| ==> IsFull(rows, line[e])
    decreases |line| - i
  {
    if i + 1 == |line| || IsFull(rows, line[i + 1]) then i + 1 else GroupEnd(rows, line, i + 1)
  }

  /** The versions at places `from` up to `end`. */
  function Places(line: seq<VersionId>, from: nat, end: nat): set<VersionId>
    requires from <= end <= |line|
  {
    set j | from <= j < end :: line[j]
  }

  lemma {:induction false} PlacesCount(line: seq<VersionId>, from: nat, end: nat)
    requires from <= end <= |line|
    requires forall i, j :: 0 <= i < j < |line| ==> line[i] != line[j]
    ensures |Places(line, from, end)| == end - from
    decreases end
  {
    if from == end {
      assert Places(line, from, end) == {};
    } else {
      PlacesCount(line, from, end - 1);
      assert Places(line, from, end) == Places(line, from, end - 1) + {line[end - 1]};
    }
  }

  lemma {:induction false} OwnerOfGroup(rows: Versions, line: seq<VersionId>, f: nat, i: nat)
    requires i < |line| && (forall v :: v in line ==> v in rows) && IsFull(rows, line[0])
    requires f <= i && IsFull(rows, line[f]) && forall k :: f < k <= i ==> !IsFull(rows, line[k])
    ensures OwnerIndex(rows, line, i) == f
  {
    if i > f { OwnerOfGroup(rows, line, f, i - 1); }
  }

  /** Newer differentials of the same full are the rest of the run. */
  lemma NewerDiffsArePlaces(rows: Versions, head: Option<VersionId>, line: seq<VersionId>, f: nat, i: nat)
    requires IsLine(rows, head, line) && f <= i < |line| && IsFull(rows, line[f]) && i < GroupEnd(rows, line, f)
    ensures NewerDiffs(rows, line[f], line[i]) == Places(line, i + 1, GroupEnd(rows, line, f))
  {
    var e := GroupEnd(rows, line, f);
    forall w | w in NewerDiffs(rows, line[f], line[i]) ensures w in Places(line, i + 1, e) {
      var j := PlaceOf(rows, head, line, w);
      PlaceOrder(rows, head, line, i, j);
      LineOwner(rows, head, line, j, line[f]);
      PlaceOrder(rows, head, line, f, OwnerIndex(rows, line, j));
    }
    forall j | i < j < e ensures line[j] in NewerDiffs(rows, line[f], line[i]) {
      OwnerOfGroup(rows, line, f, j);
      LineOwner(rows, head, line, j, line[f]);
      PlaceOrder(rows, head, line, i, j);
    }
  }

  lemma NewerDiffsCount(rows: Versions, head: Option<VersionId>, line: seq<VersionId>, f: nat, i: nat)
    requires IsLine(rows, head, line) && f <= i < |line| && IsFull(rows, line[f]) && i < GroupEnd(rows, line, f)
    ensures |NewerDiffs(rows, line[f], line[i])| == GroupEnd(rows, line, f) - 1 - i
  {
    NewerDiffsArePlaces(rows, head, line, f, i);
    forall j, k | 0 <= j < k < |line| ensures line[j] != line[k] { PlaceOrder(rows, head, line, j, k); }
    PlacesCount(line, i + 1, GroupEnd(rows, line, f));
  }

  /** Which members of a recent full's run are kept. */
  lemma KeptInGroup(
    rows: Versions, head: Option<VersionId>, line: seq<VersionId>, losers: set<VersionId>, ret: Retention,
    f: nat, i: nat)
    requires IsLine(rows, head, line) && f < i < |line| && RecentFull(rows, ret, line[f]) && i < GroupEnd(rows, line, f)
    ensures Keep(rows, head, losers, ret, line[i]) <==>
      i == |line| - 1 || GroupEnd(rows, line, f) - 1 - i < ret.diffPerFull
  {
    OwnerOfGroup(rows, line, f, i);
    LineOwner(rows, head, line, i, line[f]);
    NewerDiffsCount(rows, head, line, f, i);
    OnlyHeadProtected(rows, head, line, losers, i);
    assert !OwnsProtected(rows, head, losers, line[i]);
    if RecentDiff(rows, ret, line[i]) {
      var h :| h in rows && RecentFull(rows, ret, h) && Owns(rows, h, line[i])
               && |NewerDiffs(rows, h, line[i])| < ret.diffPerFull;
      LineOwner(rows, head, line, i, h);
    }
  }

  /** Retention is ample for full `line[f]`: it spares its whole run, or of the run
      nothing at all, or the head's lone differential. */
  predicate AmpleFor(rows: Versions, line: seq<VersionId>, ret: Retention, f: nat)
    requires f < |line| && line[f] in rows
  {
    var owned := |NewerDiffs(rows, line[f], line[f])|;
    || owned <= ret.diffPerFull
    || (ret.diffPerFull == 0 && (NewerFulls(rows, line[f]) != {} || owned <= 1))
  }

  /** Every version a pass leaves can still be restored. */
  ghost predicate AllIntact(rows: Versions, head: Option<VersionId>, losers: set<VersionId>, ret: Retention)
    requires Acyclic(rows)
  {
    forall v :: v in rows && Keep(rows, head, losers, ret, v) ==> Intact(Chain(rows, v), Dead(rows, head, losers, ret))
  }

  /** The newest full is the one whose run goes to the end of the line. */
  lemma NewestFullEndsLine(rows: Versions, head: Option<VersionId>, line: seq<VersionId>, f: nat)
    requires IsLine(rows, head, line) && f < |line| && IsFull(rows, line[f])
    ensures NewerFulls(rows, line[f]) == {} <==> GroupEnd(rows, line, f) == |line|
  {
    var e := GroupEnd(rows, line, f);
    if e < |line| {
      PlaceOrder(rows, head, line, f, e);
      assert line[e] in NewerFulls(rows, line[f]);
    } else {
      forall w | w in rows && IsFull(rows, w) ensures rows[w].seqNo <= rows[line[f]].seqNo {
        var k := PlaceOf(rows, head, line, w);
        PlaceOrder(rows, head, line, f, k);
      }
    }
  }

  lemma RunIsCut(rows: Versions, head: Option<VersionId>, line: seq<VersionId>, ret: Retention, f: nat)
    requires IsLine(rows, head, line) && f < |line| && IsFull(rows, line[f])
    ensures var owned := GroupEnd(rows, line, f) - 1 - f;
      AmpleFor(rows, line, ret, f) <==>
        owned <= ret.diffPerFull || (ret.diffPerFull == 0 && (GroupEnd(rows, line, f) != |line| || owned <= 1))
  {
    NewerDiffsCount(rows, head, line, f, f);
    NewestFullEndsLine(rows, head, line, f);
  }

  /** In an ample run, whatever comes before a kept member is kept. */
  lemma KeptFromFull(
    rows: Versions, head: Option<VersionId>, line: seq<VersionId>, losers: set<VersionId>, ret: Retention,
    f: nat, i: nat, j: nat)
    requires IsLine(rows, head, line) && f <= j <= i < |line| && i < GroupEnd(rows, line, f)
    requires RecentFull(rows, ret, line[f]) && AmpleFor(rows, line, ret, f) && Keep(rows, head, losers, ret, line[i])
    ensures Keep(rows, head, losers, ret, line[j])
  {
    RunIsCut(rows, head, line, ret, f);
    if f < j {
      KeptInGroup(rows, head, line, losers, ret, f, i);
      KeptInGroup(rows, head, line, losers, ret, f, j);
    }
  }

  lemma SliceIntact(line: seq<VersionId>, f: nat, i: nat, dead: set<VersionId>)
    requires f <= i < |line| && forall j :: f <= j <= i ==> line[j] !in dead
    ensures Intact(Some(line[f..i + 1]), dead)
  {
    var chain := line[f..i + 1];
    forall v | v in chain ensures v !in dead {
      var k :| 0 <= k < |chain| && chain[k] == v;
      assert v == line[f + k];
    }
  }

  lemma KeptIsIntact(
    rows: Versions, head: Option<VersionId>, line: seq<VersionId>, losers: set<VersionId>, ret: Retention, i: nat)
    requires IsLine(rows, head, line) && Acyclic(rows) && ret.full >= 1 && i < |line|
    requires forall f :: 0 <= f < |line| && RecentFull(rows, ret, line[f]) ==> AmpleFor(rows, line, ret, f)
    requires Keep(rows, head, losers, ret, line[i])
    ensures Intact(Chain(rows, line[i]), Dead(rows, head, losers, ret))
  {
    var f, dead := OwnerIndex(rows, line, i), Dead(rows, head, losers, ret);
    if !RecentFull(rows, ret, line[f]) { OldGroupGoes(rows, head, line, losers, ret, i); }
    InGroup(rows, line, f, i);
    forall j | f <= j <= i ensures line[j] !in dead { KeptFromFull(rows, head, line, losers, ret, f, i, j); }
    SliceIntact(line, f, i, dead);
    LineChain(rows, head, line, i);
  }

  lemma {:induction false} InGroup(rows: Versions, line: seq<VersionId>, f: nat, i: nat)
    requires f <= i < |line| && (forall v :: v in line ==> v in rows)
    requires forall k :: f < k <= i ==> !IsFull(rows, line[k])
    ensures i < GroupEnd(rows, line, f)
    decreases i - f
  {
    if f < i { InGroup(rows, line, f + 1, i); }
  }

  /** The first kept member of a run that retention cuts. */
  function FirstKept(end: nat, most: nat): int {
    if most >= 1 then end - most else end - 1
  }

  lemma FirstIsKept(
    rows: Versions, head: Option<VersionId>, line: seq<VersionId>, losers: set<VersionId>, ret: Retention,
    f: nat, i: nat)
    requires IsLine(rows, head, line) && f < i < |line| && RecentFull(rows, ret, line[f]) && i < GroupEnd(rows, line, f)
    requires i == |line| - 1 || GroupEnd(rows, line, f) - 1 - i < ret.diffPerFull
    ensures Keep(rows, head, losers, ret, line[i])
  {
    KeptInGroup(rows, head, line, losers, ret, f, i);
  }

  lemma OneBeforeIsCut(
    rows: Versions, head: Option<VersionId>, line: seq<VersionId>, losers: set<VersionId>, ret: Retention,
    f: nat, i: nat)
    requires IsLine(rows, head, line) && f < i < |line| - 1 && RecentFull(rows, ret, line[f])
    requires i < GroupEnd(rows, line, f) && GroupEnd(rows, line, f) - 1 - i >= ret.diffPerFull
    ensures !Keep(rows, head, losers, ret, line[i])
  {
    KeptInGroup(rows, head, line, losers, ret, f, i);
  }

  lemma CutPlace(rows: Versions, head: Option<VersionId>, line: seq<VersionId>, ret: Retention, f: nat, i: int)
    requires IsLine(rows, head, line) && f < |line| && IsFull(rows, line[f]) && !AmpleFor(rows, line, ret, f)
    requires i == FirstKept(GroupEnd(rows, line, f), ret.diffPerFull)
    ensures f + 1 < i < GroupEnd(rows, line, f)
    ensures ret.diffPerFull == 0 ==> i == |line| - 1
    ensures ret.diffPerFull >= 1 ==> GroupEnd(rows, line, f) - 1 - i == ret.diffPerFull - 1
  {
    RunIsCut(rows, head, line, ret, f);
  }

  lemma CutRunBreaks(
    rows: Versions, head: Option<VersionId>, line: seq<VersionId>, dead: set<VersionId>, f: nat, i: nat)
    requires IsLine(rows, head, line) && Acyclic(rows) && f + 1 < i < |line| && i < GroupEnd(rows, line, f)
    requires IsFull(rows, line[f]) && line[i - 1] in dead
    ensures !Intact(Chain(rows, line[i]), dead)
  {
    OwnerOfGroup(rows, line, f, i);
    LineChain(rows, head, line, i);
    assert line[f..i + 1][i - 1 - f] == line[i - 1];
  }

  /** A run that retention cuts: its first kept member has lost the one before it. */
  lemma CutRun(
    rows: Versions, head: Option<VersionId>, line: seq<VersionId>, losers: set<VersionId>, ret: Retention, f: nat)
    requires IsLine(rows, head, line) && Acyclic(rows) && f < |line|
    requires RecentFull(rows, ret, line[f]) && !AmpleFor(rows, line, ret, f)
    ensures !AllIntact(rows, head, losers, ret)
  {
    var i := FirstKept(GroupEnd(rows, line, f), ret.diffPerFull);
    CutPlace(rows, head, line, ret, f, i);
    FirstIsKept(rows, head, line, losers, ret, f, i);
    OneBeforeIsCut(rows, head, line, losers, ret, f, i - 1);
    CutRunBreaks(rows, head, line, Dead(rows, head, losers, ret), f, i);
  }

  /** Exactly which retentions leave every survivor of a conflict-free history
      restorable, one full at least being retained. */
  lemma SurvivorsIntactIff(
    rows: Versions, head: Option<VersionId>, line: seq<VersionId>, losers: set<VersionId>, ret: Retention)
    requires IsLine(rows, head, line) && Acyclic(rows) && ret.full >= 1
    ensures AllIntact(rows, head, losers, ret) <==>
      forall f :: 0 <= f < |line| && RecentFull(rows, ret, line[f]) ==> AmpleFor(rows, line, ret, f)
  {
    if forall f :: 0 <= f < |line| && RecentFull(rows, ret, line[f]) ==> AmpleFor(rows, line, ret, f) {
      forall v | v in rows && Keep(rows, head, losers, ret, v)
        ensures Intact(Chain(rows, v), Dead(rows, head, losers, ret))
      {
        var i := PlaceOf(rows, head, line, v);
        KeptIsIntact(rows, head, line, losers, ret, i);
      }
    } else {
      var f :| 0 <= f < |line| && RecentFull(rows, ret, line[f]) && !AmpleFor(rows, line, ret, f);
      CutRun(rows, head, line, losers, ret, f);
    }
  }

  /** A retention of fewer differentials than the head's chain holds strands a survivor,
      unless it is just the head's lone differential that is over. */
  lemma ShortRetentionStrands(
    rows: Versions, head: Option<VersionId>, line: seq<VersionId>, losers: set<VersionId>, ret: Retention, n: nat)
    requires IsLine(rows, head, line) && Acyclic(rows) && line != [] && ret.full >= 1
    requires Chain(rows, line[|line| - 1]).Some? && |Chain(rows, line[|line| - 1]).value| == n + 1
    requires ret.diffPerFull < n && (ret.diffPerFull == 0 ==> n >= 2)
    ensures !AllIntact(rows, head, losers, ret)
  {
    var i := |line| - 1;
    var f := OwnerIndex(rows, line, i);
    LineChain(rows, head, line, i);
    InGroup(rows, line, f, i);
    NewestFullIsRecent(rows, head, line, ret);
    RunIsCut(rows, head, line, ret, f);
    CutRun(rows, head, line, losers, ret, f);
  }
}

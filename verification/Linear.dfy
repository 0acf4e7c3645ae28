/** Histories without conflicts: retention cuts them to a suffix that starts at a
    full, so every survivor still restores (crates/savr-server/src/db.rs,
    crates/savr-daemon/src/backup.rs). */
module Linear {
  import opened Types
  import opened ServerTables
  import opened Chains
  import opened Pruning
  import opened Backup
  import opened World
  import opened Lineage
  import opened Depth

  predicate ChildOfPrevious(rows: Versions, line: seq<VersionId>, i: nat)
    requires 0 < i < |line| && line[i] in rows
  {
    rows[line[i]].parent == Some(line[i - 1])
  }

  ghost predicate Lists(rows: Versions, line: seq<VersionId>) {
    && (forall v {:trigger v in line} :: v in rows ==> v in line)
    && (forall i :: 0 <= i < |line| ==> line[i] in rows)
  }

  ghost predicate Ascending(rows: Versions, line: seq<VersionId>) {
    && (forall i :: 0 <= i < |line| ==> line[i] in rows)
    && (forall i, j :: 0 <= i < j < |line| ==> rows[line[i]].seqNo < rows[line[j]].seqNo)
  }

  ghost predicate Consecutive(rows: Versions, line: seq<VersionId>) {
    && (forall i :: 0 <= i < |line| ==> line[i] in rows)
    && (forall i {:trigger ChildOfPrevious(rows, line, i)} :: 0 < i < |line| ==> ChildOfPrevious(rows, line, i))
  }

  /** `line` is the whole history, oldest first: each version the child of the one
      before, the first a parentless full, the last the head. */
  ghost predicate IsLine(rows: Versions, head: Option<VersionId>, line: seq<VersionId>) {
    && Lists(rows, line) && Ascending(rows, line) && Consecutive(rows, line)
    && (line != [] ==> rows[line[0]].kind == Full && rows[line[0]].parent == None)
    && head == (if line == [] then None else Some(line[|line| - 1]))
  }

  lemma PlaceOf(rows: Versions, head: Option<VersionId>, line: seq<VersionId>, v: VersionId) returns (i: nat)
    requires IsLine(rows, head, line) && v in rows
    ensures i < |line| && line[i] == v
  {
    assert v in line;
    i :| 0 <= i < |line| && line[i] == v;
  }

  lemma PlaceOrder(rows: Versions, head: Option<VersionId>, line: seq<VersionId>, i: nat, j: nat)
    requires IsLine(rows, head, line) && i < |line| && j < |line|
    ensures rows[line[i]].seqNo < rows[line[j]].seqNo <==> i < j
    ensures line[i] == line[j] <==> i == j
  {
  }

  lemma LineOrdered(rows: Versions, head: Option<VersionId>, line: seq<VersionId>)
    requires IsLine(rows, head, line)
    ensures Ordered(rows)
  {
    forall v | v in rows && rows[v].parent.Some? && rows[v].parent.value in rows
      ensures rows[rows[v].parent.value].seqNo < rows[v].seqNo
    {
      var i := PlaceOf(rows, head, line, v);
      if i > 0 {
        assert ChildOfPrevious(rows, line, i);
        PlaceOrder(rows, head, line, i - 1, i);
      }
    }
    forall v, w | v in rows && w in rows && rows[v].seqNo == rows[w].seqNo ensures v == w {
      var i := PlaceOf(rows, head, line, v);
      var j := PlaceOf(rows, head, line, w);
      PlaceOrder(rows, head, line, i, j);
    }
  }

  /** Index of the nearest full at or before `i`. */
  ghost function OwnerIndex(rows: Versions, line: seq<VersionId>, i: nat): (f: nat)
    requires i < |line| && (forall v :: v in line ==> v in rows) && rows[line[0]].kind == Full
    ensures f <= i && rows[line[f]].kind == Full && forall k :: f < k <= i ==> rows[line[k]].kind == Differential
  {
    if rows[line[i]].kind == Full then i else OwnerIndex(rows, line, i - 1)
  }

  lemma SliceSnoc(s: seq<VersionId>, f: nat, i: nat)
    requires f <= i < |s|
    ensures s[f..i + 1] == s[f..i] + [s[i]]
  {
  }

  /** On a line, the chain of a version runs from its owning full to itself. */
  lemma {:induction false} LineChain(rows: Versions, head: Option<VersionId>, line: seq<VersionId>, i: nat)
    requires IsLine(rows, head, line) && i < |line| && Acyclic(rows)
    ensures Chain(rows, line[i]) == Some(line[OwnerIndex(rows, line, i)..i + 1])
    decreases i
  {
    if rows[line[i]].kind == Full {
      assert line[i..i + 1] == [line[i]];
    } else {
      assert ChildOfPrevious(rows, line, i);
      LineChain(rows, head, line, i - 1);
      var f := OwnerIndex(rows, line, i - 1);
      SliceSnoc(line, f, i);
    }
  }

  lemma LineOwner(rows: Versions, head: Option<VersionId>, line: seq<VersionId>, i: nat, f: VersionId)
    requires IsLine(rows, head, line) && i < |line|
    ensures Owns(rows, f, line[i]) <==> f == line[OwnerIndex(rows, line, i)]
  {
    var o := OwnerIndex(rows, line, i);
    PlaceOrder(rows, head, line, i, o);
    forall w | w in rows && IsFull(rows, w) && rows[w].seqNo <= rows[line[i]].seqNo
      ensures rows[w].seqNo <= rows[line[o]].seqNo
    {
      var k := PlaceOf(rows, head, line, w);
      PlaceOrder(rows, head, line, i, k);
      PlaceOrder(rows, head, line, o, k);
    }
    LineOrdered(rows, head, line);
    if Owns(rows, f, line[i]) { OwnerUnique(rows, f, line[o], line[i]); }
  }

  // ---- what retention keeps of a line ----

  ghost predicate ShortRuns(rows: Versions, line: seq<VersionId>, most: nat) {
    Acyclic(rows) && forall v :: v in line ==> Within(Chain(rows, v), most)
  }

  /** The versions at `[from, upTo)` of a line are at most as many as the places. */
  lemma {:induction false} PlacesBound(line: seq<VersionId>, from: nat, upTo: nat, s: set<VersionId>)
    requires from <= upTo && forall v :: v in s ==> exists j :: from <= j < upTo && j < |line| && line[j] == v
    ensures |s| <= upTo - from
    decreases upTo - from
  {
    if from == upTo {
      assert s == {};
    } else if from < |line| {
      PlacesBound(line, from + 1, upTo, s - {line[from]});
    } else {
      assert s == {};
    }
  }

  /** Differentials newer than `line[i]` of the same full sit at the next places. */
  lemma NewerDiffPlace(
    rows: Versions, head: Option<VersionId>, line: seq<VersionId>, most: nat, i: nat, w: VersionId)
    returns (j: nat)
    requires IsLine(rows, head, line) && ShortRuns(rows, line, most) && i < |line|
    requires w in NewerDiffs(rows, line[OwnerIndex(rows, line, i)], line[i])
    ensures i < j <= OwnerIndex(rows, line, i) + most && j < |line| && line[j] == w
  {
    var f := OwnerIndex(rows, line, i);
    j := PlaceOf(rows, head, line, w);
    PlaceOrder(rows, head, line, i, j);
    LineOwner(rows, head, line, j, line[f]);
    PlaceOrder(rows, head, line, f, OwnerIndex(rows, line, j));
    LineChain(rows, head, line, j);
    assert Within(Chain(rows, w), most);
  }

  /** Every differential of a recent full is recent: a run fits in the retention. */
  lemma RunIsRecent(rows: Versions, head: Option<VersionId>, line: seq<VersionId>, ret: Retention, most: nat, i: nat)
    requires IsLine(rows, head, line) && ShortRuns(rows, line, most) && most <= ret.diffPerFull && i < |line|
    requires RecentFull(rows, ret, line[OwnerIndex(rows, line, i)])
    ensures RecentFull(rows, ret, line[i]) || RecentDiff(rows, ret, line[i])
  {
    var f := OwnerIndex(rows, line, i);
    if f != i {
      var newer := NewerDiffs(rows, line[f], line[i]);
      forall w | w in newer ensures exists j :: i + 1 <= j < f + most + 1 && j < |line| && line[j] == w {
        var j := NewerDiffPlace(rows, head, line, most, i, w);
      }
      assert Within(Chain(rows, line[i]), most);
      LineChain(rows, head, line, i);
      PlacesBound(line, i + 1, f + most + 1, newer);
      LineOwner(rows, head, line, i, line[f]);
    }
  }

  /** On a line only the head is protected. */
  lemma OnlyHeadProtected(rows: Versions, head: Option<VersionId>, line: seq<VersionId>, losers: set<VersionId>, i: nat)
    requires IsLine(rows, head, line) && i < |line|
    ensures Protected(rows, head, losers, line[i]) <==> i == |line| - 1
  {
    PlaceOrder(rows, head, line, i, |line| - 1);
    if i < |line| - 1 { assert ChildOfPrevious(rows, line, i + 1); }
  }

  lemma OnlyNewestOwnsProtected(
    rows: Versions, head: Option<VersionId>, line: seq<VersionId>, losers: set<VersionId>, f: VersionId)
    requires IsLine(rows, head, line) && OwnsProtected(rows, head, losers, f)
    ensures line != [] && f == line[OwnerIndex(rows, line, |line| - 1)]
  {
    var t :| t in rows && Protected(rows, head, losers, t) && Owns(rows, f, t);
    var j := PlaceOf(rows, head, line, t);
    OnlyHeadProtected(rows, head, line, losers, j);
    LineOwner(rows, head, line, j, f);
  }

  lemma RecentDiffOwner(rows: Versions, head: Option<VersionId>, line: seq<VersionId>, ret: Retention, i: nat)
    requires IsLine(rows, head, line) && i < |line| && RecentDiff(rows, ret, line[i])
    ensures RecentFull(rows, ret, line[OwnerIndex(rows, line, i)])
  {
    var f :| f in rows && RecentFull(rows, ret, f) && Owns(rows, f, line[i])
        && |NewerDiffs(rows, f, line[i])| < ret.diffPerFull;
    LineOwner(rows, head, line, i, f);
  }

  /** Nothing of an old group is kept: not its full, not its differentials. */
  lemma OldGroupGoes(
    rows: Versions, head: Option<VersionId>, line: seq<VersionId>, losers: set<VersionId>, ret: Retention,
    i: nat)
    requires IsLine(rows, head, line) && i < |line| && ret.full >= 1
    requires !RecentFull(rows, ret, line[OwnerIndex(rows, line, i)])
    ensures !Keep(rows, head, losers, ret, line[i])
  {
    NewestFullIsRecent(rows, head, line, ret);
    OnlyHeadProtected(rows, head, line, losers, i);
    if OwnsProtected(rows, head, losers, line[i]) { OnlyNewestOwnsProtected(rows, head, line, losers, line[i]); }
    if RecentDiff(rows, ret, line[i]) { RecentDiffOwner(rows, head, line, ret, i); }
  }

  lemma NewestFullIsRecent(rows: Versions, head: Option<VersionId>, line: seq<VersionId>, ret: Retention)
    requires IsLine(rows, head, line) && line != [] && ret.full >= 1
    ensures RecentFull(rows, ret, line[OwnerIndex(rows, line, |line| - 1)])
  {
    var f := OwnerIndex(rows, line, |line| - 1);
    forall w | w in rows && IsFull(rows, w) ensures rows[w].seqNo <= rows[line[f]].seqNo {
      var k := PlaceOf(rows, head, line, w);
      PlaceOrder(rows, head, line, f, k);
    }
    assert NewerFulls(rows, line[f]) == {};
  }

  /** The least index of a recent full. */
  lemma {:induction false} FirstRecent(rows: Versions, line: seq<VersionId>, ret: Retention, f: nat) returns (k: nat)
    requires f < |line| && RecentFull(rows, ret, line[f])
    ensures k <= f && RecentFull(rows, ret, line[k]) && forall j :: 0 <= j < k ==> !RecentFull(rows, ret, line[j])
  {
    k := f;
    for j := f downto 0
      invariant j <= k <= f && RecentFull(rows, ret, line[k])
      invariant forall i :: j <= i < k ==> !RecentFull(rows, ret, line[i])
    {
      if RecentFull(rows, ret, line[j]) { k := j; }
    }
  }

  /** Kept or not: from the first recent full on, everything is; before it, nothing. */
  lemma KeptFromFirstRecent(
    rows: Versions, head: Option<VersionId>, line: seq<VersionId>, losers: set<VersionId>, ret: Retention,
    most: nat, k: nat, i: nat)
    requires IsLine(rows, head, line) && ShortRuns(rows, line, most) && ret.full >= 1 && most <= ret.diffPerFull
    requires k < |line| && RecentFull(rows, ret, line[k])
    requires (forall j :: 0 <= j < k ==> !RecentFull(rows, ret, line[j]))
    requires i < |line|
    ensures Keep(rows, head, losers, ret, line[i]) <==> k <= i
  {
    var f := OwnerIndex(rows, line, i);
    if k <= i {
      PlaceOrder(rows, head, line, k, f);
      if f != k { NewerIsRecent(rows, ret, line[k], line[f]); }
      RunIsRecent(rows, head, line, ret, most, i);
    } else {
      OldGroupGoes(rows, head, line, losers, ret, i);
    }
  }

  lemma DeadIsPrefix(
    rows: Versions, head: Option<VersionId>, line: seq<VersionId>, losers: set<VersionId>, ret: Retention,
    k: nat)
    requires IsLine(rows, head, line) && k <= |line|
    requires forall i :: 0 <= i < |line| ==> (Keep(rows, head, losers, ret, line[i]) <==> k <= i)
    ensures forall v :: v in Dead(rows, head, losers, ret) <==> v in line[..k]
  {
    forall v ensures v in Dead(rows, head, losers, ret) <==> v in line[..k] {
      if v in line[..k] { var i :| 0 <= i < k && line[..k][i] == v; assert line[i] == v; }
      if v in rows { var i := PlaceOf(rows, head, line, v); if i < k { assert line[..k][i] == v; } }
    }
  }

  /** A pass over a line with short runs prunes exactly a prefix of the history, up to
      a recent full: that full and everything after it stays. */
  lemma PruneCutsPrefix(
    rows: Versions, head: Option<VersionId>, line: seq<VersionId>, losers: set<VersionId>, ret: Retention,
    most: nat)
    returns (k: nat)
    requires IsLine(rows, head, line) && line != [] && ShortRuns(rows, line, most)
    requires ret.full >= 1 && most <= ret.diffPerFull
    ensures k < |line| && RecentFull(rows, ret, line[k])
    ensures forall v :: v in Dead(rows, head, losers, ret) <==> v in line[..k]
    ensures k > 0 ==> |NewerFulls(rows, line[k])| == ret.full - 1
  {
    NewestFullIsRecent(rows, head, line, ret);
    k := FirstRecent(rows, line, ret, OwnerIndex(rows, line, |line| - 1));
    forall i | 0 <= i < |line| ensures Keep(rows, head, losers, ret, line[i]) <==> k <= i {
      KeptFromFirstRecent(rows, head, line, losers, ret, most, k, i);
    }
    DeadIsPrefix(rows, head, line, losers, ret, k);
    if k > 0 {
      NextFullCounts(rows, head, line, OwnerIndex(rows, line, k - 1), k);
    }
  }

  /** Between consecutive fulls the number of newer fulls drops by one. */
  lemma NextFullCounts(rows: Versions, head: Option<VersionId>, line: seq<VersionId>, f: nat, k: nat)
    requires IsLine(rows, head, line) && f < k < |line| && IsFull(rows, line[f]) && IsFull(rows, line[k])
    requires forall j :: f < j < k ==> !IsFull(rows, line[j])
    ensures |NewerFulls(rows, line[f])| == |NewerFulls(rows, line[k])| + 1
  {
    forall w ensures w in NewerFulls(rows, line[f]) <==> w in NewerFulls(rows, line[k]) + {line[k]} {
      if w in rows {
        var j := PlaceOf(rows, head, line, w);
        PlaceOrder(rows, head, line, f, j);
        PlaceOrder(rows, head, line, k, j);
      }
    }
    assert NewerFulls(rows, line[f]) == NewerFulls(rows, line[k]) + {line[k]};
  }

  /** Membership after cutting the prefix. */
  lemma SuffixMembers(
    rows: Versions, head: Option<VersionId>, line: seq<VersionId>, dead: set<VersionId>, k: nat, i: nat)
    requires IsLine(rows, head, line) && k <= |line| && i < |line|
    requires forall v :: v in dead <==> v in line[..k]
    ensures line[i] in dead <==> i < k
    ensures line[i] in line[k..] <==> k <= i
  {
    if line[i] in dead { var j :| 0 <= j < k && line[..k][j] == line[i]; PlaceOrder(rows, head, line, i, j); }
    if i < k { assert line[..k][i] == line[i]; }
    if line[i] in line[k..] {
      var j :| 0 <= j < |line| - k && line[k..][j] == line[i];
      PlaceOrder(rows, head, line, i, k + j);
    }
    if k <= i { assert line[k..][i - k] == line[i]; }
  }

  lemma SuffixRows(
    rows: Versions, head: Option<VersionId>, line: seq<VersionId>, dead: set<VersionId>, k: nat, v: VersionId)
    requires IsLine(rows, head, line) && k <= |line|
    requires forall v :: v in dead <==> v in line[..k]
    ensures v in UnlinkAll(rows, dead) <==> v in line[k..]
  {
    if v in rows {
      var i := PlaceOf(rows, head, line, v);
      SuffixMembers(rows, head, line, dead, k, i);
    } else {
      assert v !in line;
    }
  }

  /** A place of the suffix, seen from the whole line. */
  lemma SuffixPlace(rows: Versions, head: Option<VersionId>, line: seq<VersionId>, dead: set<VersionId>, k: nat, i: nat)
    requires IsLine(rows, head, line) && k + i < |line|
    requires forall v :: v in dead <==> v in line[..k]
    ensures line[k..][i] == line[k + i] && line[k + i] in UnlinkAll(rows, dead)
    ensures UnlinkAll(rows, dead)[line[k + i]] ==
      if i == 0 && k > 0 then rows[line[k]].(parent := None) else rows[line[k + i]]
  {
    SuffixMembers(rows, head, line, dead, k, k + i);
    if k + i > 0 {
      assert ChildOfPrevious(rows, line, k + i);
      SuffixMembers(rows, head, line, dead, k, k + i - 1);
    }
  }

  lemma SuffixPlaces(
    rows: Versions, head: Option<VersionId>, line: seq<VersionId>, dead: set<VersionId>, k: nat,
    rest: seq<VersionId>, left: Versions)
    requires IsLine(rows, head, line) && k < |line| && rest == line[k..] && left == UnlinkAll(rows, dead)
    requires forall v :: v in dead <==> v in line[..k]
    ensures forall i :: 0 <= i < |rest| ==> rest[i] in left && left[rest[i]].seqNo == rows[line[k + i]].seqNo
    ensures forall i :: 0 < i < |rest| ==> left[rest[i]].parent == rows[line[k + i]].parent
    ensures left[rest[0]].parent == None && left[rest[0]].kind == rows[line[k]].kind
  {
    forall i | 0 <= i < |rest|
      ensures rest[i] in left && left[rest[i]]
          == if i == 0 && k > 0 then rows[line[k]].(parent := None) else rows[line[k + i]]
    {
      SuffixPlace(rows, head, line, dead, k, i);
    }
  }

  lemma SuffixLists(rows: Versions, head: Option<VersionId>, line: seq<VersionId>, dead: set<VersionId>, k: nat)
    requires IsLine(rows, head, line) && k <= |line|
    requires forall v :: v in dead <==> v in line[..k]
    ensures Lists(UnlinkAll(rows, dead), line[k..])
  {
    forall v ensures v in UnlinkAll(rows, dead) <==> v in line[k..] { SuffixRows(rows, head, line, dead, k, v); }
  }

  lemma SuffixSteps(rows: Versions, line: seq<VersionId>, left: Versions, rest: seq<VersionId>, k: nat)
    requires k < |line| && rest == line[k..] && Ascending(rows, line) && Consecutive(rows, line)
    requires forall i :: 0 <= i < |rest| ==> rest[i] in left && left[rest[i]].seqNo == rows[line[k + i]].seqNo
    requires forall i :: 0 < i < |rest| ==> left[rest[i]].parent == rows[line[k + i]].parent
    ensures Ascending(left, rest) && Consecutive(left, rest)
  {
    forall i | 0 < i < |rest| ensures ChildOfPrevious(left, rest, i) { assert ChildOfPrevious(rows, line, k + i); }
  }

  /** What is left of the line is a line. */
  lemma SuffixIsLine(rows: Versions, head: Option<VersionId>, line: seq<VersionId>, dead: set<VersionId>, k: nat)
    requires IsLine(rows, head, line) && k < |line| && IsFull(rows, line[k])
    requires forall v :: v in dead <==> v in line[..k]
    ensures IsLine(UnlinkAll(rows, dead), head, line[k..])
  {
    SuffixLists(rows, head, line, dead, k);
    SuffixPlaces(rows, head, line, dead, k, line[k..], UnlinkAll(rows, dead));
    SuffixSteps(rows, line, UnlinkAll(rows, dead), line[k..], k);
  }

  // ---- the server's tables ----

  function HeadOf(t: Tables, g: GameId): Option<VersionId> {
    if g in t.heads then t.heads[g] else None
  }

  ghost predicate LinearAt(t: Tables, g: GameId, line: seq<VersionId>) {
    IsLine(Rows(t, g), HeadOf(t, g), line)
  }

  lemma AppendLists(rows: Versions, line: seq<VersionId>, id: VersionId, row: Version)
    requires Lists(rows, line)
    ensures Lists(rows[id := row], line + [id])
  {
    var longer := line + [id];
    forall v | v in rows[id := row]
      ensures v in longer
    {
      if v != id { assert v in line; } else { assert longer[|line|] == id; }
    }
  }

  lemma AppendAscending(rows: Versions, line: seq<VersionId>, id: VersionId, row: Version)
    requires Ascending(rows, line) && id !in rows && forall v :: v in rows ==> rows[v].seqNo < row.seqNo
    ensures Ascending(rows[id := row], line + [id])
  {
  }

  lemma AppendConsecutive(rows: Versions, line: seq<VersionId>, id: VersionId, row: Version)
    requires Consecutive(rows, line) && id !in rows && (line != [] ==> row.parent == Some(line[|line| - 1]))
    ensures Consecutive(rows[id := row], line + [id])
  {
    var more, longer := rows[id := row], line + [id];
    forall i | 0 < i < |longer| ensures ChildOfPrevious(more, longer, i) {
      if i < |line| { assert ChildOfPrevious(rows, line, i); }
    }
  }

  /** A fast-forward extends the line. */
  lemma AppendIsLine(rows: Versions, head: Option<VersionId>, line: seq<VersionId>, id: VersionId, row: Version)
    requires IsLine(rows, head, line) && id !in rows && row.parent == head && (line == [] ==> row.kind == Full)
    requires forall v :: v in rows ==> rows[v].seqNo < row.seqNo
    ensures IsLine(rows[id := row], Some(id), line + [id])
  {
    AppendLists(rows, line, id, row);
    AppendAscending(rows, line, id, row);
    AppendConsecutive(rows, line, id, row);
    if line != [] { assert line[0] in rows; }
  }

  lemma CreateLinear(t: Tables, g: GameId, c: CreateVersion, line: seq<VersionId>)
    requires TablesOk(t) && Accepts(t, g, c) && LinearAt(t, g, line)
    requires c.parent == t.heads[g] && (c.kind == Differential ==> c.parent.Some?)
    ensures LinearAt(Create(t, g, c).0, g, line + [t.nextId])
  {
    FreshId(t);
    MaxSeqBounds(t.versions, g);
    RowsAfterCreate(t, g, c, g);
    AppendIsLine(Rows(t, g), t.heads[g], line, t.nextId, NewRow(t, g, c));
  }

  /** If a step stores a version of the game, the head becomes that version. */
  ghost predicate NoConflict(t: Tables, u: Tables, g: GameId) {
    t.nextId in u.versions && u.versions[t.nextId].game == g ==> HeadOf(u, g) == Some(t.nextId)
  }

  /** An accepted upload, of this game or another, that stores no branch of it. */
  lemma UploadLinear(
    t: Tables, k: GameId, c: CreateVersion, g: GameId, line: seq<VersionId>)
    returns (after: seq<VersionId>)
    requires TablesOk(t) && Accepts(t, k, c) && (c.kind == Differential ==> c.parent.Some?)
    requires LinearAt(t, g, line) && NoConflict(t, Create(t, k, c).0, g)
    ensures LinearAt(Create(t, k, c).0, g, after)
  {
    if k == g {
      HeadNotFresh(t, g);
      assert Create(t, k, c).0.versions[t.nextId].game == g;
      CreateLinear(t, g, c, line);
      after := line + [t.nextId];
    } else {
      RowsAfterCreate(t, k, c, g);
      after := line;
    }
  }

  lemma SendLinear(
    t: Tables, k: GameId, c: CreateVersion, net: Net, g: GameId, line: seq<VersionId>)
    returns (after: seq<VersionId>)
    requires TablesOk(t) && RequestOk(t, k, c) && LinearAt(t, g, line) && NoConflict(t, Send(t, k, c, net).0, g)
    ensures LinearAt(Send(t, k, c, net).0, g, after)
  {
    var p, u := PutBlob(t, c.blob), Send(t, k, c, net).0;
    PutBlobKeeps(t, c.blob);
    SendOutcomes(t, k, c, net);
    after := line;
    if u == Create(p, k, c).0 && Accepts(p, k, c) {
      assert LinearAt(p, g, line) by { SameVersionsSameRows(t, p, g); }
      after := UploadLinear(p, k, c, g, line);
    } else {
      SameVersionsSameRows(t, u, g);
    }
  }

  /** An upload is not seen, leaves a blob, or stores a version. */
  lemma SendOutcomes(t: Tables, g: GameId, c: CreateVersion, net: Net)
    ensures var p, u := PutBlob(t, c.blob), Send(t, g, c, net).0;
      || (u.versions == t.versions && u.heads == t.heads && u.nextId == t.nextId)
      || (u == Create(p, g, c).0 && Accepts(p, g, c))
  {
  }

  lemma HeadNotFresh(t: Tables, g: GameId)
    requires TablesOk(t)
    ensures HeadOf(t, g) != Some(t.nextId)
  {
    if HeadOf(t, g).Some? { assert HeadOf(t, g).value in Rows(t, g) && RowOk(t, HeadOf(t, g).value); }
  }

  /** Retention that keeps at least one full and as many differentials per full as a
      run between two fulls can have. */
  predicate Ample(ret: Retention, most: nat) {
    ret.full >= 1 && most <= ret.diffPerFull
  }

  /** The pass on the tables: the pruned versions are exactly a prefix of the history
      and the rest of the line stays, from a kept full to the head. */
  lemma GcCutsPrefix(t: Tables, g: GameId, line: seq<VersionId>, ret: Retention, most: nat) returns (k: nat)
    requires TablesOk(t) && LinearAt(t, g, line) && line != [] && g in t.heads && Capped(t, most)
    requires Ample(ret, most)
    ensures k < |line| && t.versions[line[k]].kind == Full
    ensures forall v :: v in DeadIn(t, g, ret) <==> v in line[..k]
    ensures k > 0 ==> |NewerFulls(Rows(t, g), line[k])| == ret.full - 1
    ensures LinearAt(Prune(t, g, ret), g, line[k..])
  {
    var rows := Rows(t, g);
    RowsAcyclic(t, g);
    forall v | v in line ensures Within(Chain(rows, v), most) { assert v in rows && Within(ChainIn(t, v), most); }
    k := PruneCutsPrefix(rows, t.heads[g], line, LosersOf(t, g), ret, most);
    RowsAfterRemoval(t, DeadIn(t, g, ret), g);
    SuffixIsLine(rows, t.heads[g], line, DeadIn(t, g, ret), k);
  }

  lemma OthersStayLinked(rows: Versions, head: Option<VersionId>, line: seq<VersionId>, dead: set<VersionId>)
    requires IsLine(rows, head, line) && forall v :: v in rows ==> v !in dead
    ensures UnlinkAll(rows, dead) == rows
  {
    forall v | v in rows ensures Unlink(rows[v], dead) == rows[v] {
      var i := PlaceOf(rows, head, line, v);
      if i > 0 { assert ChildOfPrevious(rows, line, i) && line[i - 1] in rows; }
    }
  }

  /** A pass over another game leaves a line alone. */
  lemma OtherGameGc(t: Tables, k: GameId, ret: Retention, g: GameId, line: seq<VersionId>)
    requires TablesOk(t) && LinearAt(t, g, line) && k != g
    ensures LinearAt(Prune(t, k, ret), g, line)
  {
    if k in t.heads {
      var rows := Rows(t, g);
      RowsAfterRemoval(t, DeadIn(t, k, ret), g);
      OthersStayLinked(rows, HeadOf(t, g), line, DeadIn(t, k, ret));
    }
  }

  ghost predicate Linear(t: Tables, g: GameId) {
    exists line :: LinearAt(t, g, line)
  }

  lemma PruneLinear(t: Tables, k: GameId, ret: Retention, g: GameId, most: nat)
    requires TablesOk(t) && Capped(t, most) && Linear(t, g) && (k == g ==> Ample(ret, most))
    ensures Linear(Prune(t, k, ret), g)
  {
    var line :| LinearAt(t, g, line);
    if k != g {
      OtherGameGc(t, k, ret, g, line);
    } else if g in t.heads {
      if line != [] {
        var cut := GcCutsPrefix(t, g, line, ret, most);
      } else {
        RowsAfterRemoval(t, DeadIn(t, g, ret), g);
        assert LinearAt(Prune(t, g, ret), g, line);
      }
    }
  }

  lemma SameRowsLinear(t: Tables, u: Tables, g: GameId)
    requires t.versions == u.versions && HeadOf(t, g) == HeadOf(u, g) && Linear(t, g)
    ensures Linear(u, g)
  {
    var line :| LinearAt(t, g, line);
    SameVersionsSameRows(t, u, g);
    assert LinearAt(u, g, line);
  }

  // ---- runs ----

  /** A conflict-free step, with ample retention. */
  ghost predicate LinearFits(w: World, e: Event, g: GameId, most: nat)
    requires TablesOk(w.tables)
  {
    && Fits(w, e, most)
    && NoConflict(w.tables, Step(w, e).tables, g)
    && (e.ResolveTo? ==> e.game != g)
    && (e.Gc? && e.game == g ==> Ample(e.retention, most))
  }

  lemma DeviceStepLinear(w: World, e: Event, g: GameId, most: nat)
    requires Shallow(w, most) && Linear(w.tables, g) && LinearFits(w, e, g, most) && (e.BackUp? || e.Drain?)
    ensures Linear(Step(w, e).tables, g)
  {
    var line :| LinearAt(w.tables, g, line);
    InvLocal(w, e.device);
    var l := LocalOf(w, e.device);
    if e.BackUp? {
      BackUpStep(w, e.device, e.job, e.fullEvery, e.net, e.at);
      if !Skips(l, e.job) {
        var c := Prepare(l, e.device, e.job, e.fullEvery, e.at);
        PrepareOk(w.tables, l, e.device, e.job, e.fullEvery, e.at);
        var after := SendLinear(w.tables, e.job.game, c, e.net, g, line);
      }
    } else {
      DrainStep(w, e.device, e.key, e.net, e.now);
      if e.key in l.outbox {
        var item := l.outbox[e.key];
        assert RequestOk(w.tables, item.game, item.create);
        var after := SendLinear(w.tables, item.game, item.create, e.net, g, line);
      }
    }
  }

  lemma QuietRowsStay(w: World, e: Event, g: GameId)
    requires TablesOk(w.tables) && (Quiet(e) || e.Adopt?) && (e.ResolveTo? ==> e.game != g)
    ensures Step(w, e).tables.versions == w.tables.versions && HeadOf(Step(w, e).tables, g) == HeadOf(w.tables, g)
  {
    match e
    case Adopt(d, k, target) => AdoptStep(w, d, k, target);
    case _ => QuietStep(w, e);
  }

  lemma StepKeepsLinear(w: World, e: Event, g: GameId, most: nat)
    requires Shallow(w, most) && Linear(w.tables, g) && LinearFits(w, e, g, most)
    ensures Linear(Step(w, e).tables, g)
  {
    match e
    case Gc(k, ret) =>
      PruneLinear(w.tables, k, ret, g, most);
      GcStep(w, k, ret);
    case BackUp(_, _, _, _, _) => DeviceStepLinear(w, e, g, most);
    case Drain(_, _, _, _) => DeviceStepLinear(w, e, g, most);
    case _ =>
      QuietRowsStay(w, e, g);
      SameRowsLinear(w.tables, Step(w, e).tables, g);
  }

  ghost predicate LinearRun(w: World, es: seq<Event>, g: GameId, most: nat)
    requires TablesOk(w.tables)
    decreases |es|
  {
    es == [] ||
    (var front, last := es[..|es| - 1], es[|es| - 1];
     LinearRun(w, front, g, most) && Safe(RunAll(w, front), last) && LinearFits(RunAll(w, front), last, g, most))
  }

  lemma {:induction false} RunKeepsLinear(w: World, es: seq<Event>, g: GameId, most: nat)
    requires Shallow(w, most) && Linear(w.tables, g) && LinearRun(w, es, g, most)
    ensures Shallow(RunAll(w, es), most) && Linear(RunAll(w, es).tables, g)
    decreases |es|
  {
    if es != [] {
      var front := es[..|es| - 1];
      RunKeepsLinear(w, front, g, most);
      StepKeepsShallowIff(RunAll(w, front), es[|es| - 1], most);
      StepKeepsLinear(RunAll(w, front), es[|es| - 1], g, most);
    }
  }

  lemma LineRestores(t: Tables, g: GameId, v: VersionId)
    requires TablesOk(t) && RowsOk(t) && Linear(t, g) && v in Rows(t, g)
    ensures ChainIn(t, v).Some?
    ensures (forall u :: u in ChainIn(t, v).value ==> u in Rows(t, g))
         && HashContents(Replay(Rows(t, g), ChainIn(t, v).value)) == HashesOf(t.versions[v].files)
  {
    var line :| LinearAt(t, g, line);
    var i := PlaceOf(Rows(t, g), HeadOf(t, g), line, v);
    RowsAcyclic(t, g);
    LineChain(Rows(t, g), HeadOf(t, g), line, i);
    FaithfulIn(t, v);
  }

  /** In a conflict-free run with ample retention, where `most` caps the differentials
      between two fulls, the history stays one line and every stored version restores
      to exactly its files, however many passes ran. */
  lemma SurvivorsRestore(es: seq<Event>, g: GameId, most: nat, v: VersionId)
    requires LinearRun(START, es, g, most) && v in Rows(RunAll(START, es).tables, g)
    ensures var t := RunAll(START, es).tables;
      && Linear(t, g) && ChainIn(t, v).Some?
      && (forall u :: u in ChainIn(t, v).value ==> u in Rows(t, g))
      && HashContents(Replay(Rows(t, g), ChainIn(t, v).value)) == HashesOf(t.versions[v].files)
  {
    StartShallow(most);
    StartLinear(g);
    RunKeepsLinear(START, es, g, most);
    LineRestores(RunAll(START, es).tables, g, v);
  }

  // ---- what the configured values guarantee ----

  /** A plain step that stores no branch of `g`, with retention ample for `full_every`. */
  ghost predicate PlainLinear(w: World, e: Event, g: GameId, fullEvery: nat)
    requires TablesOk(w.tables)
  {
    && Plain(w, e, fullEvery)
    && NoConflict(w.tables, Step(w, e).tables, g)
    && (e.ResolveTo? ==> e.game != g)
    && (e.Gc? && e.game == g ==> Ample(e.retention, fullEvery))
  }

  ghost predicate PlainLinearRun(w: World, es: seq<Event>, g: GameId, fullEvery: nat)
    requires TablesOk(w.tables)
    decreases |es|
  {
    es == [] ||
    (var front, last := es[..|es| - 1], es[|es| - 1];
     PlainLinearRun(w, front, g, fullEvery) && PlainLinear(RunAll(w, front), last, g, fullEvery))
  }

  lemma {:induction false} PlainLinearRunFits(w: World, es: seq<Event>, g: GameId, fullEvery: nat)
    requires Shallow(w, fullEvery) && Linear(w.tables, g) && PlainLinearRun(w, es, g, fullEvery)
    ensures LinearRun(w, es, g, fullEvery)
    decreases |es|
  {
    if es != [] {
      var front := es[..|es| - 1];
      PlainLinearRunFits(w, front, g, fullEvery);
      RunKeepsLinear(w, front, g, fullEvery);
      PlainFits(RunAll(w, front), es[|es| - 1], fullEvery);
    }
  }

  /** With `full_every` at most `diff_per_full`, and a full retained, no pass over a
      conflict-free history costs a survivor its chain: each restores to its files. */
  lemma FullEveryWithinRetention(es: seq<Event>, g: GameId, fullEvery: nat, v: VersionId)
    requires PlainLinearRun(START, es, g, fullEvery) && v in Rows(RunAll(START, es).tables, g)
    ensures var t := RunAll(START, es).tables;
      && Linear(t, g) && ChainIn(t, v).Some?
      && (forall u :: u in ChainIn(t, v).value ==> u in Rows(t, g))
      && HashContents(Replay(Rows(t, g), ChainIn(t, v).value)) == HashesOf(t.versions[v].files)
  {
    StartShallow(fullEvery);
    StartLinear(g);
    PlainLinearRunFits(START, es, g, fullEvery);
    SurvivorsRestore(es, g, fullEvery, v);
  }

  lemma StartLinear(g: GameId)
    ensures Linear(START.tables, g)
  {
    assert LinearAt(START.tables, g, []);
  }

  lemma FirstBackUpFits(w: World, d: DeviceId, job: Job, most: nat)
    requires TablesOk(w.tables) && job.hasPatterns && d !in w.locals
    requires job.game in w.tables.heads && w.tables.heads[job.game] == None
    ensures LinearFits(w, BackUp(d, job, 1, Reached, 0), job.game, most)
    ensures Rows(Step(w, BackUp(d, job, 1, Reached, 0)).tables, job.game) != map[]
  {
    FirstBackUp(w.tables, d, job, 1);
    assert ChooseKind(EMPTY_LOCAL, job.game, 1) == Full;
    assert w.tables.nextId in Rows(Step(w, BackUp(d, job, 1, Reached, 0)).tables, job.game);
  }

  lemma TwoSteps(w: World, a: Event, b: Event, g: GameId, most: nat) returns (es: seq<Event>)
    requires TablesOk(w.tables) && Safe(w, a) && LinearFits(w, a, g, most)
    requires Safe(Step(w, a), b) && LinearFits(Step(w, a), b, g, most)
    ensures LinearRun(w, es, g, most) && RunAll(w, es) == Step(Step(w, a), b)
  {
    es := [a];
    assert es[..0] == [];
    assert RunAll(w, es) == Step(w, a) && LinearRun(w, es, g, most);
    var more := es + [b];
    assert more[..1] == es && more[1] == b;
    es := more;
  }

  /** Runs as `SurvivorsRestore` asks for exist, with something stored. */
  lemma LinearRunsExist(w: World, d: DeviceId, job: Job, most: nat) returns (es: seq<Event>)
    requires w == START && job.hasPatterns
    ensures LinearRun(w, es, job.game, most) && Rows(RunAll(w, es).tables, job.game) != map[]
  {
    var a, b := NewGame(job.game), BackUp(d, job, 1, Reached, 0);
    var u := Step(w, a);
    assert u.tables.heads == map[job.game := None] && u.tables.versions == map[] && u.locals == map[];
    FirstBackUpFits(u, d, job, most);
    es := TwoSteps(w, a, b, job.game, most);
  }
}

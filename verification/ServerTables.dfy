/** The server's tables and the transactions on them, as functions from one table
    state to the next (crates/savr-server/src/db.rs).  `ServerStore` runs the same
    transactions statement by statement on mutable tables and is proved to end in
    the states named here. */
module ServerTables {
  import opened Types

  /** `heads` is the games table, `losers` the resolved-conflict audit. */
  datatype Tables = Tables(
    heads: map<GameId, Option<VersionId>>,
    versions: map<VersionId, Version>,
    blobs: map<Archive, int>,
    losers: set<(GameId, VersionId)>,
    nextId: nat)

  const EMPTY := Tables(map[], map[], map[], {}, 0)

  type Versions = map<VersionId, Version>

  /** The version rows of one game. */
  function Rows(t: Tables, g: GameId): Versions {
    t.versions - (set v | v in t.versions && t.versions[v].game != g)
  }

  // ---- sequence numbers ----

  lemma {:induction false} Greatest(s: set<nat>) returns (m: nat)
    requires s != {}
    ensures m in s && forall x :: x in s ==> x <= m
  {
    var y :| y in s;
    m := y;
    var rest := s - {y};
    assert s == {y} + rest;
    if rest != {} {
      var top := Greatest(rest);
      m := if m > top then m else top;
    }
  }

  lemma GreatestExists(s: set<nat>)
    requires s != {}
    ensures exists m :: m in s && forall x :: x in s ==> x <= m
  {
    var _ := Greatest(s);
  }

  /** `COALESCE(MAX(..), 0)`. */
  function MaxOf(s: set<nat>): (m: nat)
    ensures forall x :: x in s ==> x <= m
    ensures if s == {} then m == 0 else m in s
  {
    if s == {} then 0
    else
      GreatestExists(s);
      var m :| m in s && forall x :: x in s ==> x <= m;
      m
  }

  function SeqNos(versions: Versions, g: GameId): set<nat> {
    set v | v in versions && versions[v].game == g :: versions[v].seqNo
  }

  function MaxSeq(versions: Versions, g: GameId): nat {
    MaxOf(SeqNos(versions, g))
  }

  lemma MaxSeqBounds(versions: Versions, g: GameId)
    ensures forall v :: v in versions && versions[v].game == g ==> versions[v].seqNo <= MaxSeq(versions, g)
    ensures MaxSeq(versions, g) > 0 ==>
      exists v :: v in versions && versions[v].game == g && versions[v].seqNo == MaxSeq(versions, g)
  {
    forall v | v in versions && versions[v].game == g ensures versions[v].seqNo in SeqNos(versions, g) { }
  }

  // ---- transactions ----

  datatype Outcome =
    | FastForward(id: VersionId)
    | Conflict(head: Option<VersionId>, id: VersionId)
    | Rejected

  /** Register a game; an existing one keeps its head. */
  function EnsureGame(t: Tables, g: GameId): Tables {
    if g in t.heads then t else t.(heads := t.heads[g := None])
  }

  /** Store an archive; an existing blob row keeps its count. */
  function PutBlob(t: Tables, a: Archive): Tables {
    if a in t.blobs then t else t.(blobs := t.blobs[a := 0])
  }

  /** The blob must be stored, and foreign keys are enforced on game and parent. */
  predicate Accepts(t: Tables, g: GameId, req: CreateVersion) {
    req.blob in t.blobs && g in t.heads && (req.parent.Some? ==> req.parent.value in t.versions)
  }

  function NewRow(t: Tables, g: GameId, req: CreateVersion): Version {
    Version(g, req.device, req.parent, req.kind, req.files, req.blob, MaxSeq(t.versions, g) + 1)
  }

  /** Insert a version and compare-and-swap the head. */
  function Create(t: Tables, g: GameId, req: CreateVersion): (Tables, Outcome) {
    if !Accepts(t, g, req) then (t, Rejected)
    else
      var advanced := t.heads[g] == req.parent;
      var after := t.(
        versions := t.versions[t.nextId := NewRow(t, g, req)],
        blobs := t.blobs[req.blob := t.blobs[req.blob] + 1],
        heads := if advanced then t.heads[g := Some(t.nextId)] else t.heads,
        nextId := t.nextId + 1);
      (after, if advanced then FastForward(t.nextId) else Conflict(t.heads[g], t.nextId))
  }

  datatype ResolveOutcome = Resolved(winnerSeq: nat) | GameNotFound | WinnerNotFound

  /** Make `winner` the head and record the displaced head as a loser. */
  function Resolve(t: Tables, g: GameId, winner: VersionId): (Tables, ResolveOutcome) {
    if g !in t.heads then (t, GameNotFound)
    else if winner !in Rows(t, g) then (t, WinnerNotFound)
    else
      var loser := if t.heads[g].Some? && t.heads[g].value != winner then {(g, t.heads[g].value)} else {};
      (t.(heads := t.heads[g := Some(winner)], losers := t.losers + loser), Resolved(t.versions[winner].seqNo))
  }

  // ---- deleting versions ----

  function NamedBy(versions: Versions, a: Archive): set<VersionId> {
    set v | v in versions && versions[v].blob == a
  }

  function Unlink(row: Version, dead: set<VersionId>): Version {
    if row.parent.Some? && row.parent.value in dead then row.(parent := None) else row
  }

  ghost function UnlinkAll(versions: Versions, dead: set<VersionId>): Versions {
    MapOf(versions.Keys - dead, v requires v in versions => Unlink(versions[v], dead))
  }

  /** Nulling the parents into `v` and dropping its row. */
  lemma UnlinkOne(versions: Versions, nulled: Versions, v: VersionId)
    requires nulled.Keys == versions.Keys && forall w :: w in nulled ==> nulled[w] == Unlink(versions[w], {v})
    ensures nulled - {v} == UnlinkAll(versions, {v})
  {
  }

  /** References to `a` lost when `dead` goes. */
  function Lost(versions: Versions, dead: set<VersionId>, a: Archive): set<VersionId> {
    set v | v in dead && v in versions && versions[v].blob == a
  }

  function LostCount(versions: Versions, dead: set<VersionId>, a: Archive): nat {
    |Lost(versions, dead, a)|
  }

  /** A blob row stays unless it loses a reference and none is left. */
  predicate Remains(t: Tables, dead: set<VersionId>, a: Archive)
    requires a in t.blobs
  {
    LostCount(t.versions, dead, a) == 0 || t.blobs[a] > LostCount(t.versions, dead, a)
  }

  ghost function Deref(t: Tables, dead: set<VersionId>): map<Archive, int> {
    var left := set a | a in t.blobs && Remains(t, dead, a);
    MapOf(left, a requires a in t.blobs => t.blobs[a] - LostCount(t.versions, dead, a))
  }

  /** Delete every version of `dead`: parents into it are nulled, blobs dereferenced. */
  ghost function RemoveAll(t: Tables, dead: set<VersionId>): Tables {
    t.(versions := UnlinkAll(t.versions, dead), blobs := Deref(t, dead))
  }

  lemma LostOneMore(t: Tables, dead: set<VersionId>, v: VersionId, a: Archive)
    requires v in t.versions && v !in dead
    ensures LostCount(t.versions, dead + {v}, a)
         == LostCount(t.versions, dead, a) + LostCount(UnlinkAll(t.versions, dead), {v}, a)
  {
    var before, one := Lost(t.versions, dead, a), Lost(UnlinkAll(t.versions, dead), {v}, a);
    assert one == if t.versions[v].blob == a then {v} else {};
    assert Lost(t.versions, dead + {v}, a) == before + one;
    assert before !! one;
  }

  lemma DerefOneMore(t: Tables, dead: set<VersionId>, v: VersionId, a: Archive)
    requires v in t.versions && v !in dead
    ensures a in Deref(t, dead + {v}) <==> a in Deref(RemoveAll(t, dead), {v})
    ensures a in Deref(t, dead + {v}) ==> Deref(t, dead + {v})[a] == Deref(RemoveAll(t, dead), {v})[a]
  {
    LostOneMore(t, dead, v, a);
  }

  /** Deleting one more version is one more deletion. */
  lemma RemoveOneMore(t: Tables, dead: set<VersionId>, v: VersionId)
    requires v in t.versions && v !in dead
    ensures RemoveAll(t, dead + {v}) == RemoveAll(RemoveAll(t, dead), {v})
  {
    forall a { DerefOneMore(t, dead, v, a); }
    assert Deref(t, dead + {v}) == Deref(RemoveAll(t, dead), {v});
    assert UnlinkAll(t.versions, dead + {v}) == UnlinkAll(UnlinkAll(t.versions, dead), {v});
  }

  /** Losing one reference: decrement, and drop the row at zero or below. */
  function DropOne(blobs: map<Archive, int>, a: Archive): map<Archive, int> {
    if a !in blobs then blobs else if blobs[a] - 1 <= 0 then blobs - {a} else blobs[a := blobs[a] - 1]
  }

  lemma DerefOne(t: Tables, v: VersionId)
    requires v in t.versions
    ensures Deref(t, {v}) == DropOne(t.blobs, t.versions[v].blob)
  {
    forall b ensures LostCount(t.versions, {v}, b) == if b == t.versions[v].blob then 1 else 0 {
      assert Lost(t.versions, {v}, b) == if b == t.versions[v].blob then {v} else {};
    }
  }

  lemma RemoveNone(t: Tables)
    ensures (forall v :: v in t.versions ==> Unlink(t.versions[v], {}) == t.versions[v]) ==> RemoveAll(t, {}) == t
  {
    forall a ensures LostCount(t.versions, {}, a) == 0 { assert Lost(t.versions, {}, a) == {}; }
    assert Deref(t, {}) == t.blobs;
    assert UnlinkAll(t.versions, {}) == t.versions;
  }

  // ---- what every reachable state satisfies ----

  ghost predicate RowOk(t: Tables, v: VersionId)
    requires v in t.versions
  {
    var row := t.versions[v];
    && v < t.nextId
    && row.game in t.heads
    && row.seqNo >= 1
    && (row.parent.Some? ==>
          && row.parent.value in t.versions
          && row.parent.value < v
          && (t.versions[row.parent.value].game == row.game ==> t.versions[row.parent.value].seqNo < row.seqNo))
  }

  /** The key of the unique index on (game, seq). */
  predicate SameSlot(a: Version, b: Version) {
    a.game == b.game && a.seqNo == b.seqNo
  }

  ghost predicate SlotsDistinct(versions: Versions) {
    forall v, w {:trigger SameSlot(versions[v], versions[w])} ::
      v in versions && w in versions && SameSlot(versions[v], versions[w]) ==> v == w
  }

  ghost predicate TablesOk(t: Tables) {
    && (forall v :: v in t.versions ==> RowOk(t, v))
    && SlotsDistinct(t.versions)
    && (forall g :: g in t.heads && t.heads[g].Some? ==> t.heads[g].value in Rows(t, g))
    && (forall l :: l in t.losers ==> l.1 < t.nextId)
  }

  /** Reference conservation: a blob's count is the number of versions naming it. */
  ghost predicate Conserved(t: Tables) {
    && (forall v :: v in t.versions ==> t.versions[v].blob in t.blobs)
    && (forall a :: a in t.blobs ==> t.blobs[a] == |NamedBy(t.versions, a)|)
  }

  lemma CreateRowOk(t: Tables, g: GameId, req: CreateVersion, v: VersionId)
    requires TablesOk(t) && Accepts(t, g, req) && (v in t.versions || v == t.nextId)
    ensures RowOk(Create(t, g, req).0, v)
  {
    FreshId(t);
    if v in t.versions {
      assert RowOk(t, v);
    } else {
      MaxSeqBounds(t.versions, g);
      if req.parent.Some? { assert RowOk(t, req.parent.value); }
    }
  }

  lemma CreateKeepsTables(t: Tables, g: GameId, req: CreateVersion)
    requires TablesOk(t)
    ensures TablesOk(Create(t, g, req).0)
  {
    if Accepts(t, g, req) {
      var after := Create(t, g, req).0;
      FreshId(t);
      assert after.versions.Keys == t.versions.Keys + {t.nextId};
      forall v | v in after.versions ensures RowOk(after, v) { CreateRowOk(t, g, req, v); }
      MaxSeqBounds(t.versions, g);
      forall v, w | v in after.versions && w in after.versions && SameSlot(after.versions[v], after.versions[w])
        ensures v == w
      {
        if v in t.versions && w in t.versions { assert SameSlot(t.versions[v], t.versions[w]); }
      }
      forall k | k in after.heads && after.heads[k].Some? ensures after.heads[k].value in Rows(after, k) {
        if after.heads[k] == t.heads[k] { assert t.heads[k].value in Rows(t, k); }
      }
    }
  }

  lemma FreshId(t: Tables)
    requires TablesOk(t)
    ensures t.nextId !in t.versions
  {
    forall v | v in t.versions ensures v != t.nextId { assert RowOk(t, v); }
  }

  lemma NamedByInsert(versions: Versions, v: VersionId, row: Version, a: Archive)
    requires v !in versions
    ensures |NamedBy(versions[v := row], a)| == |NamedBy(versions, a)| + (if row.blob == a then 1 else 0)
  {
    assert NamedBy(versions[v := row], a) == NamedBy(versions, a) + (if row.blob == a then {v} else {});
  }

  lemma CreateKeepsReferences(t: Tables, g: GameId, req: CreateVersion)
    requires TablesOk(t) && Conserved(t)
    ensures Conserved(Create(t, g, req).0)
  {
    var after := Create(t, g, req).0;
    if Accepts(t, g, req) {
      FreshId(t);
      var row := NewRow(t, g, req);
      assert after.versions == t.versions[t.nextId := row];
      forall a | a in after.blobs ensures after.blobs[a] == |NamedBy(after.versions, a)| {
        NamedByInsert(t.versions, t.nextId, row, a);
      }
    }
  }

  /** Heads may be moved to any stored version of the game. */
  lemma HeadsKeep(t: Tables, after: Tables)
    requires TablesOk(t)
    requires after.versions == t.versions && after.nextId == t.nextId && t.heads.Keys <= after.heads.Keys
    requires forall g :: g in after.heads && after.heads[g].Some? ==> after.heads[g].value in Rows(t, g)
    requires forall l :: l in after.losers ==> l.1 < t.nextId
    ensures TablesOk(after)
  {
    forall v | v in after.versions ensures RowOk(after, v) { assert RowOk(t, v); }
    forall g ensures Rows(after, g) == Rows(t, g) { }
  }

  lemma PutBlobKeeps(t: Tables, a: Archive)
    requires TablesOk(t)
    ensures TablesOk(PutBlob(t, a))
    ensures Conserved(t) ==> Conserved(PutBlob(t, a))
  {
    HeadsKeep(t, PutBlob(t, a));
    if Conserved(t) && a !in t.blobs {
      assert NamedBy(t.versions, a) == {};
    }
  }

  lemma ResolveKeeps(t: Tables, g: GameId, winner: VersionId)
    requires TablesOk(t)
    ensures TablesOk(Resolve(t, g, winner).0)
    ensures Conserved(t) ==> Conserved(Resolve(t, g, winner).0)
  {
    var after := Resolve(t, g, winner).0;
    forall l | l in after.losers ensures l.1 < t.nextId {
      if l !in t.losers { assert RowOk(t, l.1); }
    }
    HeadsKeep(t, after);
  }

  lemma EnsureGameKeeps(t: Tables, g: GameId)
    requires TablesOk(t)
    ensures TablesOk(EnsureGame(t, g))
    ensures Conserved(t) ==> Conserved(EnsureGame(t, g))
  {
    HeadsKeep(t, EnsureGame(t, g));
  }

  lemma RemoveKeepsRow(t: Tables, dead: set<VersionId>, v: VersionId)
    requires v in t.versions && v !in dead && RowOk(t, v)
    ensures RowOk(RemoveAll(t, dead), v)
  {
  }

  lemma UnlinkKeepsSlots(versions: Versions, dead: set<VersionId>)
    requires SlotsDistinct(versions)
    ensures SlotsDistinct(UnlinkAll(versions, dead))
  {
    var left := UnlinkAll(versions, dead);
    forall v, w | v in left && w in left && SameSlot(left[v], left[w]) ensures v == w {
      assert SameSlot(versions[v], versions[w]);
    }
  }

  /** Deleting any versions that are no game's head keeps the tables consistent. */
  lemma RemoveKeepsTables(t: Tables, dead: set<VersionId>)
    requires TablesOk(t)
    requires forall g :: g in t.heads && t.heads[g].Some? ==> t.heads[g].value !in dead
    ensures TablesOk(RemoveAll(t, dead))
  {
    var after := RemoveAll(t, dead);
    forall v | v in after.versions ensures RowOk(after, v) {
      assert RowOk(t, v);
      RemoveKeepsRow(t, dead, v);
    }
    UnlinkKeepsSlots(t.versions, dead);
    forall k | k in after.heads && after.heads[k].Some? ensures after.heads[k].value in Rows(after, k) {
      assert t.heads[k].value in Rows(t, k);
    }
  }

  lemma NamedAfterRemoval(versions: Versions, dead: set<VersionId>, a: Archive)
    ensures var left := NamedBy(UnlinkAll(versions, dead), a);
      && |left| == |NamedBy(versions, a)| - LostCount(versions, dead, a)
      && (left == {} <==> NamedBy(versions, a) <= dead)
  {
    var before, lost := NamedBy(versions, a), Lost(versions, dead, a);
    assert NamedBy(UnlinkAll(versions, dead), a) == before - lost;
    assert lost <= before && |before - lost| == |before| - |lost|;
  }

  lemma RemoveReference(t: Tables, dead: set<VersionId>, a: Archive)
    requires a in t.blobs && t.blobs[a] == |NamedBy(t.versions, a)|
    ensures a in Deref(t, dead) ==> Deref(t, dead)[a] == |NamedBy(UnlinkAll(t.versions, dead), a)|
    ensures a !in Deref(t, dead) <==> NamedBy(t.versions, a) != {} && NamedBy(t.versions, a) <= dead
  {
    var before, left := NamedBy(t.versions, a), NamedBy(UnlinkAll(t.versions, dead), a);
    NamedAfterRemoval(t.versions, dead, a);
    assert left == {} <==> |left| == 0;
    assert before == {} <==> |before| == 0;
  }

  lemma SurvivorsBlobStays(t: Tables, dead: set<VersionId>, v: VersionId)
    requires Conserved(t) && v in t.versions && v !in dead
    ensures t.versions[v].blob in Deref(t, dead)
  {
    assert v in NamedBy(t.versions, t.versions[v].blob);
    RemoveReference(t, dead, t.versions[v].blob);
  }

  lemma BlobsAfterRemoval(t: Tables, dead: set<VersionId>)
    requires forall a :: a in t.blobs ==> t.blobs[a] == |NamedBy(t.versions, a)|
    ensures forall a :: a in Deref(t, dead) ==> Deref(t, dead)[a] == |NamedBy(UnlinkAll(t.versions, dead), a)|
    ensures forall a :: a in t.blobs ==>
      (a !in Deref(t, dead) <==> NamedBy(t.versions, a) != {} && NamedBy(t.versions, a) <= dead)
  {
    forall a | a in t.blobs { RemoveReference(t, dead, a); }
  }

  lemma SurvivorsBlobsStay(t: Tables, dead: set<VersionId>)
    requires Conserved(t)
    ensures forall v :: v in UnlinkAll(t.versions, dead) ==> UnlinkAll(t.versions, dead)[v].blob in Deref(t, dead)
  {
    forall v | v in UnlinkAll(t.versions, dead) ensures UnlinkAll(t.versions, dead)[v].blob in Deref(t, dead) {
      SurvivorsBlobStays(t, dead, v);
    }
  }

  /** Deleting versions conserves references; a blob row disappears exactly when it
      was referenced and its last version went, and no surviving version loses its
      blob even when versions share one. */
  lemma RemoveKeepsReferences(t: Tables, dead: set<VersionId>)
    requires Conserved(t)
    ensures Conserved(RemoveAll(t, dead))
    ensures forall a :: a in t.blobs ==>
      (a !in RemoveAll(t, dead).blobs <==> NamedBy(t.versions, a) != {} && NamedBy(t.versions, a) <= dead)
  {
    BlobsAfterRemoval(t, dead);
    SurvivorsBlobsStay(t, dead);
  }
}

/** Restore chains and their replay (crates/savr-daemon/src/restore.rs, the writer's
    half in crates/savr-core/src/snapshot.rs and crates/savr-daemon/src/backup.rs). */
module Chains {
  import opened Types
  import opened ServerTables
  import opened Snapshots

  // ---- building a chain ----

  /** Parents are older than their children: what makes walking them terminate. */
  ghost predicate Acyclic(rows: Versions) {
    forall v :: v in rows && rows[v].parent.Some? && rows[v].parent.value in rows ==>
      rows[rows[v].parent.value].seqNo < rows[v].seqNo
  }

  lemma RowsAcyclic(t: Tables, g: GameId)
    requires TablesOk(t)
    ensures Acyclic(Rows(t, g))
  {
    forall v | v in Rows(t, g) ensures RowOk(t, v) { }
  }

  /** The apply order [full, .., v], if walking parents from `v` reaches a full. */
  ghost function Chain(rows: Versions, v: VersionId): Option<seq<VersionId>>
    requires Acyclic(rows)
    decreases if v in rows then rows[v].seqNo + 1 else 0
  {
    if v !in rows then None
    else if rows[v].kind == Full then Some([v])
    else if rows[v].parent.None? then None
    else Extend(Chain(rows, rows[v].parent.value), v)
  }

  function Extend(c: Option<seq<VersionId>>, v: VersionId): Option<seq<VersionId>> {
    if c.None? then None else Some(c.value + [v])
  }

  predicate Linked(rows: Versions, c: seq<VersionId>, i: nat)
    requires 0 < i < |c| && c[i] in rows
  {
    rows[c[i]].parent == Some(c[i - 1])
  }

  /** Independent reading of a chain: parent-linked, ending at `v`, its only full first. */
  ghost predicate IsChain(rows: Versions, c: seq<VersionId>, v: VersionId) {
    && c != [] && c[|c| - 1] == v
    && (forall i :: 0 <= i < |c| ==> c[i] in rows && (rows[c[i]].kind == Full <==> i == 0))
    && (forall i {:trigger Linked(rows, c, i)} :: 0 < i < |c| ==> Linked(rows, c, i))
  }

  lemma {:induction false} ChainIsLinked(rows: Versions, v: VersionId)
    requires Acyclic(rows) && Chain(rows, v).Some?
    ensures IsChain(rows, Chain(rows, v).value, v)
    decreases if v in rows then rows[v].seqNo + 1 else 0
  {
    if rows[v].kind == Differential {
      ChainIsLinked(rows, rows[v].parent.value);
      var front, c := Chain(rows, rows[v].parent.value).value, Chain(rows, v).value;
      forall i {:trigger Linked(rows, c, i)} | 0 < i < |c| ensures Linked(rows, c, i) {
        if i < |front| { assert Linked(rows, front, i); }
      }
    }
  }

  lemma {:induction false} LinkedIsChain(rows: Versions, c: seq<VersionId>, v: VersionId)
    requires Acyclic(rows) && IsChain(rows, c, v)
    ensures Chain(rows, v) == Some(c)
    decreases |c|
  {
    var front := c[..|c| - 1];
    assert c == front + [v];
    if front != [] {
      forall i {:trigger Linked(rows, front, i)} | 0 < i < |front|
        ensures Linked(rows, front, i)
      {
        assert Linked(rows, c, i);
      }
      assert Linked(rows, c, |c| - 1);
      LinkedIsChain(rows, front, c[|c| - 2]);
    }
  }

  /** What the walk returns is exactly the parent-linked list from the target's
      only full to the target; there is at most one. */
  lemma ChainIffLinked(rows: Versions, v: VersionId, c: seq<VersionId>)
    requires Acyclic(rows)
    ensures Chain(rows, v) == Some(c) <==> IsChain(rows, c, v)
  {
    if Chain(rows, v).Some? { ChainIsLinked(rows, v); }
    if IsChain(rows, c, v) { LinkedIsChain(rows, c, v); }
  }

  /** The loop of `build_chain`: follow parents until a full, then reverse. */
  method BuildChain(rows: Versions, target: VersionId) returns (r: Option<seq<VersionId>>)
    requires Acyclic(rows)
    ensures r == Chain(rows, target)
  {
    var chain: seq<VersionId> := [];
    var cursor := Some(target);
    var full := false;
    assert Chain(rows, target).Some? ==> Chain(rows, target).value + [] == Chain(rows, target).value;
    while cursor.Some? && !full
      invariant !full ==> Chain(rows, target) == Join(Link(rows, cursor), Reversed(chain))
      invariant full ==> Chain(rows, target) == Some(Reversed(chain))
      decreases !full, if cursor.None? then 0 else if cursor.value in rows then rows[cursor.value].seqNo + 2 else 1
    {
      var id := cursor.value;
      if id !in rows {
        return None;
      }
      ghost var was := chain;
      chain := chain + [id];
      assert Reversed(chain) == [id] + Reversed(was) by { assert chain[..|was|] == was; }
      if rows[id].kind == Full {
        full := true;
      } else {
        cursor := rows[id].parent;
        assert Chain(rows, id) == Extend(Link(rows, cursor), id);
        if Link(rows, cursor).Some? {
          assert Link(rows, cursor).value + [id] + Reversed(was) == Link(rows, cursor).value + Reversed(chain);
        }
      }
    }
    r := if full then Some(Reversed(chain)) else None;
  }

  ghost function Link(rows: Versions, cursor: Option<VersionId>): Option<seq<VersionId>>
    requires Acyclic(rows)
  {
    if cursor.None? then None else Chain(rows, cursor.value)
  }

  function Join(a: Option<seq<VersionId>>, b: seq<VersionId>): Option<seq<VersionId>> {
    if a.None? then None else Some(a.value + b)
  }

  function Reversed(s: seq<VersionId>): seq<VersionId> {
    if s == [] then [] else [s[|s| - 1]] + Reversed(s[..|s| - 1])
  }

  // ---- chains under insertion and deletion ----

  /** Inserting a version nobody names as parent leaves every chain as it was. */
  lemma {:induction false} ChainAfterInsert(rows: Versions, id: VersionId, row: Version, v: VersionId)
    requires Acyclic(rows) && Acyclic(rows[id := row]) && id !in rows && v in rows
    requires forall u :: u in rows ==> rows[u].parent != Some(id)
    ensures Chain(rows[id := row], v) == Chain(rows, v)
    decreases rows[v].seqNo
  {
    if rows[v].kind == Differential && rows[v].parent.Some? && rows[v].parent.value in rows {
      ChainAfterInsert(rows, id, row, rows[v].parent.value);
    }
  }

  ghost predicate Intact(c: Option<seq<VersionId>>, dead: set<VersionId>) {
    c.Some? && forall u :: u in c.value ==> u !in dead
  }

  /** Deleting versions never changes a chain into another one: a survivor keeps
      its chain if every member survives and has none otherwise. */
  lemma {:induction false} ChainAfterRemoval(rows: Versions, dead: set<VersionId>, v: VersionId)
    requires Acyclic(rows) && Acyclic(UnlinkAll(rows, dead)) && v in rows && v !in dead
    ensures Chain(UnlinkAll(rows, dead), v) == if Intact(Chain(rows, v), dead) then Chain(rows, v) else None
    decreases rows[v].seqNo
  {
    var left := UnlinkAll(rows, dead);
    if rows[v].kind == Differential && rows[v].parent.Some? && rows[v].parent.value in rows {
      var p := rows[v].parent.value;
      if Chain(rows, p).Some? {
        var c := Chain(rows, p).value;
        assert forall u :: u in c + [v] <==> u in c || u == v;
      }
      if p in dead {
        if Chain(rows, p).Some? { ChainIsLinked(rows, p); }
        assert left[v].parent == None;
      } else {
        ChainAfterRemoval(rows, dead, p);
      }
    }
  }

  lemma RowsAfterRemoval(t: Tables, dead: set<VersionId>, g: GameId)
    ensures Rows(RemoveAll(t, dead), g) == UnlinkAll(Rows(t, g), dead)
  {
    assert Rows(RemoveAll(t, dead), g).Keys == Rows(t, g).Keys - dead;
  }

  /** The restore chain of a stored version within its game's history. */
  ghost function ChainIn(t: Tables, v: VersionId): Option<seq<VersionId>>
    requires TablesOk(t)
  {
    if v !in t.versions then None
    else
      RowsAcyclic(t, t.versions[v].game);
      Chain(Rows(t, t.versions[v].game), v)
  }

  lemma RowsAfterCreate(t: Tables, g: GameId, req: CreateVersion, k: GameId)
    requires TablesOk(t) && Accepts(t, g, req)
    ensures Rows(Create(t, g, req).0, k) == if k == g then Rows(t, k)[t.nextId := NewRow(t, g, req)] else Rows(t, k)
  {
    FreshId(t);
  }

  /** Creating a version leaves every stored chain as it was; its own chain is
      itself, or its parent's extended by it. */
  lemma ChainInCreate(t: Tables, g: GameId, req: CreateVersion, v: VersionId)
    requires TablesOk(t) && Accepts(t, g, req) && TablesOk(Create(t, g, req).0)
    ensures v in t.versions ==> ChainIn(Create(t, g, req).0, v) == ChainIn(t, v)
    ensures req.kind == Full ==> ChainIn(Create(t, g, req).0, t.nextId) == Some([t.nextId])
    ensures req.kind == Differential && req.parent.Some? && t.versions[req.parent.value].game == g ==>
      ChainIn(Create(t, g, req).0, t.nextId) == Extend(ChainIn(t, req.parent.value), t.nextId)
    ensures req.kind == Differential && (req.parent.Some? ==> t.versions[req.parent.value].game != g) ==>
      ChainIn(Create(t, g, req).0, t.nextId) == None
  {
    FreshId(t);
    var u, id := Create(t, g, req).0, t.nextId;
    RowsAcyclic(t, g);
    RowsAcyclic(u, g);
    RowsAfterCreate(t, g, req, g);
    forall w | w in Rows(t, g) ensures Rows(t, g)[w].parent != Some(id) { assert RowOk(t, w); }
    if v in t.versions {
      if t.versions[v].game == g {
        ChainAfterInsert(Rows(t, g), id, NewRow(t, g, req), v);
      } else {
        RowsAfterCreate(t, g, req, t.versions[v].game);
      }
    }
    if req.kind == Differential && req.parent.Some? && t.versions[req.parent.value].game == g {
      ChainAfterInsert(Rows(t, g), id, NewRow(t, g, req), req.parent.value);
    } else if req.kind == Differential && req.parent.Some? {
      assert req.parent.value !in Rows(u, g);
      assert Chain(Rows(u, g), req.parent.value) == None;
    }
  }

  // ---- writing and replaying ----

  /** Unpack one archive over the merged files: payload first, then deletions. */
  function Apply(merged: Contents, a: Archive): Contents {
    (merged + a.payload) - a.deletions
  }

  ghost function ApplyHashes(merged: Hashes, a: Archive): Hashes {
    (merged + HashContents(a.payload)) - a.deletions
  }

  lemma ApplyCommutes(merged: Contents, a: Archive)
    ensures HashContents(Apply(merged, a)) == ApplyHashes(HashContents(merged), a)
  {
  }

  ghost function Replay(rows: Versions, c: seq<VersionId>): Contents
    requires forall v :: v in c ==> v in rows
  {
    if c == [] then map[] else Apply(Replay(rows, c[..|c| - 1]), rows[c[|c| - 1]].blob)
  }

  /** The merge loop of `run_restore`: each archive's payload overrides, each of
      its deletions drops. */
  method MergeChain(rows: Versions, c: seq<VersionId>) returns (merged: Contents)
    requires forall v :: v in c ==> v in rows
    ensures merged == Replay(rows, c)
  {
    merged := map[];
    for i := 0 to |c|
      invariant merged == Replay(rows, c[..i])
    {
      var archive := rows[c[i]].blob;
      merged := merged + archive.payload;
      merged := merged - archive.deletions;
      assert c[..i + 1][..i] == c[..i];
    }
    assert c[..|c|] == c;
  }

  /** The archive of a full holds its whole file set; that of a differential turns
      the file set of its parent, while that is stored, into its own. */
  ghost predicate Carries(
    versions: Versions, g: GameId, parent: Option<VersionId>, kind: Kind, files: FileSet, a: Archive)
  {
    match kind
    case Full => HashContents(a.payload) == HashesOf(files) && a.deletions == {}
    case Differential =>
      parent.Some? && parent.value in versions ==>
        && versions[parent.value].game == g
        && ApplyHashes(HashesOf(versions[parent.value].files), a) == HashesOf(files)
  }

  ghost predicate RowCarries(versions: Versions, v: VersionId)
    requires v in versions
  {
    var row := versions[v];
    Carries(versions, row.game, row.parent, row.kind, row.files, row.blob)
  }

  /** Replaying a chain of well-written archives yields exactly the target's files. */
  lemma {:induction false} ReplayFaithful(rows: Versions, c: seq<VersionId>, v: VersionId)
    requires IsChain(rows, c, v)
    requires forall u :: u in rows ==> RowCarries(rows, u)
    ensures HashContents(Replay(rows, c)) == HashesOf(rows[v].files)
    decreases |c|
  {
    var front := c[..|c| - 1];
    ApplyCommutes(Replay(rows, front), rows[v].blob);
    assert RowCarries(rows, v);
    if |c| > 1 {
      var p := c[|c| - 2];
      assert Linked(rows, c, |c| - 1);
      forall i {:trigger Linked(rows, front, i)} | 0 < i < |front|
        ensures Linked(rows, front, i)
      {
        assert Linked(rows, c, i);
      }
      ReplayFaithful(rows, front, p);
    }
  }

  /** The reader undoes the writer: whatever base the diff was taken against, an
      archive of the changed contents and the deleted paths turns any contents
      with that base's hashes into contents with the new hashes. */
  lemma DiffUndone(base: FileSet, files: FileSet, contents: Contents, a: Archive)
    requires HashContents(contents) == HashesOf(files)
    requires a.payload.Keys == Changed(base, files) && a.deletions == Deleted(base, files)
    requires forall p :: p in a.payload ==> p in contents && a.payload[p] == contents[p]
    ensures ApplyHashes(HashesOf(base), a) == HashesOf(files)
  {
    var out := ApplyHashes(HashesOf(base), a);
    assert contents.Keys == HashContents(contents).Keys == files.Keys;
    assert out.Keys == files.Keys;
    forall p | p in files ensures out[p] == files[p].hash {
      if p in a.payload {
        assert HashContents(contents)[p] == HashesOf(files)[p];
      }
    }
  }
}

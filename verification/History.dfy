/** The server alone, under any requests from any clients: the line of heads, the
    sequence numbers it hands out, and offline catch-up
    (crates/savr-server/src/db.rs). */
module History {
  import opened Types
  import opened ServerTables
  import opened Chains
  import opened Pruning

  datatype Request =
    | Register(game: GameId)
    | PutArchive(archive: Archive)
    | Upload(game: GameId, body: CreateVersion)
    | Decide(game: GameId, winner: VersionId)
    | Collect(game: GameId, retention: Retention)

  ghost function Serve(t: Tables, r: Request): (u: Tables)
    requires TablesOk(t)
    ensures TablesOk(u)
    ensures Conserved(t) ==> Conserved(u)
  {
    match r
    case Register(g) => EnsureGameKeeps(t, g); EnsureGame(t, g)
    case PutArchive(a) => PutBlobKeeps(t, a); PutBlob(t, a)
    case Upload(g, body) =>
      CreateKeepsTables(t, g, body);
      assert Conserved(t) ==> Conserved(Create(t, g, body).0) by {
        if Conserved(t) { CreateKeepsReferences(t, g, body); }
      }
      Create(t, g, body).0
    case Decide(g, winner) => ResolveKeeps(t, g, winner); Resolve(t, g, winner).0
    case Collect(g, ret) => PruneKeepsTables(t, g, ret); Prune(t, g, ret)
  }

  ghost function ServeAll(t: Tables, rs: seq<Request>): (u: Tables)
    requires TablesOk(t)
    ensures TablesOk(u)
    ensures Conserved(t) ==> Conserved(u)
    decreases |rs|
  {
    if rs == [] then t else Serve(ServeAll(t, rs[..|rs| - 1]), rs[|rs| - 1])
  }

  /** Reference conservation in every reachable state, for any requests at all: each
      version's blob row exists and each blob row counts the versions naming it. */
  lemma ReferencesConserved(rs: seq<Request>)
    ensures Conserved(ServeAll(EMPTY, rs))
  {
    assert Conserved(EMPTY);
  }

  // ---- the line of heads ----

  datatype Advance = Advance(parent: Option<VersionId>, id: VersionId)

  /** The fast-forwards of game `g` in a run, in order. */
  ghost function Advances(t: Tables, rs: seq<Request>, g: GameId): seq<Advance>
    requires TablesOk(t)
    decreases |rs|
  {
    if rs == [] then []
    else
      var before, r := ServeAll(t, rs[..|rs| - 1]), rs[|rs| - 1];
      Advances(t, rs[..|rs| - 1], g)
      + FastForwarded(before, r, g)
  }

  ghost predicate LogLinked(log: seq<Advance>) {
    forall i :: 0 < i < |log| ==> log[i].parent == Some(log[i - 1].id)
  }

  ghost predicate LogBetween(log: seq<Advance>, lo: nat, hi: nat) {
    forall i :: 0 <= i < |log| ==> lo <= log[i].id < hi
  }

  ghost predicate LogRising(log: seq<Advance>) {
    forall i, j :: 0 <= i < j < |log| ==> log[i].id < log[j].id
  }

  /** `log` leads from head `start` to head `end`, each step to a child of the last,
      through ever newer ids from `lo` up to `hi`. */
  ghost predicate OnLine(lo: nat, start: Option<VersionId>, log: seq<Advance>, hi: nat, end: Option<VersionId>) {
    && (log != [] ==> log[0].parent == start)
    && LogLinked(log) && LogBetween(log, lo, hi) && LogRising(log)
    && end == (if log == [] then start else Some(log[|log| - 1].id))
    && lo <= hi
  }

  function FastForwarded(t: Tables, r: Request, g: GameId): seq<Advance> {
    if r.Upload? && r.game == g && Create(t, g, r.body).1.FastForward? then [Advance(r.body.parent, t.nextId)] else []
  }

  lemma HeadAfterUpload(t: Tables, k: GameId, body: CreateVersion, g: GameId)
    requires g in t.heads
    ensures var (u, o) := Create(t, k, body);
      && g in u.heads && t.nextId <= u.nextId
      && (k == g && o.FastForward? ==>
            u.heads[g] == Some(t.nextId) && t.heads[g] == body.parent && t.nextId < u.nextId)
      && (!(k == g && o.FastForward?) ==> u.heads[g] == t.heads[g])
  {
  }

  lemma HeadAfterOther(t: Tables, r: Request, g: GameId)
    requires TablesOk(t) && g in t.heads && !r.Upload? && !(r.Decide? && r.game == g)
    ensures var u := Serve(t, r); g in u.heads && u.heads[g] == t.heads[g] && u.nextId == t.nextId
  {
  }

  lemma HeadAfter(t: Tables, g: GameId, r: Request)
    requires TablesOk(t) && g in t.heads && !(r.Decide? && r.game == g)
    ensures var u, more := Serve(t, r), FastForwarded(t, r, g);
      && g in u.heads && t.nextId <= u.nextId
      && u.heads[g] == (if more == [] then t.heads[g] else Some(t.nextId))
      && (more != [] ==> more == [Advance(t.heads[g], t.nextId)] && t.nextId < u.nextId)
  {
    if r.Upload? {
      HeadAfterUpload(t, r.game, r.body, g);
    } else {
      HeadAfterOther(t, r, g);
    }
  }

  lemma LogExtends(log: seq<Advance>, lo: nat, hi: nat, a: Advance, top: nat)
    requires LogLinked(log) && LogBetween(log, lo, hi) && LogRising(log)
    requires lo <= hi == a.id < top && (log != [] ==> a.parent == Some(log[|log| - 1].id))
    ensures LogLinked(log + [a]) && LogBetween(log + [a], lo, top) && LogRising(log + [a])
  {
  }

  lemma LineExtends(lo: nat, start: Option<VersionId>, log: seq<Advance>, hi: nat, end: Option<VersionId>, top: nat)
    requires OnLine(lo, start, log, hi, end) && hi <= top
    ensures OnLine(lo, start, log + [], top, end)
    ensures hi < top ==> OnLine(lo, start, log + [Advance(end, hi)], top, Some(hi))
  {
    assert log + [] == log;
    if hi < top { LogExtends(log, lo, hi, Advance(end, hi), top); }
  }

  /** Until a conflict is decided by hand, whatever any number of devices upload in any
      order, the successive heads are one parent-linked line from the starting head,
      and at most one child of any version, or of the empty head, fast-forwards. */
  lemma {:induction false} HeadsFormALine(t: Tables, rs: seq<Request>, g: GameId)
    requires TablesOk(t) && g in t.heads
    requires forall r :: r in rs ==> !(r.Decide? && r.game == g)
    ensures g in ServeAll(t, rs).heads
    ensures OnLine(t.nextId, t.heads[g], Advances(t, rs, g), ServeAll(t, rs).nextId, ServeAll(t, rs).heads[g])
    ensures forall i, j :: 0 <= i < j < |Advances(t, rs, g)| ==>
        Advances(t, rs, g)[i].parent != Advances(t, rs, g)[j].parent
    decreases |rs|
  {
    if rs != [] {
      var front := rs[..|rs| - 1];
      HeadsFormALine(t, front, g);
      var u, r := ServeAll(t, front), rs[|rs| - 1];
      HeadAfter(u, g, r);
      LineExtends(t.nextId, t.heads[g], Advances(t, front, g), u.nextId, u.heads[g], Serve(u, r).nextId);
    }
    if t.heads[g].Some? {
      assert t.heads[g].value in Rows(t, g) && RowOk(t, t.heads[g].value);
    }
    LineParentsDistinct(t.nextId, t.heads[g], Advances(t, rs, g), ServeAll(t, rs).nextId, ServeAll(t, rs).heads[g]);
  }

  lemma LineParentsDistinct(lo: nat, start: Option<VersionId>, log: seq<Advance>, hi: nat, end: Option<VersionId>)
    requires OnLine(lo, start, log, hi, end) && (start.Some? ==> start.value < lo)
    ensures forall i, j :: 0 <= i < j < |log| ==> log[i].parent != log[j].parent
  {
    forall i, j | 0 <= i < j < |log| ensures log[i].parent != log[j].parent {
      assert log[j].parent == Some(log[j - 1].id) && lo <= log[j - 1].id;
      if i > 0 {
        assert log[i].parent == Some(log[i - 1].id) && log[i - 1].id < log[j - 1].id;
      }
    }
  }

  lemma ServeIsAdditive(t: Tables, r: Request, v: VersionId)
    requires TablesOk(t) && v in t.versions && !r.Collect?
    ensures v in Serve(t, r).versions && Serve(t, r).versions[v] == t.versions[v]
  {
    FreshId(t);
  }

  /** Backups are additive: with no retention pass, every version stored at any point
      of a run is still there, unaltered, at its end. */
  lemma {:induction false} HistoryIsAdditive(t: Tables, rs: seq<Request>, v: VersionId)
    requires TablesOk(t) && v in t.versions && forall r :: r in rs ==> !r.Collect?
    ensures v in ServeAll(t, rs).versions && ServeAll(t, rs).versions[v] == t.versions[v]
    decreases |rs|
  {
    if rs != [] {
      HistoryIsAdditive(t, rs[..|rs| - 1], v);
      ServeIsAdditive(ServeAll(t, rs[..|rs| - 1]), rs[|rs| - 1], v);
    }
  }

  // ---- sequence numbers ----

  lemma NewestExists(t: Tables, g: GameId) returns (v: VersionId)
    requires TablesOk(t) && Rows(t, g) != map[]
    ensures Newest(Rows(t, g), v) && t.versions[v].seqNo == MaxSeq(t.versions, g)
  {
    MaxSeqBounds(t.versions, g);
    var w :| w in Rows(t, g);
    assert RowOk(t, w);
    v :| v in t.versions && t.versions[v].game == g && t.versions[v].seqNo == MaxSeq(t.versions, g);
  }

  /** Exactly when a pass leaves the numbers it has handed out unusable: the next seq
      exceeds every seq stored before the pass if and only if the newest version is
      the head, no resolved loser, or covered by retention. */
  lemma SeqStaysFreshIff(t: Tables, g: GameId, ret: Retention, v: VersionId)
    requires TablesOk(t) && g in t.heads && Newest(Rows(t, g), v)
    ensures MaxSeq(Prune(t, g, ret).versions, g) + 1 > t.versions[v].seqNo <==>
      || t.heads[g] == Some(v)
      || v !in LosersOf(t, g)
      || (ret.full >= 1 && (t.versions[v].kind == Full || (ret.diffPerFull >= 1 && HasOwner(Rows(t, g), v))))
  {
    RowsOrdered(t, g);
    NewestKeptIff(Rows(t, g), t.heads[g], LosersOf(t, g), ret, v);
    NextSeqIff(t, DeadIn(t, g, ret), g, v);
  }

  /** After deletions the next seq passes the newest one exactly if that was spared. */
  lemma NextSeqIff(t: Tables, dead: set<VersionId>, g: GameId, v: VersionId)
    requires TablesOk(t) && Newest(Rows(t, g), v)
    ensures MaxSeq(UnlinkAll(t.versions, dead), g) + 1 > t.versions[v].seqNo <==> v !in dead
  {
    var left := UnlinkAll(t.versions, dead);
    MaxSeqBounds(left, g);
    assert RowOk(t, v);
    if v !in dead {
      assert v in left && left[v].seqNo == t.versions[v].seqNo;
    } else if MaxSeq(left, g) > 0 {
      var w :| w in left && left[w].game == g && left[w].seqNo == MaxSeq(left, g);
      assert w in t.versions && left[w] == Unlink(t.versions[w], dead) && w in Rows(t, g) && v in Rows(t, g);
      assert !SameSlot(t.versions[v], t.versions[w]);
    }
  }

  /** A retention that keeps no full reuses the number of a resolved loser. */
  lemma SeqReused(t: Tables, g: GameId, v: VersionId)
    requires TablesOk(t) && g in t.heads && Newest(Rows(t, g), v) && t.heads[g] != Some(v) && v in LosersOf(t, g)
    ensures MaxSeq(Prune(t, g, Retention(0, 0)).versions, g) + 1 <= t.versions[v].seqNo
  {
    SeqStaysFreshIff(t, g, Retention(0, 0), v);
  }

  ghost predicate AllOwned(rows: Versions) {
    forall v {:trigger HasOwner(rows, v)} :: v in rows ==> HasOwner(rows, v)
  }

  /** Every version of the game has a nearest full at or before it. */
  ghost predicate Anchored(t: Tables, g: GameId) {
    AllOwned(Rows(t, g))
  }

  /** The requests under which sequence numbers are never reused: retention keeps at
      least one full and one differential, and a game starts with a full. */
  predicate Orderly(t: Tables, r: Request) {
    match r
    case Upload(g, body) => Rows(t, g) == map[] ==> body.kind == Full
    case Collect(g, ret) => ret.full >= 1 && ret.diffPerFull >= 1
    case _ => true
  }

  /** A later row takes no version away from its owner. */
  lemma OwnsAfterInsert(rows: Versions, id: VersionId, row: Version, f: VersionId, v: VersionId)
    requires id !in rows && Owns(rows, f, v) && rows[v].seqNo < row.seqNo
    ensures Owns(rows[id := row], f, v)
  {
  }

  lemma InsertedOwner(rows: Versions, id: VersionId, row: Version, newest: VersionId)
    requires id !in rows && Newest(rows, newest) && rows[newest].seqNo < row.seqNo && row.kind == Differential
    requires HasOwner(rows, newest)
    ensures HasOwner(rows[id := row], id)
  {
    var f :| f in rows && Owns(rows, f, newest);
    assert Owns(rows[id := row], f, id);
  }

  lemma FullOwnsItself(rows: Versions, v: VersionId)
    requires v in rows && IsFull(rows, v)
    ensures HasOwner(rows, v)
  {
    assert Owns(rows, v, v);
  }

  lemma InsertKeepsOwner(rows: Versions, id: VersionId, row: Version, v: VersionId)
    requires id !in rows && HasOwner(rows, v) && v in rows && rows[v].seqNo < row.seqNo
    ensures HasOwner(rows[id := row], v)
  {
    var f :| f in rows && Owns(rows, f, v);
    OwnsAfterInsert(rows, id, row, f, v);
  }

  lemma InsertOwned(rows: Versions, id: VersionId, row: Version, newest: VersionId)
    requires id !in rows && AllOwned(rows)
    requires forall w :: w in rows ==> rows[w].seqNo < row.seqNo
    requires row.kind == Full || Newest(rows, newest)
    ensures AllOwned(rows[id := row])
  {
    var more := rows[id := row];
    forall v | v in more ensures HasOwner(more, v) {
      if v != id {
        InsertKeepsOwner(rows, id, row, v);
      } else if row.kind == Full {
        FullOwnsItself(more, id);
      } else {
        InsertedOwner(rows, id, row, newest);
      }
    }
  }

  lemma UploadAnchored(t: Tables, k: GameId, body: CreateVersion, g: GameId)
    requires TablesOk(t) && Anchored(t, g) && Orderly(t, Upload(k, body))
    ensures Anchored(Create(t, k, body).0, g)
  {
    if Accepts(t, k, body) {
      RowsAfterCreate(t, k, body, g);
      if k == g {
        FreshId(t);
        MaxSeqBounds(t.versions, g);
        var newest := 0;
        if Rows(t, g) != map[] { newest := NewestExists(t, g); }
        InsertOwned(Rows(t, g), t.nextId, NewRow(t, g, body), newest);
      }
    }
  }

  lemma PruneOwned(rows: Versions, head: Option<VersionId>, losers: set<VersionId>, ret: Retention)
    requires Ordered(rows) && AllOwned(rows)
    ensures AllOwned(UnlinkAll(rows, Dead(rows, head, losers, ret)))
  {
    var left := UnlinkAll(rows, Dead(rows, head, losers, ret));
    forall v | v in left ensures HasOwner(left, v) {
      assert HasOwner(rows, v);
      var f :| f in rows && Owns(rows, f, v);
      OwnerSurvives(rows, head, losers, ret, f, v);
    }
  }

  lemma UnlinkOwned(rows: Versions, dead: set<VersionId>)
    requires AllOwned(rows) && dead !! rows.Keys
    ensures AllOwned(UnlinkAll(rows, dead))
  {
    var left := UnlinkAll(rows, dead);
    forall v | v in left ensures HasOwner(left, v) {
      assert HasOwner(rows, v);
      var f :| f in rows && Owns(rows, f, v);
      OwnsSurvives(rows, dead, f, v);
    }
  }

  lemma CollectAnchored(t: Tables, k: GameId, ret: Retention, g: GameId)
    requires TablesOk(t) && Anchored(t, g)
    ensures Anchored(Prune(t, k, ret), g)
  {
    if k in t.heads {
      RowsAfterRemoval(t, DeadIn(t, k, ret), g);
      if k == g {
        RowsOrdered(t, g);
        PruneOwned(Rows(t, g), t.heads[g], LosersOf(t, g), ret);
      } else {
        UnlinkOwned(Rows(t, g), DeadIn(t, k, ret));
      }
    }
  }

  lemma CollectKeepsNewest(t: Tables, g: GameId, ret: Retention, v: VersionId)
    requires TablesOk(t) && g in t.heads && Anchored(t, g) && ret.full >= 1
    requires ret.diffPerFull >= 1 && Newest(Rows(t, g), v)
    ensures v !in DeadIn(t, g, ret)
  {
    RowsOrdered(t, g);
    assert HasOwner(Rows(t, g), v);
    NewestKeptIff(Rows(t, g), t.heads[g], LosersOf(t, g), ret, v);
  }

  /** The highest seq is the one nobody exceeds. */
  lemma MaxSeqIs(versions: Versions, g: GameId, v: VersionId)
    requires v in versions && versions[v].game == g
    requires forall w :: w in versions && versions[w].game == g ==> versions[w].seqNo <= versions[v].seqNo
    ensures MaxSeq(versions, g) == versions[v].seqNo
  {
    MaxSeqBounds(versions, g);
    if MaxSeq(versions, g) > 0 {
      var w :| w in versions && versions[w].game == g && versions[w].seqNo == MaxSeq(versions, g);
    }
  }

  lemma NoRowsNoSeq(versions: Versions, g: GameId)
    requires forall v :: v in versions ==> versions[v].game != g
    ensures MaxSeq(versions, g) == 0
  {
    MaxSeqBounds(versions, g);
  }

  /** Deleting versions other than the newest of a game keeps its highest seq. */
  lemma UnlinkKeepsMax(versions: Versions, dead: set<VersionId>, g: GameId, v: VersionId)
    requires v in versions && versions[v].game == g && versions[v].seqNo == MaxSeq(versions, g) && v !in dead
    ensures MaxSeq(UnlinkAll(versions, dead), g) == MaxSeq(versions, g)
  {
    MaxSeqBounds(versions, g);
    MaxSeqIs(UnlinkAll(versions, dead), g, v);
  }

  lemma CollectKeepsMax(t: Tables, k: GameId, ret: Retention, g: GameId)
    requires TablesOk(t) && Anchored(t, g) && ret.full >= 1 && ret.diffPerFull >= 1
    ensures MaxSeq(Prune(t, k, ret).versions, g) == MaxSeq(t.versions, g)
  {
    if k in t.heads {
      var dead := DeadIn(t, k, ret);
      if Rows(t, g) == map[] {
        forall v | v in t.versions ensures t.versions[v].game != g { assert v !in Rows(t, g); }
        NoRowsNoSeq(t.versions, g);
        NoRowsNoSeq(UnlinkAll(t.versions, dead), g);
      } else {
        var v := NewestExists(t, g);
        if k == g { CollectKeepsNewest(t, g, ret, v); }
        UnlinkKeepsMax(t.versions, dead, g, v);
      }
    }
  }

  lemma InsertSeq(versions: Versions, id: VersionId, row: Version, g: GameId)
    requires id !in versions && (row.game == g ==> row.seqNo == MaxSeq(versions, g) + 1)
    ensures MaxSeq(versions[id := row], g) == MaxSeq(versions, g) + if row.game == g then 1 else 0
  {
    MaxSeqBounds(versions, g);
    if row.game == g {
      MaxSeqIs(versions[id := row], g, id);
    } else {
      forall n ensures n in SeqNos(versions[id := row], g) <==> n in SeqNos(versions, g) {
        if v :| v in versions && versions[v].game == g && versions[v].seqNo == n {
          assert versions[id := row][v].seqNo == n;
        }
      }
      assert SeqNos(versions[id := row], g) == SeqNos(versions, g);
    }
  }

  lemma UploadSeq(t: Tables, k: GameId, body: CreateVersion, g: GameId)
    requires TablesOk(t)
    ensures MaxSeq(Create(t, k, body).0.versions, g)
        == MaxSeq(t.versions, g) + if k == g && Accepts(t, g, body) then 1 else 0
  {
    if Accepts(t, k, body) {
      FreshId(t);
      InsertSeq(t.versions, t.nextId, NewRow(t, k, body), g);
    }
  }

  lemma QuietSeq(t: Tables, u: Tables, g: GameId)
    requires t.versions == u.versions
    ensures Rows(u, g) == Rows(t, g) && MaxSeq(u.versions, g) == MaxSeq(t.versions, g)
  {
  }

  /** One request never lowers the highest seq, and an accepted upload raises it. */
  lemma ServeSeq(t: Tables, r: Request, g: GameId)
    requires TablesOk(t) && Anchored(t, g) && Orderly(t, r)
    ensures Anchored(Serve(t, r), g)
    ensures MaxSeq(Serve(t, r).versions, g) == MaxSeq(t.versions, g) + |NewSeqs(t, r, g)|
  {
    if r.Upload? {
      UploadAnchored(t, r.game, r.body, g);
      UploadSeq(t, r.game, r.body, g);
    } else if r.Collect? {
      CollectAnchored(t, r.game, r.retention, g);
      CollectKeepsMax(t, r.game, r.retention, g);
    } else {
      QuietSeq(t, Serve(t, r), g);
    }
  }

  function NewSeqs(t: Tables, r: Request, g: GameId): seq<nat> {
    if r.Upload? && r.game == g && Accepts(t, g, r.body) then [NewRow(t, g, r.body).seqNo] else []
  }

  ghost predicate OrderlyRun(t: Tables, rs: seq<Request>)
    requires TablesOk(t)
    decreases |rs|
  {
    rs == [] || (OrderlyRun(t, rs[..|rs| - 1]) && Orderly(ServeAll(t, rs[..|rs| - 1]), rs[|rs| - 1]))
  }

  /** The seqs handed out for `g` over a run, in order. */
  ghost function Issued(t: Tables, rs: seq<Request>, g: GameId): seq<nat>
    requires TablesOk(t)
    decreases |rs|
  {
    if rs == [] then []
    else
      var before, r := ServeAll(t, rs[..|rs| - 1]), rs[|rs| - 1];
      Issued(t, rs[..|rs| - 1], g)
      + NewSeqs(before, r, g)
  }

  ghost predicate Increasing(s: seq<nat>, top: nat) {
    && (forall i, j :: 0 <= i < j < |s| ==> s[i] < s[j])
    && (forall i :: 0 <= i < |s| ==> s[i] <= top)
  }

  lemma IncreasingSnoc(s: seq<nat>, top: nat, more: seq<nat>)
    requires Increasing(s, top) && (more == [] || more == [top + 1])
    ensures Increasing(s + more, top + |more|)
  {
  }

  lemma NewSeqIsNext(t: Tables, r: Request, g: GameId)
    ensures NewSeqs(t, r, g) == [] || NewSeqs(t, r, g) == [MaxSeq(t.versions, g) + 1]
  {
  }

  lemma SeqStep(u: Tables, r: Request, g: GameId, issued: seq<nat>)
    requires TablesOk(u) && Anchored(u, g) && Orderly(u, r) && Increasing(issued, MaxSeq(u.versions, g))
    ensures Anchored(Serve(u, r), g) && Increasing(issued + NewSeqs(u, r, g), MaxSeq(Serve(u, r).versions, g))
  {
    var top, more := MaxSeq(u.versions, g), NewSeqs(u, r, g);
    assert Increasing(issued + more, top + |more|) by {
      NewSeqIsNext(u, r, g);
      IncreasingSnoc(issued, top, more);
    }
    ServeSeq(u, r, g);
  }

  /** Over any orderly run of uploads, resolves and retention passes the sequence
      numbers of a game strictly increase: none is ever reused. */
  lemma {:induction false} SeqNeverReused(t: Tables, rs: seq<Request>, g: GameId)
    requires TablesOk(t) && Anchored(t, g) && OrderlyRun(t, rs)
    ensures Anchored(ServeAll(t, rs), g)
    ensures Increasing(Issued(t, rs, g), MaxSeq(ServeAll(t, rs).versions, g))
    decreases |rs|
  {
    if rs != [] {
      var front, r := rs[..|rs| - 1], rs[|rs| - 1];
      SeqNeverReused(t, front, g);
      SeqStep(ServeAll(t, front), r, g, Issued(t, front, g));
    }
  }
}

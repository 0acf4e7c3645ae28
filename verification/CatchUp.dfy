/** Offline catch-up over whole sessions: a client that reconnects again and again
    while the server keeps serving others (crates/savr-server/src/db.rs,
    `versions_since`). */
module CatchUp {
  import opened Types
  import opened ServerTables
  import opened Pruning
  import opened ServerStore
  import opened History

  /** The server, what the client knows, and everything replayed to it so far. */
  datatype Session = Session(tables: Tables, last: map<GameId, nat>, got: seq<Notice>)

  /** The server serves a request, or the client says hello and is replayed `out`. */
  datatype Happening = Served(request: Request) | Hello(out: seq<Notice>)

  /** The client advances its per-game mark to the maximum replayed. */
  function Absorb(last: map<GameId, nat>, out: seq<Notice>): map<GameId, nat> {
    if out == [] then last
    else
      var before, n := Absorb(last, out[..|out| - 1]), out[|out| - 1];
      if n.seqNo > LastSeq(before, n.game) then before[n.game := n.seqNo] else before
  }

  /** A hello is answered as `versions_since` does; any request may be served. */
  ghost predicate Honest(s: Session, e: Happening) {
    e.Hello? ==> IsReplay(s.tables.versions, s.last, e.out)
  }

  /** Orderly requests only. */
  ghost predicate Fair(s: Session, e: Happening)
    requires TablesOk(s.tables)
  {
    Honest(s, e) && (e.Served? ==> Orderly(s.tables, e.request))
  }

  ghost function Go(s: Session, e: Happening): (s': Session)
    requires TablesOk(s.tables)
    ensures TablesOk(s'.tables)
  {
    match e
    case Served(r) => s.(tables := Serve(s.tables, r))
    case Hello(out) => s.(last := Absorb(s.last, out), got := s.got + out)
  }

  ghost function GoAll(s: Session, es: seq<Happening>): (s': Session)
    requires TablesOk(s.tables)
    ensures TablesOk(s'.tables)
    decreases |es|
  {
    if es == [] then s else Go(GoAll(s, es[..|es| - 1]), es[|es| - 1])
  }

  ghost predicate HonestRun(s: Session, es: seq<Happening>)
    requires TablesOk(s.tables)
    decreases |es|
  {
    es == [] || (HonestRun(s, es[..|es| - 1]) && Honest(GoAll(s, es[..|es| - 1]), es[|es| - 1]))
  }

  ghost predicate FairRun(s: Session, es: seq<Happening>)
    requires TablesOk(s.tables)
    decreases |es|
  {
    es == [] || (FairRun(s, es[..|es| - 1]) && Fair(GoAll(s, es[..|es| - 1]), es[|es| - 1]))
  }

  // ---- what a session keeps ----

  function NoticeOf(versions: Versions, v: VersionId): Notice
    requires v in versions
  {
    Notice(versions[v].game, v, versions[v].seqNo)
  }

  predicate Follows(a: Notice, b: Notice) {
    a.id != b.id && (a.game == b.game ==> a.seqNo < b.seqNo)
  }

  /** Nothing was replayed twice, and within a game seqs only went up. */
  ghost predicate InOrderOnce(got: seq<Notice>) {
    forall i, j :: 0 <= i < j < |got| ==> Follows(got[i], got[j])
  }

  ghost predicate KnownNotice(t: Tables, last: map<GameId, nat>, n: Notice) {
    && n.seqNo <= LastSeq(last, n.game) && n.id < t.nextId
    && (n.id in t.versions ==> NoticeOf(t.versions, n.id) == n)
  }

  /** The client's mark of the version's game has reached it. */
  predicate Covers(last: map<GameId, nat>, row: Version) {
    row.seqNo <= LastSeq(last, row.game)
  }

  /** The versions a step stores under a number the client's mark has passed. */
  ghost function MissedBy(s: Session, e: Happening): set<VersionId>
    requires TablesOk(s.tables)
  {
    var u := Go(s, e).tables;
    set v | v in u.versions && v >= s.tables.nextId && Covers(s.last, u.versions[v])
  }

  ghost function Missed(s: Session, es: seq<Happening>): set<VersionId>
    requires TablesOk(s.tables)
    decreases |es|
  {
    if es == [] then {}
    else Missed(s, es[..|es| - 1]) + MissedBy(GoAll(s, es[..|es| - 1]), es[|es| - 1])
  }

  /** Of the stored versions under its marks, the client was told all but `missed`. */
  ghost predicate Tracked(s: Session, missed: set<VersionId>) {
    && TablesOk(s.tables)
    && (forall n :: n in s.got ==> KnownNotice(s.tables, s.last, n))
    && InOrderOnce(s.got)
    && (forall v :: v in missed ==> v < s.tables.nextId)
    && (forall v :: v in s.tables.versions ==> TellsAllBut(s, missed, v))
  }

  ghost predicate TellsAllBut(s: Session, missed: set<VersionId>, v: VersionId)
    requires v in s.tables.versions
  {
    if Covers(s.last, s.tables.versions[v]) then NoticeOf(s.tables.versions, v) in s.got <==> v !in missed
    else v !in missed
  }

  ghost predicate Settled(s: Session) {
    && Tracked(s, {})
    && (forall g :: Anchored(s.tables, g))
    && (forall g :: LastSeq(s.last, g) <= MaxSeq(s.tables.versions, g))
  }

  lemma {:induction false} AbsorbMarks(last: map<GameId, nat>, out: seq<Notice>, g: GameId)
    ensures LastSeq(last, g) <= LastSeq(Absorb(last, out), g)
    ensures forall n :: n in out && n.game == g ==> n.seqNo <= LastSeq(Absorb(last, out), g)
    ensures LastSeq(Absorb(last, out), g) == LastSeq(last, g)
         || exists n :: n in out && n.game == g && n.seqNo == LastSeq(Absorb(last, out), g)
    decreases |out|
  {
    if out != [] {
      AbsorbMarks(last, out[..|out| - 1], g);
      assert out == out[..|out| - 1] + [out[|out| - 1]];
    }
  }

  /** What a step to `u` may do to the rows a client may know of. */
  ghost predicate RowsFollow(t: Tables, u: Tables) {
    && t.nextId <= u.nextId
    && forall v :: v in u.versions ==>
         && (v < t.nextId ==> v in t.versions && NoticeOf(u.versions, v) == NoticeOf(t.versions, v))
         && (v >= t.nextId ==> u.versions[v].seqNo == MaxSeq(t.versions, u.versions[v].game) + 1)
  }

  lemma UploadRows(t: Tables, g: GameId, body: CreateVersion)
    requires TablesOk(t)
    ensures RowsFollow(t, Create(t, g, body).0)
  {
    forall v | v in t.versions ensures v < t.nextId { assert RowOk(t, v); }
  }

  lemma RemovedRows(t: Tables, dead: set<VersionId>)
    requires TablesOk(t)
    ensures RowsFollow(t, RemoveAll(t, dead))
  {
    forall v | v in t.versions ensures v < t.nextId { assert RowOk(t, v); }
  }

  lemma CollectRows(t: Tables, g: GameId, ret: Retention)
    requires TablesOk(t)
    ensures RowsFollow(t, Prune(t, g, ret))
  {
    if g in t.heads { RemovedRows(t, DeadIn(t, g, ret)); } else { SameRowsFollow(t, t); }
  }

  lemma SameRowsFollow(t: Tables, u: Tables)
    requires TablesOk(t) && u.versions == t.versions && u.nextId == t.nextId
    ensures RowsFollow(t, u)
  {
    forall v | v in t.versions ensures v < t.nextId { assert RowOk(t, v); }
  }

  /** What one request does to the rows a client may know of. */
  lemma ServeRows(t: Tables, r: Request)
    requires TablesOk(t)
    ensures RowsFollow(t, Serve(t, r))
  {
    match r
    case Upload(g, body) => UploadRows(t, g, body);
    case Collect(g, ret) => CollectRows(t, g, ret);
    case _ => SameRowsFollow(t, Serve(t, r));
  }

  lemma ServedTracks(s: Session, r: Request, missed: set<VersionId>)
    requires Tracked(s, missed)
    ensures Tracked(Go(s, Served(r)), missed + MissedBy(s, Served(r)))
  {
    var t, u := s.tables, Go(s, Served(r));
    var more := missed + MissedBy(s, Served(r));
    ServeRows(t, r);
    forall n | n in u.got ensures KnownNotice(u.tables, u.last, n) { assert KnownNotice(t, s.last, n); }
    forall n | n in s.got ensures n.id < t.nextId { assert KnownNotice(t, s.last, n); }
    forall v | v in u.tables.versions ensures TellsAllBut(u, more, v) {
      if v < t.nextId { assert TellsAllBut(s, missed, v); }
    }
    forall v | v in more ensures v < u.tables.nextId {
      if v !in missed { assert RowOk(u.tables, v); }
    }
  }

  lemma ServedSettles(s: Session, r: Request)
    requires Settled(s) && Orderly(s.tables, r)
    ensures Settled(Go(s, Served(r))) && MissedBy(s, Served(r)) == {}
  {
    var t, u := s.tables, Go(s, Served(r)).tables;
    ServeRows(t, r);
    forall g: GameId ensures Anchored(u, g) && LastSeq(s.last, g) <= MaxSeq(u.versions, g) {
      assert Anchored(t, g);
      ServeSeq(t, r, g);
    }
    forall v | v in u.versions && v >= t.nextId ensures !Covers(s.last, u.versions[v]) {
      assert LastSeq(s.last, u.versions[v].game) <= MaxSeq(t.versions, u.versions[v].game);
    }
    assert MissedBy(s, Served(r)) == {};
    ServedTracks(s, r, {});
  }

  lemma OnceConcat(a: seq<Notice>, b: seq<Notice>)
    requires InOrderOnce(a) && InOrderOnce(b)
    requires forall x, y :: x in a && y in b ==> Follows(x, y)
    ensures InOrderOnce(a + b)
  {
    var all := a + b;
    forall i, j | 0 <= i < j < |all| ensures Follows(all[i], all[j]) {
      if j < |a| {
        assert Follows(a[i], a[j]);
      } else if i < |a| {
        assert a[i] in a && b[j - |a|] in b;
      } else {
        assert Follows(b[i - |a|], b[j - |a|]);
      }
    }
  }

  lemma ReplayInOrderOnce(versions: Versions, last: map<GameId, nat>, out: seq<Notice>)
    requires IsReplay(versions, last, out)
    ensures InOrderOnce(out)
  {
    forall i, j | 0 <= i < j < |out| ensures Follows(out[i], out[j]) {
      assert out[i] in out && out[j] in out && IsMissed(versions, last, out[i]) && IsMissed(versions, last, out[j]);
      assert NoticeBefore(out[i], out[j]);
    }
  }

  lemma OrderExtends(s: Session, out: seq<Notice>, missed: set<VersionId>)
    requires Tracked(s, missed) && IsReplay(s.tables.versions, s.last, out)
    ensures InOrderOnce(s.got + out)
  {
    ReplayInOrderOnce(s.tables.versions, s.last, out);
    forall x, y | x in s.got && y in out ensures Follows(x, y) {
      assert KnownNotice(s.tables, s.last, x) && IsMissed(s.tables.versions, s.last, y);
    }
    OnceConcat(s.got, out);
  }

  /** After a hello the client has been told of every stored version not missed. */
  lemma HelloTells(s: Session, out: seq<Notice>, missed: set<VersionId>, v: VersionId)
    requires Tracked(s, missed) && IsReplay(s.tables.versions, s.last, out) && v in s.tables.versions
    ensures NoticeOf(s.tables.versions, v) in s.got + out <==> v !in missed
    ensures Covers(Absorb(s.last, out), s.tables.versions[v])
  {
    var n := NoticeOf(s.tables.versions, v);
    AbsorbMarks(s.last, out, n.game);
    assert TellsAllBut(s, missed, v);
    assert n in out <==> IsMissed(s.tables.versions, s.last, n);
  }

  lemma HelloTracks(s: Session, out: seq<Notice>, missed: set<VersionId>)
    requires Tracked(s, missed) && IsReplay(s.tables.versions, s.last, out)
    ensures Tracked(Go(s, Hello(out)), missed) && MissedBy(s, Hello(out)) == {}
  {
    var u := Go(s, Hello(out));
    forall n | n in u.got ensures KnownNotice(u.tables, u.last, n) {
      AbsorbMarks(s.last, out, n.game);
      if n in s.got {
        assert KnownNotice(s.tables, s.last, n);
      } else {
        assert n in out && IsMissed(s.tables.versions, s.last, n) && RowOk(s.tables, n.id);
      }
    }
    OrderExtends(s, out, missed);
    forall v | v in u.tables.versions ensures TellsAllBut(u, missed, v) && v < s.tables.nextId {
      HelloTells(s, out, missed, v);
      assert RowOk(s.tables, v);
    }
  }

  lemma HelloSettles(s: Session, out: seq<Notice>)
    requires Settled(s) && IsReplay(s.tables.versions, s.last, out)
    ensures Settled(Go(s, Hello(out)))
  {
    var u := Go(s, Hello(out));
    forall g: GameId ensures LastSeq(u.last, g) <= MaxSeq(s.tables.versions, g) {
      AbsorbMarks(s.last, out, g);
      MaxSeqBounds(s.tables.versions, g);
      if n :| n in out && n.game == g && n.seqNo == LastSeq(u.last, g) {
        assert IsMissed(s.tables.versions, s.last, n);
      }
    }
    HelloTracks(s, out, {});
  }

  lemma {:induction false} RunTracks(s: Session, es: seq<Happening>)
    requires Tracked(s, {}) && HonestRun(s, es)
    ensures Tracked(GoAll(s, es), Missed(s, es))
    decreases |es|
  {
    if es != [] {
      var u, e := GoAll(s, es[..|es| - 1]), es[|es| - 1];
      RunTracks(s, es[..|es| - 1]);
      match e {
        case Served(r) => ServedTracks(u, r, Missed(s, es[..|es| - 1]));
        case Hello(out) => HelloTracks(u, out, Missed(s, es[..|es| - 1]));
      }
    }
  }

  /** Over any number of hellos interleaved with any requests, a client is told of each
      version at most once and of each game's versions in seq order; and right after a
      hello exactly those stored versions were never replayed to it that were stored
      under a number its mark had already passed. */
  lemma CaughtUpExceptMissed(s: Session, es: seq<Happening>, v: VersionId)
    requires Tracked(s, {}) && HonestRun(s, es)
    ensures InOrderOnce(GoAll(s, es).got)
    ensures es != [] && es[|es| - 1].Hello? && v in GoAll(s, es).tables.versions ==>
      (NoticeOf(GoAll(s, es).tables.versions, v) in GoAll(s, es).got <==> v !in Missed(s, es))
  {
    RunTracks(s, es);
    if es != [] && es[|es| - 1].Hello? && v in GoAll(s, es).tables.versions {
      var front := es[..|es| - 1];
      RunTracks(s, front);
      HelloTracks(GoAll(s, front), es[|es| - 1].out, Missed(s, front));
      HelloTells(GoAll(s, front), es[|es| - 1].out, Missed(s, front), v);
    }
  }

  ghost predicate MarkTold(s: Session, g: GameId) {
    LastSeq(s.last, g) > 0 ==> exists n :: n in s.got && n.game == g && n.seqNo == LastSeq(s.last, g)
  }

  lemma {:induction false} RunMarks(s: Session, es: seq<Happening>, g: GameId)
    requires TablesOk(s.tables) && MarkTold(s, g)
    ensures MarkTold(GoAll(s, es), g)
    decreases |es|
  {
    if es != [] {
      var u, e := GoAll(s, es[..|es| - 1]), es[|es| - 1];
      RunMarks(s, es[..|es| - 1], g);
      if e.Hello? { AbsorbMarks(u.last, e.out, g); }
    }
  }

  /** A version is missed only behind a version replayed under its number or a higher
      one and pruned since. */
  lemma MissedBehindPruned(s: Session, es: seq<Happening>, e: Happening, v: VersionId)
    requires Tracked(s, {}) && (forall g :: MarkTold(s, g)) && HonestRun(s, es) && v in MissedBy(GoAll(s, es), e)
    ensures var x, row := GoAll(s, es), Go(GoAll(s, es), e).tables.versions[v];
      exists n :: n in x.got && n.game == row.game && n.seqNo >= row.seqNo && n.id !in x.tables.versions
  {
    var x, row := GoAll(s, es), Go(GoAll(s, es), e).tables.versions[v];
    RunTracks(s, es);
    RunMarks(s, es, row.game);
    MissedIsNew(x, e, v);
    var n :| n in x.got && n.game == row.game && n.seqNo == LastSeq(x.last, row.game);
    assert KnownNotice(x.tables, x.last, n);
    MaxSeqBounds(x.tables.versions, row.game);
  }

  lemma MissedIsNew(s: Session, e: Happening, v: VersionId)
    requires TablesOk(s.tables) && v in MissedBy(s, e)
    ensures var row := Go(s, e).tables.versions[v];
      MaxSeq(s.tables.versions, row.game) + 1 == row.seqNo <= LastSeq(s.last, row.game)
  {
    match e
    case Served(r) => ServeRows(s.tables, r);
    case Hello(_) => SameRowsFollow(s.tables, s.tables);
  }

  lemma {:induction false} RunSettles(s: Session, es: seq<Happening>)
    requires Settled(s) && FairRun(s, es)
    ensures Settled(GoAll(s, es)) && HonestRun(s, es) && Missed(s, es) == {}
    decreases |es|
  {
    if es != [] {
      var u, e := GoAll(s, es[..|es| - 1]), es[|es| - 1];
      RunSettles(s, es[..|es| - 1]);
      match e {
        case Served(r) => ServedSettles(u, r);
        case Hello(out) =>
          HelloSettles(u, out);
          HelloTracks(u, out, {});
      }
    }
  }

  /** With orderly requests nothing is missed: right after a hello the client has been
      told of every version that survived to it. */
  lemma CaughtUpExactlyOnce(s: Session, es: seq<Happening>, v: VersionId)
    requires Settled(s) && FairRun(s, es)
    ensures InOrderOnce(GoAll(s, es).got)
    ensures es != [] && es[|es| - 1].Hello? && v in GoAll(s, es).tables.versions ==>
      NoticeOf(GoAll(s, es).tables.versions, v) in GoAll(s, es).got
  {
    RunSettles(s, es);
    CaughtUpExceptMissed(s, es, v);
  }

  /** A new server and a new client are a settled session to start from. */
  lemma FreshSessionSettled()
    ensures Settled(Session(EMPTY, map[], [])) && forall g :: MarkTold(Session(EMPTY, map[], []), g)
  {
    forall g: GameId ensures Anchored(EMPTY, g) { }
  }
}

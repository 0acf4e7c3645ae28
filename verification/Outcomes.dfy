/** What the answers mean: what the reported outcome of each operation says about what it
    did (crates/savr-server/src/db.rs, crates/savr-daemon/src/backup.rs,
    crates/savr-daemon/src/restore.rs). */
module Outcomes {
  import opened Types
  import opened ServerTables
  import opened Chains
  import opened Pruning
  import opened Backup
  import opened World
  import opened Restore
  import opened Daemon
  import opened Backoff

  // ---- resolving a conflict ----

  /** When a resolve is refused, what it reports, and what it moves. */
  lemma ResolveReports(t: Tables, g: GameId, winner: VersionId)
    ensures var (u, outcome) := Resolve(t, g, winner);
      && (outcome == GameNotFound <==> g !in t.heads)
      && (outcome == WinnerNotFound <==> g in t.heads && !(winner in t.versions && t.versions[winner].game == g))
      && (outcome.Resolved? ==>
            && g in u.heads && u.heads == t.heads[g := Some(winner)]
            && winner in u.versions && outcome.winnerSeq == u.versions[winner].seqNo)
      && (!outcome.Resolved? ==> u == t)
  {
  }

  /** Exactly which versions a resolve makes resolved losers: the head it displaces. */
  lemma ResolveRecordsLoser(t: Tables, g: GameId, winner: VersionId, k: GameId, v: VersionId)
    requires g in t.heads && winner in t.versions && t.versions[winner].game == g
    ensures (k, v) in Resolve(t, g, winner).0.losers <==>
      (k, v) in t.losers || (k == g && t.heads[g] == Some(v) && v != winner)
  {
  }

  /** Where every version is a full, a guarded one guards only itself. */
  lemma FullsGuardThemselves(
    rows: Versions, head: Option<VersionId>, losers: set<VersionId>, ret: Retention, h: VersionId)
    requires Ordered(rows) && h in rows && (forall w :: w in rows ==> rows[w].kind == Full)
    ensures Keep(rows, head, losers, ret, h) <==> Protected(rows, head, losers, h) || |NewerFulls(rows, h)| < ret.full
  {
    if OwnsProtected(rows, head, losers, h) {
      var u :| u in rows && Protected(rows, head, losers, u) && Owns(rows, h, u);
      assert Owns(rows, u, u);
      OwnerUnique(rows, h, u, u);
    }
  }

  /** What a pass spares of a game of fulls: the guarded ones and the newest. */
  lemma PassOverFulls(t: Tables, g: GameId, ret: Retention, v: VersionId, newerFulls: set<VersionId>)
    requires TablesOk(t) && g in t.heads && v in t.versions && t.versions[v].game == g
    requires forall w :: w in t.versions && t.versions[w].game == g ==> t.versions[w].kind == Full
    requires forall f :: f in newerFulls <==>
      f in t.versions && t.versions[f].game == g && t.versions[f].seqNo > t.versions[v].seqNo
    ensures v in Prune(t, g, ret).versions <==>
      || t.heads[g] == Some(v)
      || ((g, v) !in t.losers
          && forall w :: w in t.versions && t.versions[w].game == g ==> t.versions[w].parent != Some(v))
      || |newerFulls| < ret.full
  {
    SparedIffKept(t, g, ret, v);
    ProtectedIff(t, g, v);
    RowsOrdered(t, g);
    FullsGuardThemselves(Rows(t, g), t.heads[g], LosersOf(t, g), ret, v);
    NewerOfFulls(t, g, v, newerFulls);
  }

  lemma NewerOfFulls(t: Tables, g: GameId, v: VersionId, newerFulls: set<VersionId>)
    requires v in t.versions && t.versions[v].game == g
    requires forall w :: w in t.versions && t.versions[w].game == g ==> t.versions[w].kind == Full
    requires forall f :: f in newerFulls <==>
      f in t.versions && t.versions[f].game == g && t.versions[f].seqNo > t.versions[v].seqNo
    ensures newerFulls == NewerFulls(Rows(t, g), v)
  {
  }

  /** A head displaced by a resolve is left to retention: if no row names it and the game
      has fulls only, the next pass deletes it unless fewer than `ret.full` fulls are newer;
      the winner stays. */
  lemma DisplacedHeadIsCollected(
    t: Tables, g: GameId, winner: VersionId, h: VersionId, ret: Retention, newerFulls: set<VersionId>)
    requires TablesOk(t) && g in t.heads && t.heads[g] == Some(h) && h != winner
    requires winner in t.versions && t.versions[winner].game == g
    requires forall w :: w in t.versions && t.versions[w].game == g ==>
      t.versions[w].kind == Full && t.versions[w].parent != Some(h)
    requires h in t.versions && forall f :: f in newerFulls <==>
      f in t.versions && t.versions[f].game == g && t.versions[f].seqNo > t.versions[h].seqNo
    ensures var u := Prune(Resolve(t, g, winner).0, g, ret);
      (h in u.versions <==> |newerFulls| < ret.full) && winner in u.versions
  {
    var u := Resolve(t, g, winner).0;
    ResolveKeeps(t, g, winner);
    ResolveRecordsLoser(t, g, winner, g, h);
    PassOverFulls(u, g, ret, h, newerFulls);
    HeadSurvives(u, g, ret, winner);
  }

  lemma HeadSurvives(t: Tables, g: GameId, ret: Retention, h: VersionId)
    requires TablesOk(t) && g in t.heads && t.heads[g] == Some(h)
    ensures h in Prune(t, g, ret).versions
  {
    assert h in Rows(t, g);
    TipsAndTheirFullsSurvive(t, g, ret, h, h);
  }

  // ---- a backup ----

  /** What the server does with an upload, and what it answers. */
  lemma SendAnswers(t: Tables, g: GameId, c: CreateVersion, net: Net)
    requires TablesOk(t)
    ensures var (u, reply) := Send(t, g, c, net);
      && t.nextId !in t.versions
      && (reply.Some? <==> net == Reached && g in t.heads && (c.parent.Some? ==> c.parent.value in t.versions))
      && (reply.Some? ==>
            && u.versions == t.versions[t.nextId := NewRow(t, g, c)]
            && reply.value == (if t.heads[g] == c.parent then FastForward(t.nextId)
                               else Conflict(t.heads[g], t.nextId))
            && u.heads == (if t.heads[g] == c.parent then t.heads[g := Some(t.nextId)] else t.heads))
      && (net == Reached && reply.None? ==> u.versions == t.versions)
  {
    FreshId(t);
  }

  /** `Uploaded`: the answer came, and the server's head of the game is a version that did
      not exist before. */
  lemma UploadedIff(
    l: Local, t: Tables, d: DeviceId, job: Job, fullEvery: nat, net: Net, now: nat, id: VersionId)
    requires TablesOk(t)
    ensures var r := Run(l, t, d, job, fullEvery, net, now);
      r.outcome == Uploaded(id) <==>
        && net == Reached && id !in t.versions && id in r.tables.versions
        && job.game in r.tables.heads && r.tables.heads[job.game] == Some(id)
  {
    HeadsStored(t, job.game);
    SendAnswers(t, job.game, Prepare(l, d, job, fullEvery, now), net);
  }

  lemma HeadsStored(t: Tables, g: GameId)
    requires TablesOk(t)
    ensures g in t.heads && t.heads[g].Some? ==> t.heads[g].value in t.versions
  {
    if g in t.heads && t.heads[g].Some? { assert t.heads[g].value in Rows(t, g); }
  }

  /** `Diverged`: the answer came, a version was stored, no head moved, and the head
      reported is the one the server has. */
  lemma DivergedIff(
    l: Local, t: Tables, d: DeviceId, job: Job, fullEvery: nat, net: Net, now: nat, head: Option<VersionId>,
    id: VersionId)
    requires TablesOk(t)
    ensures var r := Run(l, t, d, job, fullEvery, net, now);
      r.outcome == Diverged(head, id) <==>
        && net == Reached && id !in t.versions && id in r.tables.versions
        && r.tables.heads == t.heads && job.game in t.heads && head == t.heads[job.game]
  {
    HeadsStored(t, job.game);
    SendAnswers(t, job.game, Prepare(l, d, job, fullEvery, now), net);
  }

  /** `Queued`: the outbox gained one entry, untried and due at once, and exactly when the
      server did not answer or would not take the version. */
  lemma QueuedIff(l: Local, t: Tables, d: DeviceId, job: Job, fullEvery: nat, net: Net, now: nat)
    requires l.nextKey !in l.outbox
    ensures var r := Run(l, t, d, job, fullEvery, net, now);
      && (r.outcome == Queued <==> r.local.outbox != l.outbox)
      && (r.outcome == Queued <==>
            && r.outcome != NoChange
            && !(&& net == Reached && job.game in t.heads
                 && (ParentOf(l, job.game).Some? ==> ParentOf(l, job.game).value in t.versions)))
      && (r.outcome == Queued ==>
            && r.local.outbox.Keys == l.outbox.Keys + {l.nextKey}
            && (forall k :: k in l.outbox ==> r.local.outbox[k] == l.outbox[k])
            && var e := r.local.outbox[l.nextKey];
               && e.game == job.game && e.attempts == 0 && e.nextRetry == now
               && e.create.files == JobFiles(job) && e.create.parent == ParentOf(l, job.game))
  {
    var r := Run(l, t, d, job, fullEvery, net, now);
    if r.outcome == Queued { assert l.nextKey in r.local.outbox; }
  }

  /** `NoChange`: nothing changed, here or there. */
  lemma NoChangeIff(l: Local, t: Tables, d: DeviceId, job: Job, fullEvery: nat, net: Net, now: nat)
    requires TablesOk(t)
    ensures var r := Run(l, t, d, job, fullEvery, net, now);
      r.outcome == NoChange <==> r.local == l && r.tables == t
  {
    FreshId(t);
    var r := Run(l, t, d, job, fullEvery, net, now);
    if r.outcome == Queued { assert r.local.nextKey == l.nextKey + 1; }
    if r.outcome.Uploaded? || r.outcome.Diverged? { assert r.tables.nextId == t.nextId + 1; }
  }

  /** The version an answered backup stored: whose it is, what it descends from, what it
      lists, and the next number of its game. */
  lemma StoredVersion(l: Local, t: Tables, d: DeviceId, job: Job, fullEvery: nat, net: Net, now: nat, w: VersionId)
    requires TablesOk(t)
    requires var o := Run(l, t, d, job, fullEvery, net, now).outcome; o.Uploaded? || o.Diverged?
    ensures var r := Run(l, t, d, job, fullEvery, net, now);
      && r.outcome.id in r.tables.versions
      && var row := r.tables.versions[r.outcome.id];
         && row.game == job.game && row.device == d && row.files == JobFiles(job)
         && row.parent == (if job.game in l.snapshots then l.snapshots[job.game].head else None)
         && row.kind == row.blob.kind
         && (w in t.versions && t.versions[w].game == job.game ==> t.versions[w].seqNo < row.seqNo)
         && (row.seqNo == 1 || exists v :: v in t.versions && t.versions[v].game == job.game
                                 && t.versions[v].seqNo + 1 == row.seqNo)
         && (r.outcome.Uploaded? <==> t.heads[job.game] == row.parent)
  {
    SendAnswers(t, job.game, Prepare(l, d, job, fullEvery, now), net);
    NextNumber(t, job.game, w);
  }

  lemma NextNumber(t: Tables, g: GameId, w: VersionId)
    ensures var n := MaxSeq(t.versions, g) + 1;
      && (w in t.versions && t.versions[w].game == g ==> t.versions[w].seqNo < n)
      && (n == 1 || exists v :: v in t.versions && t.versions[v].game == g && t.versions[v].seqNo + 1 == n)
  {
    MaxSeqBounds(t.versions, g);
  }

  /** What the device's tables hold after each outcome. */
  lemma LocalAfterRun(l: Local, t: Tables, d: DeviceId, job: Job, fullEvery: nat, net: Net, now: nat)
    ensures var r := Run(l, t, d, job, fullEvery, net, now);
      var g, m := job.game, r.local;
      && (r.outcome.Uploaded? ==>
            && m.snapshots == l.snapshots[g := Stored(JobFiles(job), Some(r.outcome.id))]
            && m.unconfirmed == l.unconfirmed - {g} && m.outbox == l.outbox
            && r.outcome.id in r.tables.versions
            && m.diffCount == l.diffCount[g := if r.tables.versions[r.outcome.id].kind == Full then 0
                                               else (if g in l.diffCount then l.diffCount[g] else 0) + 1])
      && (r.outcome.Diverged? ==>
            && m.snapshots == l.snapshots[g := Stored(JobFiles(job), Some(r.outcome.id))]
            && m.unconfirmed == l.unconfirmed - {g} && m.outbox == l.outbox && m.diffCount == l.diffCount)
      && (r.outcome == Queued ==>
            && m.snapshots
               == l.snapshots[g := Stored(JobFiles(job), if g in l.snapshots then l.snapshots[g].head else None)]
            && m.unconfirmed == l.unconfirmed + {g} && m.diffCount == l.diffCount)
  {
  }

  // ---- a drain ----

  /** What a retry leaves of its entry and of the rest of the device's tables. */
  lemma SettledRetry(l: Local, key: nat, reply: Option<Outcome>, now: int)
    requires key in l.outbox && (reply.Some? ==> !reply.value.Rejected?)
    ensures var m, item := SettleRetry(l, key, reply, now), l.outbox[key];
      && (key !in m.outbox <==> reply.Some?)
      && m.outbox - {key} == l.outbox - {key}
      && m.unconfirmed == l.unconfirmed && m.diffCount == l.diffCount && m.nextKey == l.nextKey
      && (reply.None? ==>
            && m.snapshots == l.snapshots
            && m.outbox[key] == item.(attempts := item.attempts + 1, nextRetry := now + BackoffDelay(item.attempts)))
      && (reply.Some? ==>
            m.snapshots == if item.game in l.snapshots
                           then l.snapshots[item.game := l.snapshots[item.game].(head := Some(ReplyId(reply)))]
                           else l.snapshots)
  {
  }

  /** A retried entry goes exactly when the server answered with a stored version, which
      becomes the local head; otherwise it counts one more failure and waits its delay. */
  lemma RetriedIff(l: Local, t: Tables, key: nat, net: Net, now: int)
    requires TablesOk(t) && key in l.outbox
    ensures var (m, u) := Retry(l, t, key, net, now);
      var item := l.outbox[key];
      && (key !in m.outbox <==>
            && net == Reached && item.game in t.heads
            && (item.create.parent.Some? ==> item.create.parent.value in t.versions))
      && m.outbox - {key} == l.outbox - {key}
      && m.unconfirmed == l.unconfirmed && m.diffCount == l.diffCount
      && (key in m.outbox ==>
            && m.snapshots == l.snapshots
            && m.outbox[key] == item.(attempts := item.attempts + 1, nextRetry := now + BackoffDelay(item.attempts)))
      && (key !in m.outbox ==>
            && t.nextId !in t.versions && t.nextId in u.versions
            && m.snapshots == (if item.game in l.snapshots
                               then l.snapshots[item.game := l.snapshots[item.game].(head := Some(t.nextId))]
                               else l.snapshots)
            && var row, c := u.versions[t.nextId], item.create;
               && row.game == item.game && row.blob == c.blob && row.parent == c.parent
               && row.files == c.files && row.kind == c.kind && row.device == c.device)
  {
    var g, c := l.outbox[key].game, l.outbox[key].create;
    SendAnswers(t, g, c, net);
    SettledRetry(l, key, Send(t, g, c, net).1, now);
  }

  /** The row a queued upload becomes. */
  predicate CarriedBy(row: Version, item: OutboxItem) {
    && row.game == item.game && row.blob == item.create.blob && row.parent == item.create.parent
    && row.files == item.create.files
  }

  /** An upload only adds, at most the next version. */
  lemma SendAdds(t: Tables, g: GameId, c: CreateVersion, net: Net)
    ensures var u := Send(t, g, c, net).0;
      || (u.versions == t.versions && u.nextId == t.nextId)
      || (u.versions == t.versions[t.nextId := NewRow(t, g, c)] && u.nextId == t.nextId + 1)
  {
  }

  /** The tables a drain has reached before its entry `i`. */
  ghost function TablesAt(l: Local, t: Tables, due: seq<nat>, nets: nat -> Net, now: int, i: nat): Tables
    requires i <= |due|
  {
    RetryEach(l, t, due[..i], nets, now).1
  }

  lemma {:induction false} DrainAdds(l: Local, t: Tables, due: seq<nat>, nets: nat -> Net, now: int, i: nat, j: nat)
    requires TablesOk(t) && i <= j <= |due|
    ensures var a, b := TablesAt(l, t, due, nets, now, i), TablesAt(l, t, due, nets, now, j);
      && TablesOk(a) && TablesOk(b) && t.nextId <= a.nextId <= b.nextId
      && forall v :: v in a.versions ==> v in b.versions && b.versions[v] == a.versions[v]
    decreases j
  {
    if j == 0 {
    } else if i == j {
      DrainAdds(l, t, due, nets, now, i - 1, j - 1);
      RetryAdds(l, t, due, nets, now, j - 1);
    } else {
      DrainAdds(l, t, due, nets, now, i, j - 1);
      RetryAdds(l, t, due, nets, now, j - 1);
    }
  }

  lemma RetryAdds(l: Local, t: Tables, due: seq<nat>, nets: nat -> Net, now: int, i: nat)
    requires i < |due| && TablesOk(TablesAt(l, t, due, nets, now, i))
    ensures var a, b := TablesAt(l, t, due, nets, now, i), TablesAt(l, t, due, nets, now, i + 1);
      && TablesOk(b) && a.nextId <= b.nextId
      && forall v :: v in a.versions ==> v in b.versions && b.versions[v] == a.versions[v]
  {
    assert due[..i + 1][..i] == due[..i];
    var (m, a) := RetryEach(l, t, due[..i], nets, now);
    FreshId(a);
    if due[i] in m.outbox {
      SendKeeps(a, m.outbox[due[i]].game, m.outbox[due[i]].create, nets(due[i]));
      SendAdds(a, m.outbox[due[i]].game, m.outbox[due[i]].create, nets(due[i]));
    }
  }

  /** Entry `i`, if gone after the drain, was gone after its own turn. */
  lemma {:induction false} GoneAtItsTurn(
    l: Local, t: Tables, due: seq<nat>, nets: nat -> Net, now: int, i: nat, n: nat)
    requires i < n <= |due| && Distinct(due)
    ensures due[i] in RetryEach(l, t, due[..i + 1], nets, now).0.outbox ==>
      due[i] in RetryEach(l, t, due[..n], nets, now).0.outbox
    decreases n
  {
    if i < n - 1 {
      GoneAtItsTurn(l, t, due, nets, now, i, n - 1);
      LaterLeaves(l, t, due, nets, now, i, n - 1);
    }
  }

  lemma LaterLeaves(l: Local, t: Tables, due: seq<nat>, nets: nat -> Net, now: int, i: nat, j: nat)
    requires i < j < |due| && Distinct(due)
    ensures due[i] in RetryEach(l, t, due[..j + 1], nets, now).0.outbox <==>
      due[i] in RetryEach(l, t, due[..j], nets, now).0.outbox
  {
    assert due[..j + 1][..j] == due[..j];
    var (m, u) := RetryEach(l, t, due[..j], nets, now);
    RetryLeaves(m, u, due[j], nets(due[j]), now, due[i]);
  }

  lemma RetryLeaves(l: Local, t: Tables, key: nat, net: Net, now: int, k: nat)
    requires k != key
    ensures k in Retry(l, t, key, net, now).0.outbox <==> k in l.outbox
  {
  }

  lemma StoredAtItsTurn(l: Local, t: Tables, due: seq<nat>, nets: nat -> Net, now: int, i: nat)
    requires i < |due| && Distinct(due) && due[i] in l.outbox && TablesOk(TablesAt(l, t, due, nets, now, i))
    ensures var a, b := TablesAt(l, t, due, nets, now, i), TablesAt(l, t, due, nets, now, i + 1);
      due[i] !in RetryEach(l, t, due[..i + 1], nets, now).0.outbox ==>
        && a.nextId < b.nextId && a.nextId in b.versions && CarriedBy(b.versions[a.nextId], l.outbox[due[i]])
  {
    assert due[..i + 1][..i] == due[..i];
    forall j | 0 <= j < i ensures due[j] != due[i] { }
    PassLeaves(l, t, due[..i], nets, now, due[i]);
    var (m, a) := RetryEach(l, t, due[..i], nets, now);
    RetriedIff(m, a, due[i], nets(due[i]), now);
    SendAdds(a, m.outbox[due[i]].game, m.outbox[due[i]].create, nets(due[i]));
  }

  /** A drain uploads in the order it lists: of two entries it got stored, the one listed
      first becomes the version with the lower id, and so the earlier of the two. */
  lemma DrainStoresInOrder(l: Local, t: Tables, due: seq<nat>, nets: nat -> Net, now: int, i: nat, j: nat)
    requires TablesOk(t) && i < j < |due| && (forall k :: k in due ==> k in l.outbox)
    requires forall p, q :: 0 <= p < q < |due| ==> due[p] != due[q]
    ensures var (m, u) := RetryEach(l, t, due, nets, now);
      due[i] !in m.outbox && due[j] !in m.outbox ==>
        exists v, w ::
          && t.nextId <= v < w && v in u.versions && w in u.versions
          && CarriedBy(u.versions[v], l.outbox[due[i]]) && CarriedBy(u.versions[w], l.outbox[due[j]])
  {
    assert Distinct(due);
    StoredAtTheEnd(l, t, due, nets, now, i);
    StoredAtTheEnd(l, t, due, nets, now, j);
    DrainAdds(l, t, due, nets, now, i + 1, j);
  }

  lemma StoredAtTheEnd(l: Local, t: Tables, due: seq<nat>, nets: nat -> Net, now: int, i: nat)
    requires TablesOk(t) && i < |due| && Distinct(due) && forall k :: k in due ==> k in l.outbox
    ensures var (m, u) := RetryEach(l, t, due, nets, now);
      var v := TablesAt(l, t, due, nets, now, i).nextId;
      due[i] !in m.outbox ==>
        && t.nextId <= v < TablesAt(l, t, due, nets, now, i + 1).nextId
        && v in u.versions && CarriedBy(u.versions[v], l.outbox[due[i]])
  {
    assert due[..|due|] == due;
    DrainAdds(l, t, due, nets, now, i, i + 1);
    GoneAtItsTurn(l, t, due, nets, now, i, |due|);
    StoredAtItsTurn(l, t, due, nets, now, i);
    DrainAdds(l, t, due, nets, now, i + 1, |due|);
    DrainAdds(l, t, due, nets, now, 0, i);
  }

  // ---- a restore ----

  /** Which way a restore ends: it refuses a running game and a request without targets
      before anything else, then each failure is of the first step that fails. */
  lemma RestoreEndsIff(
    l: Local, t: Tables, disk: Disk, device: DeviceId, req: RestoreRequest, running: bool, net: Net, progress: Progress,
    at: nat)
    requires TablesOk(t) && req.target != t.nextId
    ensures var o := RunRestore(l, t, disk, device, req, running, net, progress, at).outcome;
      var refused := running || (!req.hasPatterns && !req.hasRegistry);
      var found := req.target in t.versions && t.versions[req.target].game == req.game && ChainIn(t, req.target).Some?;
      && (o == GameRunning <==> running)
      && (o == NoSavePaths <==> !running && refused)
      && (o == ListingFailed <==> !refused && progress.Unlisted?)
      && (o == BrokenChain <==> !refused && !progress.Unlisted? && !found)
      && (o == DownloadFailed <==> !refused && progress.Unfetched? && found)
      && (o == SwapFailed <==>
            !refused && found && (progress.WritesStopped? || (progress.Swapped? && !progress.adopted)))
      && (o == Restored <==> !refused && found && progress.Swapped? && progress.adopted)
  {
    if !running && (req.hasPatterns || req.hasRegistry) {
      var pre := PreBackup(l, t, disk, device, req, net, at);
      PreBackupKeepsTarget(l, t, disk, device, req, net, at);
      FinishEndsIff(pre.local, pre.tables, disk, req, progress, at);
    }
  }

  lemma FinishEndsIff(l: Local, t: Tables, disk: Disk, req: RestoreRequest, progress: Progress, at: nat)
    requires TablesOk(t)
    ensures var o := Finish(l, t, disk, req, progress, at).outcome;
      var found := req.target in Rows(t, req.game) && ChainIn(t, req.target).Some?;
      && !o.GameRunning? && !o.NoSavePaths?
      && (o == ListingFailed <==> progress.Unlisted?)
      && (o == BrokenChain <==> !progress.Unlisted? && !found)
      && (o == DownloadFailed <==> progress.Unfetched? && found)
      && (o == SwapFailed <==> found && (progress.WritesStopped? || (progress.Swapped? && !progress.adopted)))
      && (o == Restored <==> found && progress.Swapped? && progress.adopted)
  {
    RowsAcyclic(t, req.game);
  }

  /** The backup before a restore sees all that lies under the patterns, and is skipped
      only without registry keys, over a base that already has those contents. */
  lemma PreBackupSkippedIff(
    l: Local, t: Tables, disk: Disk, device: DeviceId, req: RestoreRequest, net: Net, at: nat)
    requires TablesOk(t) && req.hasPatterns
    ensures PreBackup(l, t, disk, device, req, net, at).outcome == NoChange <==>
      && !req.hasRegistry && req.game in l.snapshots
      && (forall p :: p in l.snapshots[req.game].files <==> p in disk && req.matches(p))
      && (forall p :: p in l.snapshots[req.game].files ==>
            p in disk && l.snapshots[req.game].files[p].hash == Blake3(disk[p].content))
  {
    var job := PreJob(disk, req);
    SkipMeansSame(l, job);
    if req.game in l.snapshots { SameAsSeenIff(l.snapshots[req.game].files, job.seen); }
    assert job.seen == Under(disk, req.matches);
  }

  lemma SameAsSeenIff(files: FileSet, seen: Disk)
    ensures HashesOf(files) == HashesOf(SnapshotFiles(seen)) <==>
      && files.Keys == seen.Keys
      && forall p :: p in files ==> p in seen && files[p].hash == Blake3(seen[p].content)
  {
    var a, b := HashesOf(files), HashesOf(SnapshotFiles(seen));
    assert a.Keys == files.Keys && b.Keys == seen.Keys;
    forall p | p in files && p in seen ensures a[p] == files[p].hash && b[p] == Blake3(seen[p].content) { }
  }

  /** What a restore that reached its swap leaves at one path. */
  lemma PathAfterRestore(
    l: Local, t: Tables, disk: Disk, device: DeviceId, req: RestoreRequest, net: Net, progress: Progress, at: nat,
    p: Path)
    requires TablesOk(t) && RowsOk(t) && LocalOk(t, l) && req.hasPatterns
    requires req.target in t.versions && t.versions[req.target].game == req.game && ChainIn(t, req.target).Some?
    requires progress.WritesStopped? || progress.Swapped?
    ensures var after := RunRestore(l, t, disk, device, req, false, net, progress, at).disk;
      var files := t.versions[req.target].files;
      if p in files && (progress.WritesStopped? ==> p in progress.written) then
        p in after && Blake3(after[p].content) == files[p].hash && after[p].mtime == at
      else if progress.Swapped? && p in disk && req.matches(p) && p !in files && p !in progress.stuck then
        p !in after
      else
        (p in after <==> p in disk) && (p in disk ==> after[p] == disk[p])
  {
    HeadsBelow(t, req.target);
    SwapReachedIff(l, t, disk, device, req, false, net, progress, at);
    SwappedToTarget(l, t, disk, device, req, net, progress, at);
    var files := t.versions[req.target].files;
    assert Replaced(files, progress, p) <==> p in files && (progress.WritesStopped? ==> p in progress.written);
    assert Removed(disk, req, files, progress, p) <==>
      progress.Swapped? && p in disk && req.matches(p) && p !in files && p !in progress.stuck;
  }

  lemma HeadsBelow(t: Tables, v: VersionId)
    requires TablesOk(t) && v in t.versions
    ensures v != t.nextId
  {
    assert RowOk(t, v);
  }
}

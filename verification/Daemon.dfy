/** The daemon's pipelines on mutable state: its local tables, the server it talks to
    and the save directory (crates/savr-daemon/src/backup.rs,
    crates/savr-daemon/src/restore.rs, crates/savr-daemon/src/state.rs). */
module Daemon {
  import opened Types
  import opened ServerTables
  import opened Chains
  import opened Snapshots
  import opened Backup
  import opened World
  import opened Restore
  import opened ServerStore

  class LocalState {
    var snapshots: map<GameId, Stored>
    var diffCount: map<GameId, nat>
    var unconfirmed: set<GameId>
    var outbox: map<nat, OutboxItem>
    var nextKey: nat

    function State(): Local
      reads this
    {
      Local(snapshots, diffCount, unconfirmed, outbox, nextKey)
    }

    constructor ()
      ensures State() == EMPTY_LOCAL
    {
      snapshots, diffCount, unconfirmed, outbox, nextKey := map[], map[], {}, map[], 0;
    }

    method PutSnapshot(g: GameId, files: FileSet, head: Option<VersionId>)
      modifies this`snapshots
      ensures State() == Backup.PutSnapshot(old(State()), g, files, head)
    {
      snapshots := snapshots[g := Stored(files, head)];
    }

    method SetLocalHead(g: GameId, head: VersionId)
      modifies this`snapshots
      ensures State() == Backup.SetLocalHead(old(State()), g, head)
    {
      if g in snapshots {
        snapshots := snapshots[g := snapshots[g].(head := Some(head))];
      }
    }

    method SetUnconfirmed(g: GameId, flag: bool)
      modifies this`unconfirmed
      ensures State() == Backup.SetUnconfirmed(old(State()), g, flag)
    {
      unconfirmed := if flag then unconfirmed + {g} else unconfirmed - {g};
    }

    method SetDiffCount(g: GameId, n: nat)
      modifies this`diffCount
      ensures State() == Backup.SetDiffCount(old(State()), g, n)
    {
      diffCount := diffCount[g := n];
    }

    method EnqueueOutbox(g: GameId, create: CreateVersion, now: int)
      modifies this`outbox, this`nextKey
      ensures State() == Backup.Enqueue(old(State()), g, create, now)
    {
      outbox := outbox[nextKey := OutboxItem(g, create, 0, now)];
      nextKey := nextKey + 1;
    }

    method RemoveOutbox(key: nat)
      modifies this`outbox
      ensures State() == Backup.RemoveOutbox(old(State()), key)
    {
      outbox := outbox - {key};
    }

    method BumpOutboxAttempt(key: nat, nextRetry: int)
      requires key in outbox
      modifies this`outbox
      ensures State() == BumpAttempt(old(State()), key, nextRetry)
    {
      var item := outbox[key];
      outbox := outbox[key := item.(attempts := item.attempts + 1, nextRetry := nextRetry)];
    }

    /** Entries whose retry time has come, earliest first. */
    method DueOutbox(now: int) returns (due: seq<nat>)
      ensures forall k :: k in due <==> k in outbox && outbox[k].nextRetry <= now
      ensures EarliestFirst(outbox, due)
    {
      due := [];
      var rest := set k | k in outbox && outbox[k].nextRetry <= now;
      while rest != {}
        invariant forall k :: k in due || k in rest <==> k in outbox && outbox[k].nextRetry <= now
        invariant EarliestFirst(outbox, due) && AllBefore(outbox, due, rest)
        decreases rest
      {
        ghost var least := LeastRetry(outbox, rest);
        var k :| k in rest && forall m :: m in rest ==> outbox[k].nextRetry <= outbox[m].nextRetry;
        TakeEarliest(outbox, due, rest, k);
        rest := rest - {k};
        due := due + [k];
      }
    }
  }

  predicate NotLater(a: OutboxItem, b: OutboxItem) {
    a.nextRetry <= b.nextRetry
  }

  ghost predicate EarliestFirst(outbox: map<nat, OutboxItem>, due: seq<nat>) {
    && (forall i :: 0 <= i < |due| ==> due[i] in outbox)
    && (forall i, j :: 0 <= i < j < |due| ==> due[i] != due[j] && NotLater(outbox[due[i]], outbox[due[j]]))
  }

  ghost predicate AllBefore(outbox: map<nat, OutboxItem>, due: seq<nat>, rest: set<nat>) {
    rest <= outbox.Keys && forall i, k :: 0 <= i < |due| && due[i] in outbox && k in rest ==>
        due[i] != k && NotLater(outbox[due[i]], outbox[k])
  }

  lemma TakeEarliest(outbox: map<nat, OutboxItem>, due: seq<nat>, rest: set<nat>, k: nat)
    requires EarliestFirst(outbox, due) && AllBefore(outbox, due, rest) && k in rest
    requires forall m :: m in rest ==> outbox[k].nextRetry <= outbox[m].nextRetry
    ensures EarliestFirst(outbox, due + [k]) && AllBefore(outbox, due + [k], rest - {k})
  {
  }

  lemma {:induction false} LeastRetry(outbox: map<nat, OutboxItem>, s: set<nat>) returns (k: nat)
    requires s != {} && s <= outbox.Keys
    ensures k in s && forall m :: m in s ==> outbox[k].nextRetry <= outbox[m].nextRetry
  {
    var x :| x in s;
    k := x;
    var rest := s - {x};
    assert s == {x} + rest;
    if rest != {} {
      var y := LeastRetry(outbox, rest);
      k := if outbox[x].nextRetry <= outbox[y].nextRetry then x else y;
    }
  }

  // ---- backup ----

  /** Blob first, then the version; how far it gets is the network's choice. */
  method UploadVersion(server: Store, g: GameId, create: CreateVersion, net: Net) returns (reply: Option<Outcome>)
    modifies server
    ensures (server.State(), reply) == Send(old(server.State()), g, create, net)
  {
    if net == Offline {
      return None;
    }
    server.StoreBlob(create.blob);
    if net == BlobOnly {
      return None;
    }
    var outcome := server.CreateVersion(g, create);
    reply := if net == ReplyLost || outcome.Rejected? then None else Some(outcome);
  }

  method QueueBackup(state: LocalState, g: GameId, create: CreateVersion, now: nat)
    modifies state
    ensures state.State() == Queue(old(state.State()), g, create, now)
  {
    state.EnqueueOutbox(g, create, now);
    state.PutSnapshot(g, create.files, create.parent);
    state.SetUnconfirmed(g, true);
  }

  /** Read every captured file: what the snapshot records and what the archive can hold. */
  method Scan(disk: Disk) returns (files: FileSet, contents: Contents)
    ensures files == SnapshotFiles(disk) && contents == ContentsOf(disk)
  {
    files, contents := map[], map[];
    var rest := disk.Keys;
    while rest != {}
      invariant rest <= disk.Keys && files.Keys == contents.Keys == disk.Keys - rest
      invariant forall p :: p in files ==> files[p] == EntryOf(disk[p]) && contents[p] == disk[p].content
      decreases rest
    {
      var p :| p in rest;
      files, contents := files[p := EntryOf(disk[p])], contents[p := disk[p].content];
      rest := rest - {p};
    }
  }

  /** Snapshot, diff and pack: `None` when there is nothing to back up. */
  method PackBackup(
    state: LocalState, device: DeviceId, fullEvery: nat, job: Job, now: nat)
    returns (packed: Option<CreateVersion>)
    ensures packed
        == if Skips(state.State(), job) then None else Some(Prepare(state.State(), device, job, fullEvery, now))
  {
    var g := job.game;
    if !job.hasPatterns && !job.hasRegistry {
      return None;
    }
    var files, contents := Scan(Captured(job));
    var changed, deletions := files.Keys, {};
    var parent := None;
    if g in state.snapshots {
      var last := state.snapshots[g];
      parent := last.head;
      changed, deletions := Changed(last.files, files), Deleted(last.files, files);
      if changed == {} && deletions == {} && !job.hasRegistry {
        return None;
      }
    }
    var priorDiffs := if g in state.diffCount then state.diffCount[g] else 0;
    var kind := if parent.None? || priorDiffs >= fullEvery || g in state.unconfirmed then Full else Differential;
    if kind == Full {
      changed, deletions := files.Keys, {};
    }
    var archive := Archive(g, device, parent, kind, files, Only(contents, changed), deletions, now);
    packed := Some(CreateVersion(parent, kind, files, archive, device));
  }

  /** The local writes that follow an upload, one by one. */
  method SettleUpload(
    state: LocalState, g: GameId, create: CreateVersion, reply: Option<Outcome>, priorDiffs: nat, now: nat)
    returns (outcome: BackupOutcome)
    modifies state
    ensures (state.State(), outcome) == Settle(old(state.State()), g, create, reply, priorDiffs, now)
  {
    match reply {
      case Some(FastForward(id)) =>
        state.PutSnapshot(g, create.files, Some(id));
        state.SetUnconfirmed(g, false);
        state.SetDiffCount(g, if create.kind == Full then 0 else priorDiffs + 1);
        outcome := Uploaded(id);
      case Some(Conflict(head, id)) =>
        state.PutSnapshot(g, create.files, Some(id));
        state.SetUnconfirmed(g, false);
        outcome := Diverged(head, id);
      case _ =>
        QueueBackup(state, g, create, now);
        outcome := Queued;
    }
  }

  method RunBackup(state: LocalState, server: Store, device: DeviceId, fullEvery: nat, job: Job, net: Net, now: nat)
    returns (outcome: BackupOutcome)
    modifies state, server
    ensures Result(state.State(), server.State(), outcome)
         == Run(old(state.State()), old(server.State()), device, job, fullEvery, net, now)
  {
    var packed := PackBackup(state, device, fullEvery, job, now);
    if packed.None? {
      return NoChange;
    }
    var create := packed.value;
    var priorDiffs := if job.game in state.diffCount then state.diffCount[job.game] else 0;
    var reply := UploadVersion(server, job.game, create, net);
    outcome := SettleUpload(state, job.game, create, reply, priorDiffs, now);
  }

  // ---- draining the outbox ----

  /** Retrying a list of entries one after the other. */
  function RetryEach(l: Local, t: Tables, due: seq<nat>, net: nat -> Net, now: int): (Local, Tables) {
    if due == [] then (l, t)
    else
      var (m, u) := RetryEach(l, t, due[..|due| - 1], net, now);
      Retry(m, u, due[|due| - 1], net(due[|due| - 1]), now)
  }

  method RetryOne(state: LocalState, server: Store, key: nat, net: Net, now: int)
    requires key in state.outbox
    modifies state, server
    ensures (state.State(), server.State()) == Retry(old(state.State()), old(server.State()), key, net, now)
  {
    var item := state.outbox[key];
    var reply := UploadVersion(server, item.game, item.create, net);
    if reply.Some? {
      state.SetLocalHead(item.game, ReplyId(reply));
      state.RemoveOutbox(key);
    } else {
      state.BumpOutboxAttempt(key, now + BackoffDelay(item.attempts));
    }
  }

  lemma {:induction false} RetryEachKeeps(l: Local, t: Tables, due: seq<nat>, net: nat -> Net, now: int, k: nat)
    requires k in l.outbox && k !in due
    ensures k in RetryEach(l, t, due, net, now).0.outbox
  {
    if due != [] {
      RetryEachKeeps(l, t, due[..|due| - 1], net, now, k);
    }
  }

  method RetryOutbox(state: LocalState, server: Store, net: nat -> Net, now: int) returns (ghost due: seq<nat>)
    modifies state, server
    ensures forall k :: k in due <==> k in old(state.outbox) && old(state.outbox)[k].nextRetry <= now
    ensures forall i :: 0 <= i < |due| ==> due[i] in old(state.outbox)
    ensures forall i, j :: 0 <= i < j < |due| ==>
      due[i] != due[j] && old(state.outbox)[due[i]].nextRetry <= old(state.outbox)[due[j]].nextRetry
    ensures (state.State(), server.State()) == RetryEach(old(state.State()), old(server.State()), due, net, now)
  {
    var items := state.DueOutbox(now);
    due := items;
    ghost var l, t := state.State(), server.State();
    for i := 0 to |items|
      invariant (state.State(), server.State()) == RetryEach(l, t, items[..i], net, now)
      invariant items == due && EarliestFirst(l.outbox, due)
    {
      assert items[..i + 1][..i] == items[..i];
      assert items[i] in state.outbox by {
        forall j | 0 <= j < i ensures items[j] != items[i] { }
        RetryEachKeeps(l, t, items[..i], net, now, items[i]);
      }
      RetryOne(state, server, items[i], net(items[i]), now);
    }
    assert items[..|items|] == items;
    forall i, j | 0 <= i < j < |due|
      ensures due[i] != due[j] && l.outbox[due[i]].nextRetry <= l.outbox[due[j]].nextRetry
    {
      assert NotLater(l.outbox[due[i]], l.outbox[due[j]]);
    }
  }

  // ---- restore ----

  /** What fails from the version list on: listing, a download, the writing of some
      paths, the removal of some paths, the last write to the local tables. */
  datatype Trouble = Trouble(listing: bool, download: bool, writing: set<Path>, removing: set<Path>, saving: bool)

  /** How far a restore in that trouble can get. */
  predicate Reaches(trouble: Trouble, progress: Progress) {
    match progress
    case Unlisted => trouble.listing
    case Unfetched => !trouble.listing && trouble.download
    case WritesStopped(written) => !trouble.listing && !trouble.download && trouble.writing != {}
        && written !! trouble.writing
    case Swapped(stuck, adopted) =>
      !trouble.listing && !trouble.download && stuck == trouble.removing && adopted == !trouble.saving
  }

  class SaveDir {
    var files: Disk

    constructor (files: Disk)
      ensures this.files == files
    {
      this.files := files;
    }

    /** Merged files replace what is at their paths, in any order, up to the first that fails. */
    method InstallAll(merged: Contents, failing: set<Path>, now: int) returns (ok: bool, ghost written: set<Path>)
      modifies this
      ensures files == Install(old(files), Only(merged, written), now)
      ensures written <= merged.Keys && written !! failing
      ensures ok <==> merged.Keys !! failing
      ensures ok ==> Only(merged, written) == merged
    {
      var rest := merged.Keys;
      written := {};
      assert Install(files, Only(merged, {}), now) == files;
      while rest != {}
        invariant written == merged.Keys - rest && rest <= merged.Keys && written !! failing
        invariant files == Install(old(files), Only(merged, written), now)
        decreases rest
      {
        var p :| p in rest;
        if p in failing {
          return false, written;
        }
        InstallOne(old(files), merged, written, p, now);
        files := files[p := DiskFile(merged[p], now)];
        rest, written := rest - {p}, written + {p};
      }
      ok := true;
    }

    /** Paths of the base the target no longer has are removed; a removal that fails is ignored. */
    method DropAll(base: FileSet, merged: Contents, stuck: set<Path>)
      modifies this
      ensures files == DropStale(old(files), base, merged, stuck)
    {
      var rest := base.Keys;
      while rest != {}
        invariant rest <= base.Keys
        invariant files == old(files) - (set p | p in base && p !in rest && p !in merged && p !in stuck)
        decreases rest
      {
        var p :| p in rest;
        if p !in merged && p !in stuck {
          files := files - {p};
        }
        rest := rest - {p};
      }
      assert (set p | p in base && p !in rest && p !in merged && p !in stuck) == base.Keys - merged.Keys - stuck;
    }
  }

  lemma InstallOne(disk: Disk, merged: Contents, done: set<Path>, p: Path, now: int)
    requires p in merged
    ensures Install(disk, Only(merged, done + {p}), now)
         == Install(disk, Only(merged, done), now)[p := DiskFile(merged[p], now)]
  {
  }

  method RestoreVersion(
    state: LocalState, server: Store, dir: SaveDir, device: DeviceId, req: RestoreRequest, gameRunning: bool, net: Net,
    trouble: Trouble, now: nat)
    returns (outcome: RestoreOutcome, ghost progress: Progress)
    requires TablesOk(server.State())
    modifies state, server, dir
    ensures Reaches(trouble, progress) || outcome in {GameRunning, NoSavePaths, BrokenChain}
    ensures Restoration(state.State(), server.State(), dir.files, outcome)
         == RunRestore(
              old(state.State()), old(server.State()), old(dir.files), device, req, gameRunning, net, progress, now)
  {
    progress := Unfetched;
    if gameRunning {
      return GameRunning, progress;
    }
    if !req.hasPatterns && !req.hasRegistry {
      return NoSavePaths, progress;
    }
    var job := PreJob(dir.files, req);
    PreBackupKeeps(state.State(), server.State(), dir.files, device, req, net, now);
    var _ := RunBackup(state, server, device, U32_MAX, job, net, now);
    outcome, progress := FinishRestore(state, server, dir, req, trouble, now);
  }

  method FinishRestore(state: LocalState, server: Store, dir: SaveDir, req: RestoreRequest, trouble: Trouble, now: nat)
    returns (outcome: RestoreOutcome, ghost progress: Progress)
    requires TablesOk(server.State())
    modifies state, dir
    ensures Reaches(trouble, progress) || outcome == BrokenChain
    ensures Restoration(state.State(), server.State(), dir.files, outcome)
         == Finish(old(state.State()), old(server.State()), old(dir.files), req, progress, now)
  {
    if trouble.listing {
      return ListingFailed, Unlisted;
    }
    RowsAcyclic(server.State(), req.game);
    var rows := Rows(server.State(), req.game);
    var built := BuildChain(rows, req.target);
    if built.None? {
      return BrokenChain, Unfetched;
    }
    if trouble.download {
      return DownloadFailed, Unfetched;
    }
    ChainIsLinked(rows, req.target);
    var merged := MergeChain(rows, built.value);
    var ok;
    ok, progress := SwapIn(state, dir, req.game, merged, trouble, now);
    if !ok || trouble.saving {
      return SwapFailed, progress;
    }
    state.PutSnapshot(req.game, rows[req.target].files, Some(req.target));
    outcome := Restored;
  }

  /** Write the merged files, then delete what the base had and the target has not. */
  method SwapIn(state: LocalState, dir: SaveDir, g: GameId, merged: Contents, trouble: Trouble, now: int)
    returns (ok: bool, ghost progress: Progress)
    requires !trouble.listing && !trouble.download
    modifies dir
    ensures Reaches(trouble, progress)
    ensures ok <==> merged.Keys !! trouble.writing
    ensures if ok then progress.Swapped? else progress.WritesStopped?
    ensures dir.files == SwapDisk(old(dir.files), BaseFiles(state.State(), g), merged, progress, now)
  {
    ghost var written;
    ok, written := dir.InstallAll(merged, trouble.writing, now);
    if !ok {
      return false, WritesStopped(written);
    }
    if g in state.snapshots {
      dir.DropAll(state.snapshots[g].files, merged, trouble.removing);
    } else {
      assert dir.files - {} == dir.files;
    }
    progress := Swapped(trouble.removing, !trouble.saving);
  }
}

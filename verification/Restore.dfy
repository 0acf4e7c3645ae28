/** Restoring a version onto a disk (crates/savr-daemon/src/restore.rs): what the
    whole operation leaves on the disk, in the local state and on the server. */
module Restore {
  import opened Types
  import opened ServerTables
  import opened Chains
  import opened Backup
  import opened World

  const U32_MAX: nat := 0xFFFF_FFFF

  /** `matches` says which paths the request's save patterns cover. */
  datatype RestoreRequest = RestoreRequest(
    game: GameId, target: VersionId, matches: Path -> bool, hasPatterns: bool, hasRegistry: bool)

  datatype RestoreOutcome =
    | Restored
    | GameRunning
    | NoSavePaths
    | ListingFailed
    | BrokenChain
    | DownloadFailed
    | SwapFailed

  /** How far the steps after the pre-restore backup get.  Writing may stop, by an error
      or a crash, with any of the files replaced; removals that fail are ignored; and
      the process may stop, or the last local write fail, with the files swapped. */
  datatype Progress =
    | Unlisted
    | Unfetched
    | WritesStopped(written: set<Path>)
    | Swapped(stuck: set<Path>, adopted: bool)

  const UNDISTURBED := Swapped({}, true)

  function Under(disk: Disk, covers: Path -> bool): Disk {
    disk - (set p | p in disk && !covers(p))
  }

  /** The pre-restore backup captures everything under the patterns, no excludes. */
  function PreJob(disk: Disk, req: RestoreRequest): Job {
    Job(req.game, req.hasPatterns, req.hasRegistry, Under(disk, req.matches))
  }

  /** Write every merged file. */
  ghost function Install(disk: Disk, merged: Contents, now: int): Disk {
    disk + MapOf(merged.Keys, p requires p in merged => DiskFile(merged[p], now))
  }

  /** Delete the base's files the target no longer has, as far as they let themselves. */
  function DropStale(disk: Disk, base: FileSet, merged: Contents, stuck: set<Path>): Disk {
    disk - (base.Keys - merged.Keys - stuck)
  }

  ghost function SwapDisk(disk: Disk, base: FileSet, merged: Contents, progress: Progress, now: int): Disk {
    match progress
    case WritesStopped(written) => Install(disk, Only(merged, written), now)
    case Swapped(stuck, _) => DropStale(Install(disk, merged, now), base, merged, stuck)
    case _ => disk
  }

  datatype Restoration = Restoration(local: Local, tables: Tables, disk: Disk, outcome: RestoreOutcome)

  /** From the version list on: build the chain, fetch and merge, swap, adopt. */
  ghost function Finish(l: Local, t: Tables, disk: Disk, req: RestoreRequest, progress: Progress, at: nat): Restoration
    requires TablesOk(t)
  {
    RowsAcyclic(t, req.game);
    var rows := Rows(t, req.game);
    var chain := Chain(rows, req.target);
    if progress.Unlisted? then Restoration(l, t, disk, ListingFailed)
    else if chain.None? then Restoration(l, t, disk, BrokenChain)
    else if progress.Unfetched? then Restoration(l, t, disk, DownloadFailed)
    else
      ChainIsLinked(rows, req.target);
      var after := SwapDisk(disk, BaseFiles(l, req.game), Replay(rows, chain.value), progress, at);
      if progress.Swapped? && progress.adopted
      then Restoration(PutSnapshot(l, req.game, rows[req.target].files, Some(req.target)), t, after, Restored)
      else Restoration(l, t, after, SwapFailed)
  }

  /** The state after the pre-restore backup, which knows no periodic full. */
  ghost function PreBackup(
    l: Local, t: Tables, disk: Disk, device: DeviceId, req: RestoreRequest, net: Net, at: nat): Result
  {
    Run(l, t, device, PreJob(disk, req), U32_MAX, net, at)
  }

  lemma PreBackupKeeps(l: Local, t: Tables, disk: Disk, device: DeviceId, req: RestoreRequest, net: Net, at: nat)
    requires TablesOk(t)
    ensures TablesOk(PreBackup(l, t, disk, device, req, net, at).tables)
  {
    SendKeeps(t, req.game, Prepare(l, device, PreJob(disk, req), U32_MAX, at), net);
  }

  ghost function RunRestore(
    l: Local, t: Tables, disk: Disk, device: DeviceId, req: RestoreRequest, running: bool, net: Net, progress: Progress,
    at: nat)
    : (r: Restoration)
    requires TablesOk(t)
    ensures TablesOk(r.tables)
  {
    if running then Restoration(l, t, disk, GameRunning)
    else if !req.hasPatterns && !req.hasRegistry then Restoration(l, t, disk, NoSavePaths)
    else
      PreBackupKeeps(l, t, disk, device, req, net, at);
      var pre := PreBackup(l, t, disk, device, req, net, at);
      Finish(pre.local, pre.tables, disk, req, progress, at)
  }

  // ---- the pre-restore backup ----

  /** After the pre-restore backup the base lists exactly the files under the patterns. */
  lemma PreBackupBase(l: Local, t: Tables, device: DeviceId, job: Job, fullEvery: nat, net: Net, at: nat)
    requires job.hasPatterns
    ensures var m := Run(l, t, device, job, fullEvery, net, at).local;
      job.game in m.snapshots && HashesOf(m.snapshots[job.game].files) == HashesOf(JobFiles(job))
  {
    SkipMeansSame(l, job);
    if !Skips(l, job) {
      var c := Prepare(l, device, job, fullEvery, at);
      SettleBase(l, job.game, c, Send(t, job.game, c, net).1, PriorDiffs(l, job.game), at);
    }
  }

  /** However an upload ends, the uploaded files become the base. */
  lemma SettleBase(l: Local, g: GameId, c: CreateVersion, reply: Option<Outcome>, prior: nat, now: nat)
    ensures var m := Settle(l, g, c, reply, prior, now).0; g in m.snapshots && m.snapshots[g].files == c.files
  {
  }

  lemma SameHashesSameKeys(a: FileSet, b: FileSet)
    requires HashesOf(a) == HashesOf(b)
    ensures a.Keys == b.Keys
  {
    assert a.Keys == HashesOf(a).Keys && b.Keys == HashesOf(b).Keys;
  }

  lemma PreBackupKeepsChain(
    l: Local, t: Tables, disk: Disk, device: DeviceId, req: RestoreRequest, net: Net, at: nat, v: VersionId)
    requires TablesOk(t) && v in t.versions
    ensures var u := PreBackup(l, t, disk, device, req, net, at).tables;
      TablesOk(u) && v in u.versions && u.versions[v] == t.versions[v] && ChainIn(u, v) == ChainIn(t, v)
  {
    SendKeepsChain(t, req.game, Prepare(l, device, PreJob(disk, req), U32_MAX, at), net, v);
  }

  /** Exactly when a restore of a stored version succeeds.  What the network did to the
      pre-restore backup is no part of it. */
  lemma RestoredIff(
    l: Local, t: Tables, disk: Disk, device: DeviceId, req: RestoreRequest, running: bool, net: Net, progress: Progress,
    at: nat)
    requires TablesOk(t) && req.target in Rows(t, req.game)
    ensures RunRestore(l, t, disk, device, req, running, net, progress, at).outcome == Restored <==>
      && !running && (req.hasPatterns || req.hasRegistry)
      && ChainIn(t, req.target).Some?
      && progress.Swapped? && progress.adopted
  {
    PreBackupKeepsChain(l, t, disk, device, req, net, at, req.target);
  }

  /** An offline pre-restore backup of a changed game is queued, and the restore goes on. */
  lemma OfflineBackupDoesNotAbort(
    l: Local, t: Tables, disk: Disk, device: DeviceId, req: RestoreRequest, progress: Progress, at: nat)
    requires TablesOk(t) && req.target in Rows(t, req.game) && req.hasPatterns && !Skips(l, PreJob(disk, req))
    ensures PreBackup(l, t, disk, device, req, Offline, at).outcome == Queued
    ensures RunRestore(l, t, disk, device, req, false, Offline, progress, at).outcome == Restored <==>
      ChainIn(t, req.target).Some? && progress.Swapped? && progress.adopted
  {
    RestoredIff(l, t, disk, device, req, false, Offline, progress, at);
  }

  /** From the version list on only adopting changes the local tables, and nothing the server. */
  lemma FinishAdopts(l: Local, t: Tables, disk: Disk, req: RestoreRequest, progress: Progress, at: nat)
    requires TablesOk(t)
    ensures var r := Finish(l, t, disk, req, progress, at);
      && r.tables == t && !r.outcome.GameRunning? && !r.outcome.NoSavePaths?
      && r.local == if r.outcome == Restored then AdoptVersion(l, t, req.game, req.target) else l
  {
    RowsAcyclic(t, req.game);
  }

  /** The world after everything that follows the pre-restore backup. */
  lemma FinishStep(
    w: World, d: DeviceId, u: Tables, m: Local, disk: Disk, req: RestoreRequest, progress: Progress, at: nat)
    requires TablesOk(u)
    ensures var backedUp, r := World(u, w.locals[d := m]), Finish(m, u, disk, req, progress, at);
      World(r.tables, w.locals[d := r.local])
      == if r.outcome == Restored then Step(backedUp, Adopt(d, req.game, req.target)) else backedUp
  {
    var backedUp, r := World(u, w.locals[d := m]), Finish(m, u, disk, req, progress, at);
    FinishAdopts(m, u, disk, req, progress, at);
    AdoptStep(backedUp, d, req.game, req.target);
    assert backedUp.locals[d := r.local] == w.locals[d := r.local];
  }

  /** On the local tables and the server a restore is a backup, then adopting the target
      if it got that far: the run theorems about these two steps cover restores. */
  lemma RestoreIsTwoSteps(
    w: World, disk: Disk, d: DeviceId, req: RestoreRequest, running: bool, net: Net, progress: Progress, at: nat)
    requires TablesOk(w.tables)
    ensures var r := RunRestore(LocalOf(w, d), w.tables, disk, d, req, running, net, progress, at);
      var backedUp := Step(w, BackUp(d, PreJob(disk, req), U32_MAX, net, at));
      && (r.outcome in {GameRunning, NoSavePaths} ==> r.tables == w.tables && r.local == LocalOf(w, d))
      && (r.outcome == Restored ==>
            World(r.tables, w.locals[d := r.local]) == Step(backedUp, Adopt(d, req.game, req.target)))
      && (r.outcome !in {GameRunning, NoSavePaths, Restored} ==> World(r.tables, w.locals[d := r.local]) == backedUp)
  {
    if !running && (req.hasPatterns || req.hasRegistry) {
      PreBackupKeeps(LocalOf(w, d), w.tables, disk, d, req, net, at);
      var pre := PreBackup(LocalOf(w, d), w.tables, disk, d, req, net, at);
      BackUpStep(w, d, PreJob(disk, req), U32_MAX, net, at);
      FinishAdopts(pre.local, pre.tables, disk, req, progress, at);
      FinishStep(w, d, pre.tables, pre.local, disk, req, progress, at);
    }
  }

  // ---- what is on the disk afterwards ----

  /** Path `p` was given the target's content. */
  predicate Replaced(files: FileSet, progress: Progress, p: Path) {
    p in files && (progress.Swapped? || (progress.WritesStopped? && p in progress.written))
  }

  /** Path `p`, a file under the patterns that the target lacks, was removed. */
  predicate Removed(disk: Disk, req: RestoreRequest, files: FileSet, progress: Progress, p: Path) {
    p in disk && req.matches(p) && p !in files && progress.Swapped? && p !in progress.stuck
  }

  /** Every path holds the target's file, nothing, or exactly what it held before. */
  ghost predicate SwappedTo(disk: Disk, after: Disk, req: RestoreRequest, files: FileSet, progress: Progress) {
    && (forall p :: Replaced(files, progress, p) ==> p in after && Blake3(after[p].content) == files[p].hash)
    && (forall p :: Removed(disk, req, files, progress, p) ==> p !in after)
    && (forall p :: !Replaced(files, progress, p) && !Removed(disk, req, files, progress, p) ==>
          (p in after <==> p in disk) && (p in disk ==> after[p] == disk[p]))
  }

  lemma SwapExact(
    disk: Disk, base: FileSet, merged: Contents, req: RestoreRequest, files: FileSet, progress: Progress, now: int)
    requires base.Keys == Under(disk, req.matches).Keys
    requires merged.Keys == files.Keys && forall p :: p in files ==> Blake3(merged[p]) == files[p].hash
    ensures SwappedTo(disk, SwapDisk(disk, base, merged, progress, now), req, files, progress)
  {
    match progress
    case WritesStopped(written) => assert Only(merged, written).Keys == merged.Keys * written;
    case Swapped(stuck, _) =>
      assert forall p :: p in base.Keys - merged.Keys - stuck <==> Removed(disk, req, files, progress, p);
    case _ =>
  }

  /** Files are written anew, not merely changed. */
  lemma SwapStamps(disk: Disk, base: FileSet, merged: Contents, files: FileSet, progress: Progress, now: int)
    requires merged.Keys == files.Keys
    ensures var after := SwapDisk(disk, base, merged, progress, now);
      forall p :: Replaced(files, progress, p) ==> p in after && after[p].mtime == now
  {
  }

  lemma MergedHashes(merged: Contents, files: FileSet)
    requires HashContents(merged) == HashesOf(files)
    ensures merged.Keys == files.Keys && forall p :: p in files ==> Blake3(merged[p]) == files[p].hash
  {
    assert merged.Keys == HashContents(merged).Keys == HashesOf(files).Keys == files.Keys;
    forall p | p in files ensures Blake3(merged[p]) == files[p].hash {
      assert HashContents(merged)[p] == HashesOf(files)[p];
    }
  }

  /** From the version list on, given a base listing the files under the patterns. */
  lemma FinishSwaps(l: Local, t: Tables, disk: Disk, req: RestoreRequest, progress: Progress, at: nat)
    requires TablesOk(t) && RowsOk(t) && BaseFiles(l, req.game).Keys == Under(disk, req.matches).Keys
    requires Finish(l, t, disk, req, progress, at).outcome in {Restored, SwapFailed}
    ensures var r := Finish(l, t, disk, req, progress, at);
      && r.tables == t && req.target in Rows(t, req.game) && ChainIn(t, req.target).Some?
      && SwappedTo(disk, r.disk, req, t.versions[req.target].files, progress)
      && (forall p :: Replaced(t.versions[req.target].files, progress, p) ==> p in r.disk && r.disk[p].mtime == at)
      && (r.outcome == Restored ==>
          r.local.snapshots[req.game] == Stored(t.versions[req.target].files, Some(req.target)))
  {
    var rows := Rows(t, req.game);
    RowsAcyclic(t, req.game);
    ChainIsLinked(rows, req.target);
    var merged, files := Replay(rows, Chain(rows, req.target).value), rows[req.target].files;
    assert HashContents(merged) == HashesOf(files) by { FaithfulIn(t, req.target); }
    MergedHashes(merged, files);
    SwapExact(disk, BaseFiles(l, req.game), merged, req, files, progress, at);
    SwapStamps(disk, BaseFiles(l, req.game), merged, files, progress, at);
  }

  /** Wherever the swap of a restore stopped, each path holds the target's file, nothing,
      or what it held before, and which of the three is known path by path. */
  lemma RestoreSwaps(
    l: Local, t: Tables, disk: Disk, device: DeviceId, req: RestoreRequest, net: Net, progress: Progress, at: nat)
    requires TablesOk(t) && RowsOk(t) && LocalOk(t, l) && req.hasPatterns
    requires RunRestore(l, t, disk, device, req, false, net, progress, at).outcome in {Restored, SwapFailed}
    ensures var r := RunRestore(l, t, disk, device, req, false, net, progress, at);
      && req.target in Rows(r.tables, req.game) && ChainIn(r.tables, req.target).Some?
      && SwappedTo(disk, r.disk, req, r.tables.versions[req.target].files, progress)
      && (forall p :: Replaced(r.tables.versions[req.target].files, progress, p) ==>
            p in r.disk && r.disk[p].mtime == at)
      && (r.outcome == Restored ==>
            r.local.snapshots[req.game] == Stored(r.tables.versions[req.target].files, Some(req.target)))
  {
    var pre := PreBackup(l, t, disk, device, req, net, at);
    PreBackupReady(l, t, disk, device, req, net, at);
    FinishSwaps(pre.local, pre.tables, disk, req, progress, at);
  }

  /** The pre-restore backup leaves good standing and a base listing what the patterns cover. */
  lemma PreBackupReady(l: Local, t: Tables, disk: Disk, device: DeviceId, req: RestoreRequest, net: Net, at: nat)
    requires TablesOk(t) && RowsOk(t) && LocalOk(t, l) && req.hasPatterns
    ensures var pre := PreBackup(l, t, disk, device, req, net, at);
      && TablesOk(pre.tables) && RowsOk(pre.tables) && LocalOk(pre.tables, pre.local)
      && BaseFiles(pre.local, req.game).Keys == Under(disk, req.matches).Keys
  {
    var job := PreJob(disk, req);
    RunOk(l, t, device, job, U32_MAX, net, at);
    PreBackupBase(l, t, device, job, U32_MAX, net, at);
    SameHashesSameKeys(BaseFiles(PreBackup(l, t, disk, device, req, net, at).local, req.game), JobFiles(job));
  }

  /** A successful restore, for a request with patterns: every target file is on the disk
      with the target's content, the disk under the patterns holds nothing else but stale
      files that could not be removed, and no path outside is touched. */
  lemma RestoreIsExact(
    l: Local, t: Tables, disk: Disk, device: DeviceId, req: RestoreRequest, net: Net, stuck: set<Path>, at: nat)
    requires TablesOk(t) && RowsOk(t) && LocalOk(t, l) && req.hasPatterns
    requires RunRestore(l, t, disk, device, req, false, net, Swapped(stuck, true), at).outcome == Restored
    ensures var r := RunRestore(l, t, disk, device, req, false, net, Swapped(stuck, true), at);
      && req.target in r.tables.versions
      && var files := r.tables.versions[req.target].files;
         && r.local.snapshots[req.game] == Stored(files, Some(req.target))
         && (forall p :: p in files ==> p in r.disk && Blake3(r.disk[p].content) == files[p].hash)
         && (forall p :: req.matches(p) ==> (p in r.disk <==> p in files || (p in disk && p in stuck)))
         && (forall p :: !req.matches(p) && p !in files ==> SameAt(disk, r.disk, p))
  {
    RestoreSwaps(l, t, disk, device, req, net, Swapped(stuck, true), at);
    var r := RunRestore(l, t, disk, device, req, false, net, Swapped(stuck, true), at);
    SwappedExactly(disk, r.disk, req, r.tables.versions[req.target].files, stuck);
  }

  lemma SwappedExactly(disk: Disk, after: Disk, req: RestoreRequest, files: FileSet, stuck: set<Path>)
    requires SwappedTo(disk, after, req, files, Swapped(stuck, true))
    ensures forall p :: p in files ==> p in after && Blake3(after[p].content) == files[p].hash
    ensures forall p :: req.matches(p) ==> (p in after <==> p in files || (p in disk && p in stuck))
    ensures forall p :: !req.matches(p) && p !in files ==> SameAt(disk, after, p)
  {
    var progress := Swapped(stuck, true);
    forall p ensures Replaced(files, progress, p) <==> p in files { }
    forall p
      ensures Removed(disk, req, files, progress, p) <==> p in disk && req.matches(p) && p !in files && p !in stuck
    {
    }
  }

  predicate SameAt(before: Disk, after: Disk, p: Path) {
    (p in after <==> p in before) && (p in before ==> after[p] == before[p])
  }

  lemma PreBackupOnlyAdds(
    l: Local, t: Tables, disk: Disk, device: DeviceId, req: RestoreRequest, net: Net, at: nat, v: VersionId)
    requires v !in t.versions && v != t.nextId
    ensures v !in PreBackup(l, t, disk, device, req, net, at).tables.versions
  {
  }

  /** Exactly when a restore gets to its swap; before that it touches no file.  The
      target cannot be the version its own pre-restore backup is going to store. */
  lemma SwapReachedIff(
    l: Local, t: Tables, disk: Disk, device: DeviceId, req: RestoreRequest, running: bool, net: Net, progress: Progress,
    at: nat)
    requires TablesOk(t) && req.hasPatterns && req.target != t.nextId
    ensures var r := RunRestore(l, t, disk, device, req, running, net, progress, at);
      && (r.outcome in {Restored, SwapFailed} <==>
            && !running && req.target in Rows(t, req.game) && ChainIn(t, req.target).Some?
            && !progress.Unlisted? && !progress.Unfetched?)
      && (r.outcome !in {Restored, SwapFailed} ==> r.disk == disk)
  {
    var pre := PreBackup(l, t, disk, device, req, net, at);
    PreBackupKeepsTarget(l, t, disk, device, req, net, at);
    FinishReachesIff(pre.local, pre.tables, disk, req, progress, at);
  }

  lemma PreBackupKeepsTarget(
    l: Local, t: Tables, disk: Disk, device: DeviceId, req: RestoreRequest, net: Net, at: nat)
    requires TablesOk(t) && req.target != t.nextId
    ensures var u := PreBackup(l, t, disk, device, req, net, at).tables;
      && TablesOk(u)
      && (req.target in Rows(u, req.game) <==> req.target in Rows(t, req.game))
      && (req.target in Rows(t, req.game) ==> ChainIn(u, req.target) == ChainIn(t, req.target))
  {
    PreBackupKeeps(l, t, disk, device, req, net, at);
    if req.target in t.versions {
      PreBackupKeepsChain(l, t, disk, device, req, net, at, req.target);
    } else {
      PreBackupOnlyAdds(l, t, disk, device, req, net, at, req.target);
    }
  }

  lemma FinishReachesIff(l: Local, t: Tables, disk: Disk, req: RestoreRequest, progress: Progress, at: nat)
    requires TablesOk(t)
    ensures var r := Finish(l, t, disk, req, progress, at);
      && (r.outcome in {Restored, SwapFailed} <==>
            && req.target in Rows(t, req.game) && ChainIn(t, req.target).Some?
            && !progress.Unlisted? && !progress.Unfetched?)
      && (r.outcome !in {Restored, SwapFailed} ==> r.disk == disk)
  {
    RowsAcyclic(t, req.game);
  }

  /** Exactly when a restore leaves all content on the disk as it was: the game runs, the
      target has no chain, or the files replaced are as the target has them already and
      none is removed. */
  lemma DiskUntouchedIff(
    l: Local, t: Tables, disk: Disk, device: DeviceId, req: RestoreRequest, running: bool, net: Net, progress: Progress,
    at: nat)
    requires TablesOk(t) && RowsOk(t) && LocalOk(t, l) && req.hasPatterns && req.target != t.nextId
    ensures ContentsOf(RunRestore(l, t, disk, device, req, running, net, progress, at).disk) == ContentsOf(disk) <==>
        || running || req.target !in Rows(t, req.game) || ChainIn(t, req.target).None?
        || forall p ::
             && (Replaced(t.versions[req.target].files, progress, p) ==>
                   p in disk && Blake3(disk[p].content) == t.versions[req.target].files[p].hash)
             && !Removed(disk, req, t.versions[req.target].files, progress, p)
  {
    var r := RunRestore(l, t, disk, device, req, running, net, progress, at);
    SwapReachedIff(l, t, disk, device, req, running, net, progress, at);
    if r.outcome in {Restored, SwapFailed} {
      SwappedToTarget(l, t, disk, device, req, net, progress, at);
      SwapLeavesIff(disk, r.disk, req, t.versions[req.target].files, progress);
    }
  }

  lemma SwappedToTarget(
    l: Local, t: Tables, disk: Disk, device: DeviceId, req: RestoreRequest, net: Net, progress: Progress, at: nat)
    requires TablesOk(t) && RowsOk(t) && LocalOk(t, l) && req.hasPatterns && req.target in t.versions
    requires RunRestore(l, t, disk, device, req, false, net, progress, at).outcome in {Restored, SwapFailed}
    ensures var after, files := RunRestore(l, t, disk, device, req, false, net, progress, at).disk,
                                t.versions[req.target].files;
      && SwappedTo(disk, after, req, files, progress)
      && forall p :: Replaced(files, progress, p) ==> p in after && after[p].mtime == at
  {
    RestoreSwaps(l, t, disk, device, req, net, progress, at);
    PreBackupKeepsChain(l, t, disk, device, req, net, at, req.target);
    RestoreEndsOk(l, t, disk, device, req, net, progress, at);
  }

  lemma SwapLeavesIff(disk: Disk, after: Disk, req: RestoreRequest, files: FileSet, progress: Progress)
    requires SwappedTo(disk, after, req, files, progress)
    ensures ContentsOf(after) == ContentsOf(disk) <==>
      forall p ::
        && (Replaced(files, progress, p) ==> p in disk && Blake3(disk[p].content) == files[p].hash)
        && !Removed(disk, req, files, progress, p)
  {
    var a, b := ContentsOf(disk), ContentsOf(after);
    if a == b {
      forall p
        ensures Replaced(files, progress, p) ==> p in disk && Blake3(disk[p].content) == files[p].hash
        ensures !Removed(disk, req, files, progress, p)
      {
        assert p in a <==> p in b;
      }
    } else {
      var p :| (p in a || p in b) && !(p in a && p in b && a[p] == b[p]);
      assert Replaced(files, progress, p) || Removed(disk, req, files, progress, p);
    }
  }

  /** The way out of a restore that stopped inside its swap: restoring again, undisturbed,
      succeeds and leaves exactly the target under the patterns and the original disk
      elsewhere. */
  lemma RestoringAgainRecovers(
    l: Local, t: Tables, disk: Disk, device: DeviceId, req: RestoreRequest,
    net: Net, progress: Progress, at: nat, netAgain: Net, again: nat)
    requires TablesOk(t) && RowsOk(t) && LocalOk(t, l) && req.hasPatterns
    requires RunRestore(l, t, disk, device, req, false, net, progress, at).outcome == SwapFailed
    ensures var first := RunRestore(l, t, disk, device, req, false, net, progress, at);
      var second := RunRestore(first.local, first.tables, first.disk, device, req, false, netAgain, UNDISTURBED, again);
      && second.outcome == Restored
      && req.target in first.tables.versions && req.target in second.tables.versions
      && var files := first.tables.versions[req.target].files;
         && second.tables.versions[req.target].files == files
         && (forall p :: p in files ==> p in second.disk && Blake3(second.disk[p].content) == files[p].hash)
         && (forall p :: req.matches(p) ==> (p in second.disk <==> p in files))
         && (forall p :: !req.matches(p) && p !in files ==> SameAt(disk, second.disk, p))
  {
    var first := RunRestore(l, t, disk, device, req, false, net, progress, at);
    RestoreSwaps(l, t, disk, device, req, net, progress, at);
    RestoreEndsOk(l, t, disk, device, req, net, progress, at);
    RestoredIff(first.local, first.tables, first.disk, device, req, false, netAgain, UNDISTURBED, again);
    PreBackupKeepsChain(first.local, first.tables, first.disk, device, req, netAgain, again, req.target);
    RestoreIsExact(first.local, first.tables, first.disk, device, req, netAgain, {}, again);
    var second := RunRestore(first.local, first.tables, first.disk, device, req, false, netAgain, UNDISTURBED, again);
    var files := first.tables.versions[req.target].files;
    forall p | !req.matches(p) && p !in files ensures SameAt(disk, second.disk, p) {
      assert SameAt(first.disk, second.disk, p);
      assert !Replaced(files, progress, p) && !Removed(disk, req, files, progress, p);
    }
  }

  // ---- undoing a restore ----

  /** Restoring a version that lists what a disk held brings that back under the patterns. */
  lemma RestoreBringsBack(
    l: Local, t: Tables, disk: Disk, device: DeviceId, req: RestoreRequest, net: Net, at: nat, was: Disk)
    requires TablesOk(t) && RowsOk(t) && LocalOk(t, l) && req.hasPatterns
    requires RunRestore(l, t, disk, device, req, false, net, UNDISTURBED, at).outcome == Restored
    requires req.target in t.versions
    requires HashesOf(t.versions[req.target].files) == DiskHashes(Under(was, req.matches))
    ensures ContentsOf(Under(RunRestore(l, t, disk, device, req, false, net, UNDISTURBED, at).disk, req.matches))
         == ContentsOf(Under(was, req.matches))
  {
    var r := RunRestore(l, t, disk, device, req, false, net, UNDISTURBED, at);
    RestoreIsExact(l, t, disk, device, req, net, {}, at);
    PreBackupKeepsChain(l, t, disk, device, req, net, at, req.target);
    RestoreEndsOk(l, t, disk, device, req, net, UNDISTURBED, at);
    SameContents(t.versions[req.target].files, r.disk, was, req.matches);
  }

  lemma SameContents(files: FileSet, after: Disk, was: Disk, matches: Path -> bool)
    requires forall p :: p in files ==> p in after && Blake3(after[p].content) == files[p].hash
    requires forall p :: matches(p) ==> (p in after <==> p in files)
    requires HashesOf(files) == DiskHashes(Under(was, matches))
    ensures ContentsOf(Under(after, matches)) == ContentsOf(Under(was, matches))
  {
    var a, b := Under(after, matches), Under(was, matches);
    SameHashesSameKeys(files, SnapshotFiles(b));
    assert SnapshotFiles(b).Keys == b.Keys;
    forall p | p in files ensures p in a && p in b && a[p].content == b[p].content {
      assert HashesOf(files)[p] == DiskHashes(b)[p];
    }
    assert ContentsOf(a).Keys == a.Keys == files.Keys == b.Keys == ContentsOf(b).Keys;
  }

  /** A restore can be undone: if its pre-restore backup was stored and has a chain, then
      wherever the restore ended, restoring that backup brings the original content
      under the patterns back. */
  lemma RestoreIsUndoable(
    l: Local, t: Tables, disk: Disk, device: DeviceId, req: RestoreRequest,
    net: Net, progress: Progress, at: nat, netUndo: Net, later: nat)
    requires TablesOk(t) && RowsOk(t) && LocalOk(t, l) && req.hasPatterns
    requires var pre := PreBackup(l, t, disk, device, req, net, at);
      && (pre.outcome.Uploaded? || pre.outcome.Diverged?)
      && TablesOk(pre.tables) && ChainIn(pre.tables, pre.outcome.id).Some?
    ensures var r := RunRestore(l, t, disk, device, req, false, net, progress, at);
      var undo := req.(target := PreBackup(l, t, disk, device, req, net, at).outcome.id);
      var back := RunRestore(r.local, r.tables, r.disk, device, undo, false, netUndo, UNDISTURBED, later);
      && back.outcome == Restored
      && ContentsOf(Under(back.disk, req.matches)) == ContentsOf(Under(disk, req.matches))
  {
    var pre := PreBackup(l, t, disk, device, req, net, at);
    var r := RunRestore(l, t, disk, device, req, false, net, progress, at);
    var undo := req.(target := pre.outcome.id);
    PreBackupStored(l, t, disk, device, req, net, at);
    RestoreEndsOk(l, t, disk, device, req, net, progress, at);
    RestoredIff(r.local, r.tables, r.disk, device, undo, false, netUndo, UNDISTURBED, later);
    RestoreBringsBack(r.local, r.tables, r.disk, device, undo, netUndo, later, disk);
  }

  lemma PreBackupStored(l: Local, t: Tables, disk: Disk, device: DeviceId, req: RestoreRequest, net: Net, at: nat)
    requires TablesOk(t)
    requires var o := PreBackup(l, t, disk, device, req, net, at).outcome; o.Uploaded? || o.Diverged?
    ensures var pre := PreBackup(l, t, disk, device, req, net, at);
      && pre.outcome.id in Rows(pre.tables, req.game)
      && pre.tables.versions[pre.outcome.id].files == JobFiles(PreJob(disk, req))
  {
    ReplyStored(t, req.game, Prepare(l, device, PreJob(disk, req), U32_MAX, at), net);
  }

  /** Wherever a restore ends, tables and local state are in good standing. */
  lemma RestoreEndsOk(
    l: Local, t: Tables, disk: Disk, device: DeviceId, req: RestoreRequest, net: Net, progress: Progress, at: nat)
    requires TablesOk(t) && RowsOk(t) && LocalOk(t, l) && req.hasPatterns
    ensures var r := RunRestore(l, t, disk, device, req, false, net, progress, at);
      r.tables == PreBackup(l, t, disk, device, req, net, at).tables && RowsOk(r.tables) && LocalOk(r.tables, r.local)
  {
    var pre := PreBackup(l, t, disk, device, req, net, at);
    PreBackupReady(l, t, disk, device, req, net, at);
    FinishAdopts(pre.local, pre.tables, disk, req, progress, at);
    AdoptOk(pre.local, pre.tables, req.game, req.target);
  }

  // ---- the next backup ----

  /** A disk as path and hash. */
  ghost function DiskHashes(disk: Disk): Hashes {
    HashesOf(SnapshotFiles(disk))
  }

  /** Exactly when an immediate further backup without registry keys is a no-op, for
      any job seeing a part of the patterns (all of them, or less some excludes): the
      job sees every file of the target and no stale file that could not be removed. */
  lemma BackupAfterRestoreSkipsIff(
    l: Local, t: Tables, disk: Disk, device: DeviceId, req: RestoreRequest, net: Net, stuck: set<Path>, at: nat,
    sees: Path -> bool)
    requires TablesOk(t) && RowsOk(t) && LocalOk(t, l) && req.hasPatterns
    requires RunRestore(l, t, disk, device, req, false, net, Swapped(stuck, true), at).outcome == Restored
    requires forall p :: sees(p) ==> req.matches(p)
    ensures var r := RunRestore(l, t, disk, device, req, false, net, Swapped(stuck, true), at);
      && req.target in r.tables.versions
      && var files := r.tables.versions[req.target].files;
         Skips(r.local, Job(req.game, true, false, Under(r.disk, sees))) <==>
           && (forall p :: p in files ==> sees(p))
           && (forall p :: sees(p) && p in disk && p in stuck ==> p in files)
  {
    RestoreIsExact(l, t, disk, device, req, net, stuck, at);
    var r := RunRestore(l, t, disk, device, req, false, net, Swapped(stuck, true), at);
    var job := Job(req.game, true, false, Under(r.disk, sees));
    SkipMeansSame(r.local, job);
    SeenHashes(r.disk, r.tables.versions[req.target].files, sees);
  }

  /** A disk with the content of a file set shows exactly its hashes to whoever sees all
      of it and nothing else. */
  lemma SeenHashes(disk: Disk, files: FileSet, sees: Path -> bool)
    requires forall p :: p in files ==> p in disk && Blake3(disk[p].content) == files[p].hash
    ensures HashesOf(files) == DiskHashes(Under(disk, sees)) <==>
      (forall p :: p in files ==> sees(p)) && (forall p :: sees(p) && p in disk ==> p in files)
  {
    var seen := DiskHashes(Under(disk, sees));
    assert seen.Keys == Under(disk, sees).Keys && HashesOf(files).Keys == files.Keys;
    if p :| p in files && !sees(p) {
      assert p in HashesOf(files) && p !in seen;
    } else if p :| sees(p) && p in disk && p !in files {
      assert p in seen && p !in HashesOf(files);
    } else {
      assert seen.Keys == files.Keys;
    }
  }
}

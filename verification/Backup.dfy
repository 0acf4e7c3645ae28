/** One device's local state and the backup pipeline as functions on it
    (crates/savr-daemon/src/backup.rs, crates/savr-daemon/src/state.rs).  `Daemon`
    runs the same pipeline on mutable tables. */
module Backup {
  import opened Types
  import opened ServerTables
  import opened Snapshots

  /** The diff base of a game and the version this device last synced. */
  datatype Stored = Stored(files: FileSet, head: Option<VersionId>)

  datatype OutboxItem = OutboxItem(game: GameId, create: CreateVersion, attempts: nat, nextRetry: int)

  /** The device's tables; `diffCount` and `unconfirmed` are its per-game meta keys. */
  datatype Local = Local(
    snapshots: map<GameId, Stored>,
    diffCount: map<GameId, nat>,
    unconfirmed: set<GameId>,
    outbox: map<nat, OutboxItem>,
    nextKey: nat)

  const EMPTY_LOCAL := Local(map[], map[], {}, map[], 0)

  // ---- single writes ----

  function PutSnapshot(l: Local, g: GameId, files: FileSet, head: Option<VersionId>): Local {
    l.(snapshots := l.snapshots[g := Stored(files, head)])
  }

  /** Updates no row when the game has no snapshot yet. */
  function SetLocalHead(l: Local, g: GameId, head: VersionId): Local {
    if g in l.snapshots then PutSnapshot(l, g, l.snapshots[g].files, Some(head)) else l
  }

  function SetUnconfirmed(l: Local, g: GameId, flag: bool): Local {
    l.(unconfirmed := if flag then l.unconfirmed + {g} else l.unconfirmed - {g})
  }

  function SetDiffCount(l: Local, g: GameId, n: nat): Local {
    l.(diffCount := l.diffCount[g := n])
  }

  function Enqueue(l: Local, g: GameId, create: CreateVersion, now: int): Local {
    l.(outbox := l.outbox[l.nextKey := OutboxItem(g, create, 0, now)], nextKey := l.nextKey + 1)
  }

  function RemoveOutbox(l: Local, key: nat): Local {
    l.(outbox := l.outbox - {key})
  }

  function BumpAttempt(l: Local, key: nat, nextRetry: int): Local
    requires key in l.outbox
  {
    l.(outbox := l.outbox[key := l.outbox[key].(attempts := l.outbox[key].attempts + 1, nextRetry := nextRetry)])
  }

  // ---- planning a backup ----

  /** A resolved backup request; `seen` is the disk under its patterns, less excludes. */
  datatype Job = Job(game: GameId, hasPatterns: bool, hasRegistry: bool, seen: Disk)

  function Captured(job: Job): Disk {
    if job.hasPatterns then job.seen else map[]
  }

  function EntryOf(f: DiskFile): FileEntry {
    FileEntry(|f.content|, f.mtime, Blake3(f.content))
  }

  ghost function SnapshotFiles(d: Disk): FileSet {
    MapOf(d.Keys, p requires p in d => EntryOf(d[p]))
  }

  ghost function ContentsOf(d: Disk): Contents {
    MapOf(d.Keys, p requires p in d => d[p].content)
  }

  /** The contents at `paths`. */
  function Only(contents: Contents, paths: set<Path>): Contents {
    contents - (contents.Keys - paths)
  }

  ghost function JobFiles(job: Job): FileSet {
    SnapshotFiles(Captured(job))
  }

  function ParentOf(l: Local, g: GameId): Option<VersionId> {
    if g in l.snapshots then l.snapshots[g].head else None
  }

  function PriorDiffs(l: Local, g: GameId): nat {
    if g in l.diffCount then l.diffCount[g] else 0
  }

  /** Nothing to capture, or nothing changed since the base and no registry keys. */
  ghost predicate Skips(l: Local, job: Job) {
    || (!job.hasPatterns && !job.hasRegistry)
    || (!job.hasRegistry && job.game in l.snapshots
        && Changed(l.snapshots[job.game].files, JobFiles(job)) == {}
        && Deleted(l.snapshots[job.game].files, JobFiles(job)) == {})
  }

  /** Full on the first backup, periodically, and while the last one is unconfirmed. */
  function ChooseKind(l: Local, g: GameId, fullEvery: nat): Kind {
    if ParentOf(l, g).None? || PriorDiffs(l, g) >= fullEvery || g in l.unconfirmed then Full else Differential
  }

  function BaseFiles(l: Local, g: GameId): FileSet {
    if g in l.snapshots then l.snapshots[g].files else map[]
  }

  /** The upload a backup prepares: every file for a full, the changed ones for a
      differential, always declaring the local head as parent. */
  ghost function Prepare(l: Local, device: DeviceId, job: Job, fullEvery: nat, now: nat): CreateVersion {
    var g, files, contents := job.game, JobFiles(job), ContentsOf(Captured(job));
    var kind := ChooseKind(l, g, fullEvery);
    var paths := if kind == Full then files.Keys else Changed(BaseFiles(l, g), files);
    var deletions := if kind == Full then {} else Deleted(BaseFiles(l, g), files);
    var archive := Archive(g, device, ParentOf(l, g), kind, files, Only(contents, paths), deletions, now);
    CreateVersion(ParentOf(l, g), kind, files, archive, device)
  }

  // ---- talking to the server ----

  /** How far an upload gets: no contact, blob stored only, version stored but the
      reply lost, or answered. */
  datatype Net = Offline | BlobOnly | ReplyLost | Reached

  /** Put the blob if absent, then post the version; `None` is the client's error. */
  function Send(t: Tables, g: GameId, create: CreateVersion, net: Net): (Tables, Option<Outcome>) {
    match net
    case Offline => (t, None)
    case BlobOnly => (PutBlob(t, create.blob), None)
    case ReplyLost => (Create(PutBlob(t, create.blob), g, create).0, None)
    case Reached =>
      var (after, outcome) := Create(PutBlob(t, create.blob), g, create);
      (after, if outcome.Rejected? then None else Some(outcome))
  }

  datatype BackupOutcome =
    | NoChange
    | Uploaded(id: VersionId)
    | Queued
    | Diverged(head: Option<VersionId>, id: VersionId)

  function NextDiffCount(kind: Kind, prior: nat): nat {
    if kind == Full then 0 else prior + 1
  }

  /** Accepted and fast-forwarded: base and head become the new version. */
  function Confirm(l: Local, g: GameId, create: CreateVersion, id: VersionId, prior: nat): Local {
    SetDiffCount(SetUnconfirmed(PutSnapshot(l, g, create.files, Some(id)), g, false), g,
                 NextDiffCount(create.kind, prior))
  }

  /** Stored as a branch: track our tip; the diff counter is left alone. */
  function TrackBranch(l: Local, g: GameId, create: CreateVersion, id: VersionId): Local {
    SetUnconfirmed(PutSnapshot(l, g, create.files, Some(id)), g, false)
  }

  /** Queue durably, then advance the base under the old head and flag the game. */
  function Queue(l: Local, g: GameId, create: CreateVersion, now: nat): Local {
    SetUnconfirmed(PutSnapshot(Enqueue(l, g, create, now), g, create.files, create.parent), g, true)
  }

  function Settle(l: Local, g: GameId, create: CreateVersion, reply: Option<Outcome>, prior: nat, now: nat)
    : (Local, BackupOutcome)
  {
    match reply
    case Some(FastForward(id)) => (Confirm(l, g, create, id, prior), Uploaded(id))
    case Some(Conflict(head, id)) => (TrackBranch(l, g, create, id), Diverged(head, id))
    case _ => (Queue(l, g, create, now), Queued)
  }

  datatype Result = Result(local: Local, tables: Tables, outcome: BackupOutcome)

  /** One whole backup run. */
  ghost function Run(l: Local, t: Tables, device: DeviceId, job: Job, fullEvery: nat, net: Net, now: nat): Result {
    if Skips(l, job) then Result(l, t, NoChange)
    else
      var create := Prepare(l, device, job, fullEvery, now);
      var (after, reply) := Send(t, job.game, create, net);
      var (local, outcome) := Settle(l, job.game, create, reply, PriorDiffs(l, job.game), now);
      Result(local, after, outcome)
  }

  // ---- draining the outbox ----

  function Pow2(n: nat): nat {
    if n == 0 then 1 else 2 * Pow2(n - 1)
  }

  function Min(a: nat, b: nat): nat {
    if a < b then a else b
  }

  /** Seconds to wait after a failure that `attempts` failures preceded. */
  function BackoffDelay(attempts: nat): nat {
    Min(Pow2(Min(attempts, 9)), 300)
  }

  function SettleRetry(l: Local, key: nat, reply: Option<Outcome>, now: int): Local
    requires key in l.outbox
  {
    match reply
    case Some(FastForward(id)) => RemoveOutbox(SetLocalHead(l, l.outbox[key].game, id), key)
    case Some(Conflict(_, id)) => RemoveOutbox(SetLocalHead(l, l.outbox[key].game, id), key)
    case _ => BumpAttempt(l, key, now + BackoffDelay(l.outbox[key].attempts))
  }

  /** Retry one outbox entry. */
  function Retry(l: Local, t: Tables, key: nat, net: Net, now: int): (Local, Tables) {
    if key !in l.outbox then (l, t)
    else
      var item := l.outbox[key];
      var (after, reply) := Send(t, item.game, item.create, net);
      (SettleRetry(l, key, reply, now), after)
  }

  // ---- facts about a prepared upload ----

  /** A full carries every file it lists; a differential carries exactly what turns
      the base into them. */
  lemma PrepareComplete(l: Local, device: DeviceId, job: Job, fullEvery: nat, now: nat)
    ensures var c := Prepare(l, device, job, fullEvery, now);
      && c.files == JobFiles(job)
      && HashContents(ContentsOf(Captured(job))) == HashesOf(c.files)
      && (c.kind == Full ==> HashContents(c.blob.payload) == HashesOf(c.files) && c.blob.deletions == {})
      && (c.kind == Differential ==>
            && c.parent.Some? && job.game in l.snapshots && l.snapshots[job.game].head == c.parent
            && c.blob.payload.Keys == Changed(l.snapshots[job.game].files, c.files)
            && c.blob.deletions == Deleted(l.snapshots[job.game].files, c.files))
      && (forall p :: p in c.blob.payload ==>
            p in ContentsOf(Captured(job)) && c.blob.payload[p] == ContentsOf(Captured(job))[p])
  {
  }

  /** What is uploaded: a full on the first backup, when one is due and while the last is
      unconfirmed, else a differential; under the local head, listing every captured file. */
  lemma PreparedUpload(l: Local, device: DeviceId, job: Job, fullEvery: nat, now: nat)
    ensures var c := Prepare(l, device, job, fullEvery, now);
      && c.device == device
      && c.parent == (if job.game in l.snapshots then l.snapshots[job.game].head else None)
      && (c.kind == Full <==>
            || c.parent == None || job.game in l.unconfirmed
            || (if job.game in l.diffCount then l.diffCount[job.game] else 0) >= fullEvery)
      && (forall p :: p in c.files <==> job.hasPatterns && p in job.seen)
      && (forall p :: p in c.files ==>
            var f := job.seen[p]; c.files[p] == FileEntry(|f.content|, f.mtime, Blake3(f.content)))
      && (var a := c.blob;
          && a.game == job.game && a.device == device && a.parent == c.parent && a.kind == c.kind
          && a.files == c.files && a.createdAt == now)
  {
  }

  /** Exactly when a backup is skipped: the job has no registry keys, and no patterns
      either or a base that already has these hashes. */
  lemma SkipMeansSame(l: Local, job: Job)
    ensures Skips(l, job) <==>
      && !job.hasRegistry
      && (|| !job.hasPatterns
          || (job.game in l.snapshots && HashesOf(l.snapshots[job.game].files) == HashesOf(JobFiles(job))))
  {
    if job.game in l.snapshots {
      NoDiffIffSameHashes(l.snapshots[job.game].files, JobFiles(job));
    }
  }
}

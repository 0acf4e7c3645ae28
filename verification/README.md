# Savr: verification of the versioned save store and its daemon

Savr keeps versioned backups of game saves. A daemon on each device snapshots the
files under a game's patterns, diffs them against the last snapshot, packs a full or a
differential archive and uploads it; a server stores versions in a per-game history with
one head, blob reference counts and retention passes; a restore walks parents back to a
full, merges the archives and swaps the files in. Correctness is spread over both
processes. It rests on an agreement no single function states: a device's diff base has
the hashes of the version its local head names, unless the game is flagged unconfirmed.

`dafny verify dfyconfig.toml` checks everything.

## How the project is laid out

- `Types`, `Snapshots`: file sets, archives, versions; the sorted snapshot vector, `diff`.
- `ServerTables`, `Chains`, `Pruning`: the server's tables and their operations as
  functions; restore chains and their replay; what retention keeps.
- `ServerStore`: the same operations on a class with mutable tables, with the array
  algorithm of `prune_game`, each proved to compute its function.
- `Backup`, `Restore`, `Daemon`: the daemon's pipeline as functions, and on mutable
  tables and a mutable disk, each method proved to compute its function.
- `World`, `Lineage`, `Depth`, `Linear`: theorems over whole runs of any number of
  devices; `History`, `CatchUp`: over whole runs of the server and its clients;
  `Durability`, `Crashes`: over single writes with crashes; `Backoff`: over sequences of
  drains; `Survival`: exactly which retentions are ample.
- `Outcomes`: what each reported outcome says about what was done.
- `Witnesses`: runs from the empty system that reach the bad states found.
- `SharedConfig`: the tag-guarded configuration, statement by statement.
- `KeyValues`: Valve's text format, from bytes to tree. `Watcher`: the process poll loop.

Hashes are collision-free, so a hash is a constructor around its content and a blob is
named by the archive it holds; identifiers and tags are fresh, so they are counters.
Time, network outcome and scan results are parameters.

## What the theorems turned up

- Differentials are taken against the parent, not against the last full as the comment at
  `crates/savr-server/src/db.rs:702-704` says. A survivor of GC is restorable exactly if its
  whole chain survived (`Pruning.RestorableAfterPrune`). On a conflict-free history that is
  so for every survivor while `full_every` is at most `diff_per_full`, as with the defaults
  of 10 and 10 (`Linear.FullEveryWithinRetention`), and below that bound a run strands a
  version (`Witnesses.RetentionBelowFullEvery`); exactly which retentions spare a given
  history is `Survival.SurvivorsIntactIff`. A kept differential taken against the full that
  owns it always keeps its chain (`Pruning.KeptChildOfFullRestores`).
- A retry drained after the game was confirmed again moves only the head. The exact
  condition is `World.RetryKeepsAgreementIff`; `Lineage.UnsafeDrainCorrupts` shows a wrong
  restore outside it, and `Witnesses.LateRetryCorruptsFromStart` a run that gets there.
  `World.RestoreIsFaithful` assumes the condition at each retry and nothing else;
  `Lineage.RestoreIsAvailable` does not need it.
- Queueing moves the base before it sets the flag. A crash between the two is the one
  harmful crash point of a backup (`Crashes.CrashKeepsAgreementIff`,
  `Crashes.CrashMidQueueCorrupts`, reached in `Witnesses.CrashCorruptsFromFresh`). No crash
  loses a byte: every file a finished backup read stays in some stored or queued archive
  (`Durability.NothingIsLost`). But after that one crash a version can be stored whose
  restore does not give the files it lists; the lists can be trusted exactly as far as
  base and head agreed (`Durability.RestorableIffListed`).
- The periodic full caps restore chains at `full_every` differentials in every run without
  conflict, restore and late retry (`Depth.FullEveryCaps`), and that many are reached
  (`Depth.FullEveryIsReached`). Which steps keep a cap in general is exactly
  `Depth.StepKeepsShallowIff`. Two ways past it need no fault: conflicts do not bump the diff
  counter, so a device on a branch grows chains without bound (`Depth.ConflictsGrowChains`),
  and a pre-restore backup ignores the periodic full, so restores that then fail do so for a
  device that never conflicts (`Depth.FailedRestoresGrowChains`).
- A restore is atomic per file only, as `docs/KNOWN-ISSUES.md` says. What a stopped one
  leaves is `Restore.RestoreSwaps`, and restoring again repairs it
  (`Restore.RestoringAgainRecovers`). Failed removals of stale files are ignored by the code
  and may leave such files under the patterns.
- Sequence numbers can be reused after GC, as `docs/KNOWN-ISSUES.md` says;
  `History.SeqStaysFreshIff` gives the exact condition and `Witnesses.SeqHandedOutTwice` a run.
  A reconnecting client then misses exactly the versions stored under a number its mark had
  passed (`CatchUp.CaughtUpExceptMissed`); `Witnesses.ReusedNumberIsMissed` is such a run.
- A game that flaps within the settle time is announced started twice
  (`Watcher.RepeatedStartIff`).
- A backslash before a non-ASCII character makes a KeyValues file unparseable
  (`KeyValues.EscapesAreAscii`), although the comment at
  `crates/savr-daemon/src/detection/steam.rs:157-158` has unknown escapes pass verbatim.
- The comment at `crates/savr-daemon/src/restore.rs:64-65` has an offline pre-restore
  backup abort the restore. An offline backup is queued without error and the restore goes
  on if the version list can be fetched by then (`Restore.OfflineBackupDoesNotAbort`); exactly
  when a restore succeeds is `Restore.RestoredIff`.
- Foreign keys: the comment in the 0002 migration takes enforcement to be off, the first
  migration and `crates/savr-server/src/db.rs:877-888` to be on. The model has it on: an
  upload naming a missing parent is rejected, and deletion nulls the links first.

## Model

| member | source | states |
|---|---|---|
| `World.RestoreIsFaithful` | crates/savr-daemon/src/restore.rs:69-96 | Over every run of backups, uploads (accepted, conflicting, lost), queueing, retries under the condition of `World.RetryKeepsAgreementIff`, restores, resolves and GC by any devices: walking back from any stored version either reaches no full, or gives a linked chain whose archives are all stored and whose merged contents hash to exactly that version's files |
| `Lineage.RestoreIsAvailable` | crates/savr-daemon/src/restore.rs:152-171 | Over every run without GC, with no restriction on retries: a parentless version is a Full, every parent is an earlier-seq version of the same game, and every stored version has a chain, from its only Full to itself, with every archive of it stored |
| `World.RetryKeepsAgreementIff` | crates/savr-daemon/src/backup.rs:322-332 | An accepted outbox retry leaves base and head agreeing if and only if the game is unconfirmed, has no base, or the base already has the entry's hashes |
| `Lineage.UnsafeDrainCorrupts` | crates/savr-daemon/src/backup.rs:322-332 | After any accepted retry outside that condition, while the diff counter is below `full_every`, one further confirmed backup stores a version whose restore yields other files than it lists |
| `Witnesses.LateRetryCorrupts` | crates/savr-daemon/src/backup.rs:322-332 | Such a retry is reachable: for any game and device new to a sound world and any two differing disks there is a safe run after which a retry violates the condition and the next backup stores such a version |
| `Witnesses.LateRetryCorruptsFromStart` | crates/savr-daemon/src/backup.rs:322-332 | The same from the empty system |
| `Durability.NothingIsLost` | crates/savr-daemon/src/backup.rs:165-244 | With backup writes and outbox drains interleaved write by write and crashes anywhere, no GC: every stored diff base is listed by one version or queued upload and the bytes of each of its files are in the payload of a stored version's blob or a queued archive; whatever was so kept stays kept |
| `Durability.FinishedBackupIsDurable` | crates/savr-daemon/src/backup.rs:57-220 | The file set read by any backup of a job with patterns that ended without error stays listed, and every byte of it archived, through every later step and crash |
| `Durability.PreparedIsCovered` | crates/savr-daemon/src/backup.rs:112-122 | Whatever a packed upload does not carry itself is in an archive already |
| `Durability.RestorableIffListed` | crates/savr-daemon/src/restore.rs:69-96 | While base and head agreed at every upload and nothing was pruned, the server can restore a file set if and only if some version lists it |
| `Durability.RunsRestoreWhatTheyList` | crates/savr-daemon/src/restore.rs:69-96 | The same over every safe run without GC |
| `Crashes.BackupAloneIsRun` | crates/savr-daemon/src/backup.rs:57-220 | The micro-steps of one backup on its own end in exactly the local tables, server and read set of one whole run |
| `Crashes.BackupAlone` | crates/savr-daemon/src/backup.rs:165-244 | After each single write the machine is exactly where the source's statement order puts it |
| `Crashes.CrashKeepsAgreementIff` | crates/savr-daemon/src/backup.rs:240-242 | Of all crash points between the writes of one backup, exactly one leaves base and head disagreeing: base moved while queueing, flag not yet set, and the files differ from the parent's |
| `Crashes.CrashMidQueueCorrupts` | crates/savr-daemon/src/backup.rs:240-242 | Restarted from that crash, with the diff counter below `full_every`, one further confirmed backup stores a version that restores to the wrong files |
| `Witnesses.CrashCorruptsFromFresh` | crates/savr-daemon/src/backup.rs:240-242 | That crash is reachable from the fresh machine for any game, device and two differing disks, and still nothing is lost |
| `Depth.StepKeepsShallowIff` | crates/savr-daemon/src/backup.rs:92-112 | Exactly which steps keep the cap: any Full; a fast-forwarding differential while the counter is below the cap; one on a branch while its parent is less deep than the counter; an unanswered one while its parent is less deep than the cap; retries and restores by the same measure; everything else always |
| `Depth.RunKeepsCapIff` | crates/savr-daemon/src/backup.rs:92-112 | A run keeps the cap in every state if and only if each of its steps is such a step |
| `Depth.ChainsAreCapped` | crates/savr-daemon/src/backup.rs:92-112 | In every run of such steps no restore chain holds more than the cap's differentials, queued and retried ones included |
| `Depth.FullEveryCaps` | crates/savr-daemon/src/backup.rs:105-112 | In every run from the empty system in which each device's `full_every` is at most n, every answered backup fast-forwards, every retried entry finds its game unconfirmed or without a base, and nothing is restored, no restore chain ever holds more than n differentials; lost replies, offline queues, GC and resolves are allowed |
| `Depth.PlainFits` | crates/savr-daemon/src/backup.rs:105-112 | Each step of such a run meets both the safety condition on retries and the exact condition for keeping the cap, because a differential is only taken while the counter is below `full_every` |
| `Depth.FullEveryIsReached` | crates/savr-daemon/src/backup.rs:105-112 | For every `full_every` some such run stores a version whose chain holds exactly that many differentials |
| `Depth.RepliedDiffKeepsDepthIff` | crates/savr-daemon/src/backup.rs:169-189 | An answered differential on a parent with n differentials, n within the counter, leaves the head within the counter if and only if it fast-forwards or n was below it |
| `Depth.AdoptDepthIff` | crates/savr-daemon/src/restore.rs:119-130 | Adopting a target keeps the invariant if and only if the game is unconfirmed or the target is no deeper than the counter |
| `Depth.FailedRestoresGrowChains` | crates/savr-daemon/src/restore.rs:54-68 | The cap also fails for one device that never conflicts: pre-restore backups know no periodic full, so for every n some run of them stores a version whose chain holds n differentials |
| `Depth.FailedRestoreLeavesBackup` | crates/savr-daemon/src/restore.rs:54-68 | Each of those backups is all that a restore with a failed download leaves behind |
| `Depth.ConflictsGrowChains` | crates/savr-daemon/src/backup.rs:180-189 | Because a conflict does not bump the diff counter, for every n some run of two devices, even with a full due after each differential, stores a version whose chain holds n differentials |
| `Linear.GcCutsPrefix` | crates/savr-server/src/db.rs:783-863 | With at least one full retained and runs of differentials no longer than `diff_per_full`, a pass over a conflict-free history prunes exactly a prefix ending just before a kept full, and the rest is again such a history |
| `Linear.SurvivorsRestore` | crates/savr-server/src/db.rs:783-863 | In every conflict-free run with such retention, whatever number of GC passes ran, every surviving version restores to exactly its files |
| `Linear.FullEveryWithinRetention` | crates/savr-server/src/db.rs:783-863 | In every such run that also stores no branch of a game, with `full_every` at most `diff_per_full` and a full retained at each GC of it, every surviving version of the game restores to exactly its files |
| `Witnesses.RetentionBelowFullEvery` | crates/savr-server/src/db.rs:783-863 | That bound is needed: for every retention with `diff_per_full` below `full_every` (save none against one), a conflict-free run of one device from the empty system and one GC leave a stored version without the chain it had |
| `Survival.SurvivorsIntactIff` | crates/savr-server/src/db.rs:783-863 | Exactly which retentions do so on a conflict-free history, one full at least being retained: every retained full owns no more than `diff_per_full` differentials, or `diff_per_full` is 0 and it is not the newest or owns at most one |
| `Survival.KeptInGroup` | crates/savr-server/src/db.rs:841-857 | Of the run after a retained full exactly the head and the last `diff_per_full` members are kept |
| `Linear.RunKeepsLinear` | crates/savr-server/src/db.rs:182-219 | Every such run keeps the game's rows one parent-linked line from a full to the head |
| `Pruning.PruneIdempotent` | crates/savr-server/src/db.rs:783-863 | A second pass with the same head, losers and retention prunes nothing, although the first nulled parents and made new tips |
| `Pruning.PruneTwice` | crates/savr-server/src/db.rs:754-865 | The same on whole tables: pruning twice equals pruning once, rows, parents and blobs included |
| `Pruning.RestorableAfterPrune` | crates/savr-server/src/db.rs:702-704 | A survivor still has a restore chain if and only if its whole chain survived, and then chain and merged contents are unchanged |
| `Pruning.KeptChildOfFullRestores` | crates/savr-server/src/db.rs:702-704 | A kept differential whose parent is the full that owns it still has exactly the chain of the two after the pass |
| `Pruning.GcCanStrandADifferential` | crates/savr-server/src/db.rs:702-704 | A history of one full and two differentials in which retention keeps the second differential without the first, which leaves it unrestorable: differentials are not taken against the last full; `Witnesses.RetentionBelowFullEvery` gets there from the empty system |
| `Pruning.TipsAndTheirFullsSurvive` | crates/savr-server/src/db.rs:797-829 | Whatever the retention, a pass never deletes the head or an unresolved conflict tip (a version no row of the game names as parent and that is no resolved loser), nor the nearest full at or before it |
| `Pruning.PassSparesFullIff` | crates/savr-server/src/db.rs:783-866 | A full survives a pass if and only if fewer than `full` fulls are newer, or it is the nearest full at or before the head or an unresolved tip |
| `Pruning.PassSparesDiffIff` | crates/savr-server/src/db.rs:783-866 | A differential survives if and only if it is the head or an unresolved tip, or it has a full before it, fewer than `full` fulls are newer, and fewer than `diff_per_full` differentials follow it before the next full |
| `Pruning.OwnerSurvives` | crates/savr-server/src/db.rs:786-797 | A surviving differential keeps the same nearest preceding full |
| `Pruning.ParentAfterPrune` | crates/savr-server/src/db.rs:877-888 | A survivor is unchanged but for its parent, which stays if the parent survives and is null otherwise |
| `Pruning.NewestKeptIff` | crates/savr-server/src/db.rs:799-857 | Exactly when a pass spares the highest-seq version: it is the head, no resolved loser, or covered by retention |
| `Pruning.PruneKeepsTables` | crates/savr-server/src/db.rs:754-865 | A pass keeps foreign keys, unique seqs and heads consistent, and refcounts equal to the number of versions naming each blob |
| `History.SeqStaysFreshIff` | crates/savr-server/src/db.rs:190-194 | After a pass MAX(seq)+1 is above every seq stored before it if and only if the newest version is kept for one of those reasons |
| `History.SeqReused` | crates/savr-server/src/db.rs:190-194 | Retaining no full, a pass that drops a resolved newest loser lets the next seq be no higher than the dropped one |
| `Witnesses.SeqHandedOutTwice` | crates/savr-server/src/db.rs:190-194 | From an empty server: two fulls, two resolves, one such pass and one more upload give a new version the number another version had |
| `History.SeqNeverReused` | crates/savr-server/src/db.rs:190-194 | Over any run of uploads, resolves and passes that retain at least one full and one differential, games starting with a full, the seqs handed out strictly increase |
| `History.HeadsFormALine` | crates/savr-server/src/db.rs:182-259 | Between manual resolves, whatever any devices upload in any order: successive heads are one parent-linked line, and no two fast-forwards share a parent, the empty head included |
| `History.HistoryIsAdditive` | crates/savr-server/src/db.rs:182-259 | Without GC no stored row is ever altered or dropped |
| `History.ReferencesConserved` | crates/savr-server/src/db.rs:870-912 | In every state reachable by any requests, each version's blob row exists and its refcount is the number of versions naming it |
| `ServerTables.RemoveKeepsReferences` | crates/savr-server/src/db.rs:870-912 | Deleting any versions conserves references, and a blob row disappears exactly with the last version naming it, shared blobs included |
| `ServerTables.RemoveKeepsTables` | crates/savr-server/src/db.rs:870-888 | Deleting any versions that are no head keeps keys, seqs and parent links consistent |
| `ServerTables.CreateKeepsTables` | crates/savr-server/src/db.rs:182-259 | An upload, accepted or rejected, keeps them consistent |
| `ServerTables.CreateKeepsReferences` | crates/savr-server/src/db.rs:221-224 | An upload adds exactly one reference |
| `CatchUp.CaughtUpExactlyOnce` | crates/savr-server/src/db.rs:666-687 | Over any number of Hellos interleaved with orderly requests, a client is replayed each version at most once, each game's in seq order, and right after a Hello has received every version that survives to it |
| `CatchUp.CaughtUpExceptMissed` | crates/savr-server/src/db.rs:666-687 | With any requests at all, still in order and never twice, and right after a Hello a stored version was never replayed if and only if it was stored under a number the client's mark had already passed |
| `CatchUp.MissedBehindPruned` | crates/savr-server/src/db.rs:190-194 | Such a version is stored only when a version replayed under its number or a higher one is gone from the server |
| `Witnesses.ReusedNumberIsMissed` | crates/savr-server/src/db.rs:666-687 | From an empty server: a session in which a stored version is never replayed although the client says Hello again after it was stored |
| `CatchUp.FreshSessionSettled` | crates/savr-server/src/db.rs:666-687 | A new server and a new client are a session these theorems start from |
| `CatchUp.RunSettles` | crates/savr-server/src/db.rs:666-687 | The invariant behind it: everything at or below the client's mark that is still stored was replayed |
| `Chains.ChainIffLinked` | crates/savr-daemon/src/restore.rs:152-171 | What the walk returns is exactly the parent-linked list from the only Full to the target, and there is at most one |
| `Chains.BuildChain` | crates/savr-daemon/src/restore.rs:152-171 | The cursor loop and reversal terminate and compute that chain, or fail when it does not exist |
| `Chains.MergeChain` | crates/savr-daemon/src/restore.rs:76-96 | The merge loop computes the replay of the chain: payload overrides, deletions drop |
| `Chains.ReplayFaithful` | crates/savr-daemon/src/restore.rs:76-96 | Replaying a chain of faithfully written archives gives exactly the target's path-to-hash set |
| `Chains.DiffUndone` | crates/savr-core/src/snapshot.rs:125-152 | The reader undoes the writer: changed contents plus deletions turn any contents with the base's hashes into contents with the new ones |
| `Chains.ChainAfterRemoval` | crates/savr-server/src/db.rs:877-888 | Deleting versions never turns one chain into another: a survivor keeps its chain or has none |
| `Chains.ChainInCreate` | crates/savr-server/src/db.rs:182-219 | An upload leaves every stored chain alone; its own is itself for a Full, its parent's extended by it for a Differential |
| `Snapshots.Build` | crates/savr-core/src/snapshot.rs:30-91 | Whatever the visiting order and overlap of globs, the vector is sorted, free of duplicates, and denotes exactly the visited files that are not excluded |
| `Snapshots.SortedCanonical` | crates/savr-core/src/snapshot.rs:30-54 | Two sorted vectors of the same files are the same vector |
| `Snapshots.DiffMeaning` | crates/savr-core/src/snapshot.rs:119-152 | A diff holds exactly the added or rehashed rows and the vanished paths; it is empty if and only if the path-to-hash sets agree |
| `Backup.PrepareComplete` | crates/savr-daemon/src/backup.rs:92-122 | A Full carries every file it lists; a Differential carries exactly the changed files and the deletions against a base whose head it names as parent |
| `Backup.SkipMeansSame` | crates/savr-daemon/src/backup.rs:76-90 | A backup is skipped if and only if the job has no registry keys, and either no patterns or a base that already has its hashes |
| `Backup.PreparedUpload` | crates/savr-daemon/src/backup.rs:92-152 | A full is prepared exactly on the first backup, once `full_every` differentials were counted, and while unconfirmed; the upload names device and local head and lists every captured file with its size, time and hash |
| `Outcomes.UploadedIff` | crates/savr-daemon/src/backup.rs:165-177 | A backup reports Uploaded(id) if and only if the answer came and the server's head of the game is id, a version that did not exist before |
| `Outcomes.DivergedIff` | crates/savr-daemon/src/backup.rs:178-189 | It reports a conflict if and only if the answer came, a new version id was stored, and no head moved; the head reported is the server's |
| `Outcomes.QueuedIff` | crates/savr-daemon/src/backup.rs:190-275 | It reports Queued if and only if the outbox changed, by one entry, untried and due at once, with these files under the old head; and exactly if the server was not reached, lost the reply, or lacks the game or the parent |
| `Outcomes.NoChangeIff` | crates/savr-daemon/src/backup.rs:68-91 | It reports NoChange if and only if nothing changed on the device or the server |
| `Outcomes.StoredVersion` | crates/savr-server/src/db.rs:182-250 | The version an answered backup stored is the job's game's, this device's, a child of the local head, lists the captured files and has the next seq; it fast-forwards exactly if that parent is the server's head |
| `Outcomes.LocalAfterRun` | crates/savr-daemon/src/backup.rs:165-260 | Base, head, flag and counter after each outcome; a conflict leaves the counter alone |
| `World.PrepareOk` | crates/savr-daemon/src/backup.rs:92-152 | While base and head agree, the archive packed for a Differential turns its parent's files into its own |
| `World.RunOk` | crates/savr-daemon/src/backup.rs:57-220 | A whole backup run, whatever the network does, keeps base and head agreeing unless unconfirmed, and every stored archive faithful |
| `World.StepKeepsInv` | crates/savr-daemon/src/backup.rs:57-348 | Every safe step of the whole system keeps that agreement for every device and every row |
| `Restore.RestoreSwaps` | crates/savr-daemon/src/restore.rs:99-117 | Wherever the swap of a restore stopped, each path holds the target's content, nothing, or exactly what it held before, and which one is known path by path |
| `Restore.RestoreIsExact` | crates/savr-daemon/src/restore.rs:53-132 | After a successful restore of a request with patterns every target file is on disk with the target's content, under the patterns nothing else is left but stale files whose removal failed, no other path is touched, and base and head are the target's |
| `Restore.SwapReachedIff` | crates/savr-daemon/src/restore.rs:40-98 | A restore gets to its swap if and only if the game is not running, the target is a version of the game with a chain, and listing and download succeed; otherwise the disk is untouched |
| `Restore.DiskUntouchedIff` | crates/savr-daemon/src/restore.rs:40-117 | For any request, stored target or not, and progress: all content on the disk stays as it was if and only if the game runs, the target has no chain, or the files written by then match the target already and none was removed |
| `Restore.RestoringAgainRecovers` | crates/savr-daemon/src/restore.rs:99-117 | After a restore stopped anywhere inside its swap, restoring again undisturbed succeeds and leaves exactly the target under the patterns and the original disk elsewhere |
| `Restore.RestoreIsUndoable` | crates/savr-daemon/src/restore.rs:53-68 | If the pre-restore backup was stored and has a chain, then wherever the restore ended, restoring that backup brings the original content under the patterns back |
| `Restore.RestoreBringsBack` | crates/savr-daemon/src/restore.rs:69-132 | Restoring any version that lists what a disk held under the patterns brings exactly that content back |
| `Restore.RestoredIff` | crates/savr-daemon/src/restore.rs:40-132 | A restore of a stored version succeeds if and only if the game is not running, it has save paths, the version has a chain, and nothing fails from the listing on; what the network did to the pre-restore backup is no part of it |
| `Outcomes.RestoreEndsIff` | crates/savr-daemon/src/restore.rs:34-132 | Each way a restore can end, as an equivalence: running game, no save paths, and then the first of listing, chain, download, swap that fails |
| `Outcomes.PathAfterRestore` | crates/savr-daemon/src/restore.rs:96-117 | What lies at any one path once the swap was reached, for each point it can stop at |
| `Outcomes.PreBackupSkippedIff` | crates/savr-daemon/src/restore.rs:52-68 | The backup before a restore is skipped exactly without registry keys and over a base that already has all that lies under the patterns |
| `Restore.OfflineBackupDoesNotAbort` | crates/savr-daemon/src/restore.rs:63-67 | An offline pre-restore backup of a changed game is queued, and the restore goes on |
| `Restore.RestoreIsTwoSteps` | crates/savr-daemon/src/restore.rs:53-132 | On local tables and server a restore is a backup, then adopting the target if it got that far: the run theorems cover restores |
| `Restore.BackupAfterRestoreSkipsIff` | crates/savr-daemon/src/backup.rs:76-90 | An immediate further backup without registry keys is a no-op if and only if it sees every target file and no stale file whose removal failed |
| `ServerStore.Store.CreateVersion` | crates/savr-server/src/db.rs:182-259 | The mutable tables after an upload are those of the specification: next seq, reference, compare-and-swap on the head, conflict with the head unchanged, or rejection |
| `Outcomes.ResolveReports` | crates/savr-server/src/db.rs:564-643 | A resolve is refused exactly for an unknown game or a winner that is no version of it, changing nothing; else the winner is the head and the seq reported is its own |
| `Outcomes.ResolveRecordsLoser` | crates/savr-server/src/db.rs:605-636 | After a resolve exactly the displaced head has become a resolved loser, and no other version of any game has become or stopped being one |
| `Outcomes.DisplacedHeadIsCollected` | crates/savr-server/src/db.rs:605-636 | In a game of fulls, a displaced head that no row names is deleted by the next pass exactly if at least `full` versions are newer, and the winner stays |
| `ServerStore.Store.ResolveConflict` | crates/savr-server/src/db.rs:564-643 | Head and losers after a resolve are those of the specification |
| `ServerStore.Store.DeleteVersionAndDeref` | crates/savr-server/src/db.rs:870-912 | Nulls the links into the row, deletes it, drops one reference, and reports whether the blob row went |
| `ServerStore.Store.NullParents` | crates/savr-server/src/db.rs:880-883 | Row by row, every link into the version is nulled and nothing else changes |
| `ServerStore.Store.DropReference` | crates/savr-server/src/db.rs:888-903 | One reference goes, and the blob row with the last; reports whether it went |
| `ServerStore.OwningFulls` | crates/savr-server/src/db.rs:783-795 | The scan finds for every index the nearest full at or before it |
| `ServerStore.MarkProtected` | crates/savr-server/src/db.rs:797-829 | Marks exactly the head, the unresolved tips and the owning fulls of both |
| `ServerStore.MarkFulls` | crates/savr-server/src/db.rs:831-839 | Marks in addition exactly the newest N fulls |
| `ServerStore.MarkDiffs` | crates/savr-server/src/db.rs:841-857 | Marks in addition exactly the newest M differentials of each of those fulls |
| `ServerStore.MarkKept` | crates/savr-server/src/db.rs:783-857 | The whole marking on the arrays: true exactly at the versions retention keeps |
| `ServerStore.Store.PruneGame` | crates/savr-server/src/db.rs:754-865 | The loop of single deletions leaves exactly the pruned tables and counts what it deleted |
| `ServerStore.Store.VersionsSince` | crates/savr-server/src/db.rs:666-687 | Returns exactly the versions above the client's mark of each game, once each, in seq order within a game |
| `ServerStore.MissedIsReplay` | crates/savr-server/src/db.rs:666-687 | Filtering the seq-ordered listing by the marks is such a replay |
| `Daemon.RunBackup` | crates/savr-daemon/src/backup.rs:57-220 | The mutable local tables, the server and the outcome after a backup are those of the specification the run theorems are about |
| `Daemon.QueueBackup` | crates/savr-daemon/src/backup.rs:230-244 | The three writes of queueing, in order, leave entry, base under the old head, and flag |
| `Daemon.RetryOutbox` | crates/savr-daemon/src/backup.rs:295-348 | A drain tries exactly the due entries, once each and earliest retry time first, each against the state its predecessors left |
| `Outcomes.RetriedIff` | crates/savr-daemon/src/backup.rs:304-345 | A retried entry goes if and only if the server answered with a stored version, which has the entry's columns and becomes the local head whether it fast-forwarded or not; else one more failure and its delay are noted and nothing else |
| `Outcomes.DrainStoresInOrder` | crates/savr-daemon/src/backup.rs:304 | Of two entries a drain got stored, the one listed first is the version with the lower id |
| `Crashes.RetryAloneIsRetry` | crates/savr-daemon/src/backup.rs:304-345 | A drain's single writes, uninterrupted, add up to one retry |
| `Daemon.LocalState.DueOutbox` | crates/savr-daemon/src/state.rs:271-289 | Exactly the entries whose time has come, earliest first |
| `Daemon.RestoreVersion` | crates/savr-daemon/src/restore.rs:31-133 | Local tables, server, disk and outcome after a restore, whichever of its operations fail, are those of the specification at the point it reached |
| `Daemon.SwapIn` | crates/savr-daemon/src/restore.rs:99-117 | Writing merged files up to the first failure, then deleting stale ones, leaves exactly the specified disk |
| `Backoff.RetriesBackOff` | crates/savr-daemon/src/backup.rs:295-354 | Over any sequence of backups, restores and drains, the try of an entry that follows k failures comes at least 2^k - 1 seconds after its first try for k up to 9, and 511 + 300 (k - 9) beyond, by the drains' own clocks |
| `Backoff.UntriedIsDue` | crates/savr-daemon/src/backup.rs:255-276 | An entry no drain has tried is due from the time of the backup that queued it |
| `Backoff.FailedIsDueAgain` | crates/savr-daemon/src/backup.rs:333-360 | After its k-th failure an entry is due again exactly 2^(k-1) seconds past that try, and 300 from the tenth on |
| `Backoff.QueuedRowCountsTries` | crates/savr-daemon/src/state.rs:291-304 | A queued row's attempt count is the number of times it was tried |
| `SharedConfig.AcceptedIffReplaced` | crates/savr-server/src/db.rs:489-556 | For every interleaving of fetches, seeds and puts by statement: a put was accepted if and only if its value stands in the chain of values the row held, directly after the one whose tag it submitted |
| `SharedConfig.NoLostUpdate` | crates/savr-server/src/db.rs:513-556 | No two accepted puts submitted the same tag, and no tag is handed out twice |
| `SharedConfig.RowIsLastAccepted` | crates/savr-server/src/db.rs:462-511 | The row is the seed or the value of an accepted put, and "config vanished after seed" never happens |
| `SharedConfig.FetchedIsTheRow` | crates/savr-server/src/db.rs:462-511 | In every interleaving a fetch answers tag and data of the row as it stood at one moment between its arrival and its answer |
| `SharedConfig.ConflictIsTheRows` | crates/savr-server/src/db.rs:513-554 | A refused put is told the tag the row has at that moment, which is not the one submitted, and changes nothing |
| `SharedConfig.AcceptedIsTheRow` | crates/savr-server/src/db.rs:513-556 | An accepted put replaces, in one step after its arrival, the row of the tag it submitted by its own data |
| `SharedConfig.AloneFetch` | crates/savr-server/src/db.rs:462-487 | Left alone, a fetch of an existing row answers it and writes nothing |
| `SharedConfig.FirstFetch` | crates/savr-server/src/db.rs:462-511 | Left alone, the first fetch seeds the default under a fresh tag and answers it |
| `SharedConfig.AloneAcceptedIff` | crates/savr-server/src/db.rs:513-542 | Undisturbed, a put is accepted if and only if it submits the stored tag, and otherwise reports that tag and changes nothing |
| `KeyValues.ParseInvertsWrite` | crates/savr-daemon/src/detection/steam.rs:108-235 | Any tree of UTF-8 strings, printed with quotes, escapes and braces in any layout of ignored bytes, lone slashes and line comments, tokenizes and parses back to itself |
| `KeyValues.ParserInvertsPrinter` | crates/savr-daemon/src/detection/steam.rs:201-235 | The parser accepts exactly the printed token lists, each as the tree it prints |
| `KeyValues.ParseReadsTokensOnly` | crates/savr-daemon/src/detection/steam.rs:108-119 | A text parses to a tree if and only if its tokens are the tree's |
| `KeyValues.LexWritten` | crates/savr-daemon/src/detection/steam.rs:128-190 | However a token list is laid out, the tokenizer finds the same list |
| `KeyValues.ReadEscapedBack` | crates/savr-daemon/src/detection/steam.rs:143-175 | A UTF-8 string escaped and quoted is read back as itself, up to its closing quote |
| `KeyValues.AsciiEscapes` | crates/savr-daemon/src/detection/steam.rs:154-168 | After a backslash, `n` and `t` read as line feed and tab, every other ASCII byte as itself, the backslash gone |
| `KeyValues.ReadIsClosed` | crates/savr-daemon/src/detection/steam.rs:145-177 | A string is read only up to a closing quote, and what is read is valid UTF-8 |
| `KeyValues.LexByte` | crates/savr-daemon/src/detection/steam.rs:132-190 | Braces are tokens, quotes open strings, slashes alone and every other byte are passed over |
| `KeyValues.EscapesAreAscii` | crates/savr-daemon/src/detection/steam.rs:153-165 | A backslash is accepted before an ASCII character only: before any other one the whole file is refused, where the comment promises it passes verbatim |
| `KeyValues.Tokenize` | crates/savr-daemon/src/detection/steam.rs:128-190 | The index loop over the bytes computes the tokens, or fails on an unterminated or malformed string |
| `KeyValues.ScanString` | crates/savr-daemon/src/detection/steam.rs:141-176 | The inner loop computes the string and the index after its closing quote |
| `KeyValues.ScanChar` | crates/savr-daemon/src/detection/steam.rs:154-175 | One character, escaped or plain, is appended such that the rest of the string decides the result as before; where there is none to append the whole string is unreadable |
| `KeyValues.ParsePairAt` | crates/savr-daemon/src/detection/steam.rs:201-219 | The position-advancing pair parser computes the pair and where the rest begins; its mutual recursion terminates on every token list |
| `KeyValues.ParseObjAt` | crates/savr-daemon/src/detection/steam.rs:221-235 | The same for the entry loop up to the closing brace |
| `KeyValues.Parse` | crates/savr-daemon/src/detection/steam.rs:108-119 | The whole document loop |
| `Watcher.StopMeansSettled` | crates/savr-daemon/src/detection/mod.rs:74-96 | A GameStopped fires only after an unbroken stretch of scans without the game, following one with it, that lasts at least `settle` |
| `Watcher.StartBetweenStops` | crates/savr-daemon/src/detection/mod.rs:60-98 | Two stops of a game always have a start between them |
| `Watcher.OneStopAtTheDeadline` | crates/savr-daemon/src/detection/mod.rs:74-96 | A game that stays away gets its stop from the first poll past the deadline and from no other |
| `Watcher.TrackedIffStartedLast` | crates/savr-daemon/src/detection/mod.rs:60-98 | A game is running or settling if and only if the last event about it was a start; no game is both |
| `Watcher.RepeatedStartIff` | crates/savr-daemon/src/detection/mod.rs:61-72 | A start repeats the last event if and only if the game came back while its stop was settling |
| `Watcher.FlapStartsTwice` | crates/savr-daemon/src/detection/mod.rs:61-72 | A game missed by one scan and seen again within the settle time is announced started twice with no stop |
| `Watcher.Loop.Tick` | crates/savr-daemon/src/detection/mod.rs:57-98 | One turn of the loop on the mutable maps leaves the specified running set and timers and emits exactly the specified events, one per game at most |
| `Depth.EagerRunsAreSafe` | crates/savr-daemon/src/backup.rs:57-220 | The growing-chain runs satisfy the hypotheses of `World.RestoreIsFaithful` and `Lineage.RestoreIsAvailable`, so those range over runs that store versions |
| `Linear.LinearRunsExist` | crates/savr-daemon/src/backup.rs:57-220 | Runs as `Linear.SurvivorsRestore` asks for exist and store a version |
| `Lineage.DisagreementCorrupts` | crates/savr-daemon/src/backup.rs:84-122 | Whenever a confirmed base and its head disagree, one further backup that adds a file stores a version restoring to other files than it lists |
| `Linear.PruneCutsPrefix` | crates/savr-server/src/db.rs:783-857 | On one line of versions the versions retention drops are exactly those before the first recent full; if any are dropped, exactly `retention.full` fulls stay |
| `Linear.LineChain` | crates/savr-daemon/src/restore.rs:152-171 | On such a line a version's chain runs from its owning full to itself |
| `History.ServeSeq` | crates/savr-server/src/db.rs:190-194 | One orderly request never lowers the highest seq of a game, and raises it by one exactly when it stores a version |
| `History.CollectKeepsMax` | crates/savr-server/src/db.rs:831-857 | A pass retaining at least one full and one differential keeps the highest seq of an anchored game |
| `ServerStore.Store.ListGame` | crates/savr-server/src/db.rs:763-781 | The rows of one game, each once, in seq order |
| `ServerStore.GroupDiffs` | crates/savr-server/src/db.rs:841-850 | Groups exactly the differentials of each owning full, in seq order |
| `ServerStore.FullIndices` | crates/savr-server/src/db.rs:831-835 | Exactly the indices of fulls, ascending |
| `Daemon.PackBackup` | crates/savr-daemon/src/backup.rs:68-152 | Nothing when the backup is skipped, else the upload the specification prepares |
| `Daemon.SettleUpload` | crates/savr-daemon/src/backup.rs:165-220 | The local writes after each possible answer leave the specified tables and outcome |
| `Daemon.UploadVersion` | crates/savr-daemon/src/backup.rs:279-291 | Blob first if absent, then the version, as far as the network lets it get |
| `Daemon.RetryOne` | crates/savr-daemon/src/backup.rs:305-345 | One entry: head moved and entry gone on either acceptance, else one more attempt and a later time |
| `Daemon.FinishRestore` | crates/savr-daemon/src/restore.rs:69-132 | From the version list on: chain, merge, swap, deletion and adoption, or the specified failure at the point reached |
| `Daemon.SaveDir.InstallAll` | crates/savr-daemon/src/restore.rs:99-107 | Exactly the merged files written before the first failure replace what was there; all of them if none fails |
| `Daemon.SaveDir.DropAll` | crates/savr-daemon/src/restore.rs:111-117 | Exactly the base's files that the target lacks are deleted, failed removals aside |
| `KeyValues.SkipLine` | crates/savr-daemon/src/detection/steam.rs:180-185 | A line comment is skipped up to, not including, its line end |
| `KeyValues.LexSkipsGap` | crates/savr-daemon/src/detection/steam.rs:180-186 | Ignored bytes, slashes that no slash follows, and closed comments between tokens change nothing |
| `Watcher.PendingMeansGone` | crates/savr-daemon/src/detection/mod.rs:74-81 | A pending stop is due `settle` after the timer armed by the first scan of the current absence |
| `Watcher.TimerStands` | crates/savr-daemon/src/detection/mod.rs:74-96 | While a game stays away its timer stands until the first poll past the deadline, and is then gone |
| `Watcher.Loop.NoteFound` | crates/savr-daemon/src/detection/mod.rs:60-72 | Starts exactly the found games not running, and cancels the timers of all found ones |
| `Watcher.Loop.ArmVanished` | crates/savr-daemon/src/detection/mod.rs:74-81 | Arms exactly the vanished games that have no timer |
| `Watcher.Loop.FireSettled` | crates/savr-daemon/src/detection/mod.rs:83-96 | Stops exactly the absent games whose timer is due, and drops those timers |

## Left out

- One account only: rows of other accounts, devices as rows, pairing, tokens and roles.
- Tar, zstd and BLAKE3 bytes, JSON, SQL text and UUID syntax; archives and rows are typed values.
- HTTP, WebSocket and IPC transport, the presence hub and broadcasts; an upload ends in one of four ways chosen by the environment.
- Registry keys are carried as a flag only: capture is a stub in the source and always yields nothing.
- Directory and symlink clashes, temporary names, permissions and glob syntax: a disk is a flat map from path to file, and patterns and excludes are predicates on paths.
- Files changing between the snapshot and the packing of one backup, and a backup overlapping a restore of the same game.
- The race between a retention pass's commit and the later removal of the blob file, and a pass racing a head move: one deletion is one step.
- `run_gc`'s outer loop over games and accounts: a run may contain any sequence of passes.
- SharedConfig.AcceptedIffReplaced: `put_config` is modelled on values as a machine over its statements, since its point is the interleaving; it has no class with mutable rows.
- KeyValues.Parse: `Kv::get` and what is read out of the parsed tree are not modelled.
- Two drains overlapping each other in the backoff bound; in the crash model drains do overlap.
- The dropping of outbox entries whose payload no longer parses: stored entries always parse here.
- Local database and packing errors inside a backup: a write either happens or the process stops before it.
- Conflict policies other than choosing a winner: configured in the source but not implemented.
- Choosing which process belongs to a game, adaptive poll intervals, title normalisation, manifest matching and path templates: they would only add easy members.
- Learn mode (a stub), the desktop app, tray, autostart, updater, logs and play statistics.

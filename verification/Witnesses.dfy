/** Runs from the empty system that reach the states in which things go wrong: a late
    outbox retry, a crash in the middle of queueing, a differential stranded by a
    retention pass, a sequence number handed out twice. */
module Witnesses {
  import opened Types
  import opened ServerTables
  import opened Chains
  import opened Pruning
  import opened Backup
  import opened World
  import opened Lineage
  import opened Depth
  import opened Linear
  import opened Survival
  import opened Durability
  import opened Crashes
  import opened History
  import opened ServerStore
  import opened CatchUp

  /** A backup of a game without registry keys that finds `disk` under its patterns. */
  function Finds(g: GameId, disk: Disk): Job {
    Job(g, true, false, disk)
  }

  /** Two disks some file tells apart. */
  ghost predicate Differ(a: Disk, b: Disk) {
    HashesOf(SnapshotFiles(a)) != HashesOf(SnapshotFiles(b))
  }

  // ---- a late retry ----

  /** Offline with `a` on disk, then online with `b`: confirmed with base `b`, and `a`
      still in the outbox. */
  lemma LateEntry(l: Local, t: Tables, d: DeviceId, g: GameId, a: Disk, b: Disk, k: nat)
    requires l == EMPTY_LOCAL && TablesOk(t) && g in t.heads && t.heads[g] == None && Differ(a, b)
    ensures var r := Run(l, t, d, Finds(g, a), k, Offline, 0);
      var q := Run(r.local, r.tables, d, Finds(g, b), k, Reached, 0);
      && r.tables == t
      && 0 in q.local.outbox && q.local.outbox[0].game == g && q.local.outbox[0].create.parent == None
      && g in q.tables.heads
      && !RetrySafe(q.local, 0) && PriorDiffs(q.local, g) == 0
  {
    var r := Run(l, t, d, Finds(g, a), k, Offline, 0);
    assert r.local == Queue(l, g, Prepare(l, d, Finds(g, a), k, 0), 0);
    ConfirmedOver(r.local, t, d, g, a, b, k);
  }

  /** The backup of `b` confirmed over the queued one of `a`. */
  lemma ConfirmedOver(l: Local, t: Tables, d: DeviceId, g: GameId, a: Disk, b: Disk, k: nat)
    requires TablesOk(t) && g in t.heads && t.heads[g] == None && Differ(a, b)
    requires g in l.snapshots && l.snapshots[g] == Stored(SnapshotFiles(a), None)
    requires 0 in l.outbox && l.outbox[0].game == g && l.outbox[0].create.files == SnapshotFiles(a)
    ensures var q := Run(l, t, d, Finds(g, b), k, Reached, 0);
      && q.local.outbox == l.outbox && g in q.tables.heads
      && !RetrySafe(q.local, 0) && PriorDiffs(q.local, g) == 0
  {
    var e := Prepare(l, d, Finds(g, b), k, 0);
    SkipMeansSame(l, Finds(g, b));
    assert e.kind == Full && e.parent == None;
    FirstSend(t, g, e);
  }

  lemma NoDrainThree(w: World, a: Event, b: Event, c: Event)
    requires TablesOk(w.tables) && !a.Drain? && !b.Drain? && !c.Drain? && !a.Gc? && !b.Gc? && !c.Gc?
    ensures SafeRun(w, [a, b, c]) && forall e :: e in [a, b, c] ==> !e.Gc?
  {
    var es := [a, b, c];
    forall e | e in es ensures !e.Drain? && !e.Gc? { assert e == a || e == b || e == c; }
    NoDrainIsSafe(w, es);
  }

  /** For any game, device and two differing disks there is a run that leaves `SafeRun`
      by its last step but one, a retry, and ends with a stored version that restores
      to other files than it lists. */
  lemma LateRetryCorrupts(w: World, d: DeviceId, g: GameId, a: Disk, b: Disk, k: nat)
    returns (es: seq<Event>, retry: Event, last: Event, v: VersionId)
    requires Inv(w) && Gapless(w) && d !in w.locals && g !in w.tables.heads && Differ(a, b) && k >= 1
    ensures SafeRun(w, es) && !Safe(RunAll(w, es), retry)
    ensures var t := Step(Step(RunAll(w, es), retry), last).tables; TablesOk(t) && Corrupt(t, v)
  {
    var one, two, three := NewGame(g), BackUp(d, Finds(g, a), k, Offline, 0), BackUp(d, Finds(g, b), k, Reached, 0);
    es := RunThree(w, one, two, three);
    NoDrainThree(w, one, two, three);
    var x := RunAll(w, es);
    RunKeepsInv(w, es);
    RunKeepsGapless(w, es);
    ThreeSteps(w, d, g, a, b, k);
    LateEntry(EMPTY_LOCAL, Step(w, one).tables, d, g, a, b, k);
    var l := LocalOf(x, d);
    assert LocalUnbroken(x.tables, l) && LocalOk(x.tables, l);
    retry := Drain(d, 0, Reached, 0);
    AnsweredWhenReached(x.tables, g, l.outbox[0].create);
    var job := UnsafeDrainCorrupts(l, x.tables, d, 0, Reached, 0, k, 0);
    last := BackUp(d, job, k, Reached, 0);
    DrainStep(x, d, 0, Reached, 0);
    BackUpStep(Step(x, retry), d, job, k, Reached, 0);
    v := Step(x, retry).tables.nextId;
  }

  lemma AnsweredWhenReached(t: Tables, g: GameId, c: CreateVersion)
    requires g in t.heads && c.parent == None
    ensures Send(t, g, c, Reached).1.Some?
  {
  }

  lemma ThreeSteps(w: World, d: DeviceId, g: GameId, a: Disk, b: Disk, k: nat)
    requires TablesOk(w.tables) && d !in w.locals && g !in w.tables.heads
    ensures var x := Step(w, NewGame(g));
      var r := Run(EMPTY_LOCAL, x.tables, d, Finds(g, a), k, Offline, 0);
      var q := Run(r.local, r.tables, d, Finds(g, b), k, Reached, 0);
      var y := Step(Step(x, BackUp(d, Finds(g, a), k, Offline, 0)), BackUp(d, Finds(g, b), k, Reached, 0));
      && x.tables.heads == w.tables.heads[g := None]
      && d in y.locals && y.locals[d] == q.local && y.tables == q.tables
  {
    var x := Step(w, NewGame(g));
    BackUpStep(x, d, Finds(g, a), k, Offline, 0);
    BackUpStep(Step(x, BackUp(d, Finds(g, a), k, Offline, 0)), d, Finds(g, b), k, Reached, 0);
  }

  /** In particular from the empty system. */
  lemma LateRetryCorruptsFromStart(w: World, d: DeviceId, g: GameId, a: Disk, b: Disk, k: nat)
    returns (es: seq<Event>, retry: Event, last: Event, v: VersionId)
    requires w == START && Differ(a, b) && k >= 1
    ensures SafeRun(w, es) && !Safe(RunAll(w, es), retry)
    ensures var t := Step(Step(RunAll(w, es), retry), last).tables; TablesOk(t) && Corrupt(t, v)
  {
    es, retry, last, v := LateRetryCorrupts(w, d, g, a, b, k);
  }

  // ---- a crash in the middle of queueing ----

  lemma {:induction false} MicroAppend(m: Machine, a: seq<MicroStep>, b: seq<MicroStep>)
    ensures MicroAll(m, a + b) == MicroAll(MicroAll(m, a), b)
    decreases |b|
  {
    if b == [] {
      assert a + b == a;
    } else {
      assert a + b == (a + b[..|b| - 1]) + [b[|b| - 1]];
      MicroSnoc(m, a + b[..|b| - 1], b[|b| - 1]);
      MicroAppend(m, a, b[..|b| - 1]);
    }
  }

  lemma FirstRun(t: Tables, d: DeviceId, g: GameId, a: Disk, k: nat)
    requires TablesOk(t) && RowsOk(t) && g in t.heads && t.heads[g] == None
    ensures var r := Run(EMPTY_LOCAL, t, d, Finds(g, a), k, Reached, 0);
      && TablesOk(r.tables) && RowsOk(r.tables) && LocalOk(r.tables, r.local) && BacksUp(r.local, r.tables, g, a)
      && g in r.tables.heads && PriorDiffs(r.local, g) == 0
      && ParentOf(r.local, g).Some? && ChainIn(r.tables, ParentOf(r.local, g).value).Some?
  {
    RunOk(EMPTY_LOCAL, t, d, Finds(g, a), k, Reached, 0);
    FirstBackUp(t, d, Finds(g, a), k);
    FullIsItsChain(Run(EMPTY_LOCAL, t, d, Finds(g, a), k, Reached, 0).tables, g, t.nextId);
  }

  /** A confirmed backup of the disk `a`. */
  ghost predicate BacksUp(l: Local, t: Tables, g: GameId, a: Disk) {
    && g in l.snapshots && g !in l.unconfirmed && l.snapshots[g].files == SnapshotFiles(a)
    && l.snapshots[g].head.Some? && l.snapshots[g].head.value in t.versions
    && t.versions[l.snapshots[g].head.value].files == SnapshotFiles(a)
  }

  ghost predicate BeforeBadCrash(m: Machine, d: DeviceId, g: GameId, b: Disk, k: nat) {
    && TablesOk(m.tables) && RowsOk(m.tables) && LocalOk(m.tables, m.local)
    && CrashedMidQueue(m, d, Finds(g, b), k, Offline, 0, 2)
    && g in m.tables.heads && PriorDiffs(m.local, g) == 0
    && ParentOf(m.local, g).Some? && ChainIn(m.tables, ParentOf(m.local, g).value).Some?
  }

  lemma NextCrashIsBad(m: Machine, t: Tables, d: DeviceId, g: GameId, a: Disk, b: Disk, k: nat)
    requires TablesOk(t) && RowsOk(t) && g in t.heads && t.heads[g] == None && Differ(a, b)
    requires var r := Run(EMPTY_LOCAL, t, d, Finds(g, a), k, Reached, 0); m.local == r.local && m.tables == r.tables
    ensures BeforeBadCrash(m, d, g, b, k)
  {
    FirstRun(t, d, g, a, k);
    SkipMeansSame(m.local, Finds(g, b));
  }

  /** A registered game, backed up once with `a` on disk, stands right before the bad
      crash of a second backup with `b` on disk. */
  lemma BadCrashReached(m: Machine, d: DeviceId, g: GameId, a: Disk, b: Disk, k: nat)
    requires m.local == EMPTY_LOCAL && TablesOk(m.tables) && RowsOk(m.tables) && m.tasks == map[]
    requires g in m.tables.heads && m.tables.heads[g] == None && Differ(a, b) && k >= 1
    ensures var n := MicroAll(m, BackupSteps(0, d, Finds(g, a), k, Reached, 0, 4));
      BeforeBadCrash(n, d, g, b, k) && 1 !in n.tasks
  {
    BackupAloneIsRun(m, 0, d, Finds(g, a), k, Reached, 0);
    NextCrashIsBad(MicroAll(m, BackupSteps(0, d, Finds(g, a), k, Reached, 0, 4)), m.tables, d, g, a, b, k);
  }

  /** For any game, device and two differing disks there are micro-steps from the fresh
      machine, with one crash among them, that end with a stored version restoring to
      other files than it lists, while nothing is lost. */
  lemma CrashCorruptsFromFresh(m: Machine, d: DeviceId, g: GameId, a: Disk, b: Disk, k: nat)
    returns (ss: seq<MicroStep>, v: VersionId)
    requires m == Machine(EMPTY_LOCAL, EMPTY, map[], map[]) && Differ(a, b) && k >= 1
    ensures var t := MicroAll(m, ss).tables; TablesOk(t) && Corrupt(t, v)
    ensures Held(MicroAll(m, ss))
  {
    var start := [MicroStep.Register(g)];
    assert start == [] + [MicroStep.Register(g)];
    MicroSnoc(m, [], MicroStep.Register(g));
    var x := MicroAll(m, start);
    EnsureGameKeeps(m.tables, g);
    assert x.tables.heads == map[g := None] && x.tables.versions == map[];
    var first := BackupSteps(0, d, Finds(g, a), k, Reached, 0, 4);
    var y := MicroAll(x, first);
    BadCrashReached(x, d, g, a, b, k);
    var second := BackupSteps(1, d, Finds(g, b), k, Offline, 0, 2) + [Crash];
    var z := MicroAll(y, second);
    var harm := CrashMidQueueCorrupts(y, 1, d, Finds(g, b), k, Offline, 0, 2, 0);
    var third := BackupSteps(2, d, harm, k, Reached, 0, 4);
    ss := start + first + second + third;
    MicroAppend(m, start, first);
    MicroAppend(m, start + first, second);
    MicroAppend(m, start + first + second, third);
    FreshMachineHeld();
    NothingIsLost(m, ss);
    v := z.tables.nextId;
  }

  // ---- a stranded differential ----

  predicate Reaches(e: Event) {
    e.NewGame? || (e.BackUp? && e.net == Reached)
  }

  lemma ReachedNoConflict(w: World, e: Event, most: nat, g: GameId)
    requires TablesOk(w.tables) && Plain(w, e, most) && Reaches(e)
    ensures NoConflict(w.tables, Step(w, e).tables, g)
  {
    FreshId(w.tables);
    match e
    case NewGame(_) => QuietStep(w, e);
    case BackUp(d, job, fullEvery, net, at) =>
      BackUpStep(w, d, job, fullEvery, net, at);
      if !Skips(LocalOf(w, d), job) {
        SentNoConflict(w.tables, job.game, Prepare(LocalOf(w, d), d, job, fullEvery, at), g);
      }
  }

  lemma SentNoConflict(t: Tables, k: GameId, c: CreateVersion, g: GameId)
    requires TablesOk(t) && (Answers(t, k, c, Reached) ==> t.heads[k] == c.parent)
    ensures NoConflict(t, Send(t, k, c, Reached).0, g)
  {
    FreshId(t);
  }

  lemma {:induction false} ReachingRunIsLinear(w: World, es: seq<Event>, most: nat, g: GameId)
    requires TablesOk(w.tables) && PlainRun(w, es, most) && forall e :: e in es ==> Reaches(e)
    ensures PlainLinearRun(w, es, g, most)
    decreases |es|
  {
    if es != [] {
      ReachingRunIsLinear(w, es[..|es| - 1], most, g);
      ReachedNoConflict(RunAll(w, es[..|es| - 1]), es[|es| - 1], most, g);
    }
  }

  /** A pass that retains fewer differentials per full than the head's chain holds. */
  lemma PassStrands(t: Tables, g: GameId, h: VersionId, n: nat, ret: Retention) returns (v: VersionId)
    requires TablesOk(t) && RowsOk(t) && Linear.Linear(t, g) && g in t.heads && t.heads[g] == Some(h)
    requires ChainIn(t, h).Some? && |ChainIn(t, h).value| == n + 1 && ret.full >= 1
    requires ret.diffPerFull < n && (ret.diffPerFull == 0 ==> n >= 2)
    ensures var u := Prune(t, g, ret);
      TablesOk(u) && v in u.versions && ChainIn(t, v).Some? && ChainIn(u, v) == None
  {
    var line :| LinearAt(t, g, line);
    var rows, losers := Rows(t, g), LosersOf(t, g);
    RowsAcyclic(t, g);
    ShortRetentionStrands(rows, t.heads[g], line, losers, ret, n);
    v :| v in rows && Keep(rows, t.heads[g], losers, ret, v) && !Intact(Chain(rows, v), DeadIn(t, g, ret));
    SurvivorStranded(t, g, ret, v);
  }

  lemma SurvivorStranded(t: Tables, g: GameId, ret: Retention, v: VersionId)
    requires TablesOk(t) && RowsOk(t) && Linear.Linear(t, g) && g in t.heads && Acyclic(Rows(t, g))
    requires v in Rows(t, g) && v !in DeadIn(t, g, ret) && !Intact(Chain(Rows(t, g), v), DeadIn(t, g, ret))
    ensures var u := Prune(t, g, ret);
      TablesOk(u) && v in u.versions && ChainIn(t, v).Some? && ChainIn(u, v) == None
  {
    LineRestores(t, g, v);
    PruneKeepsTables(t, g, ret);
    RowsAcyclic(Prune(t, g, ret), g);
    RestorableAfterPrune(t, g, ret, v);
  }

  lemma CappedRunFromStart(w: World, job: Job, d: DeviceId, fullEvery: nat) returns (es: seq<Event>)
    requires w == START && job.hasPatterns && !job.hasRegistry
    ensures PlainRun(w, es, fullEvery) && OnHead(RunAll(w, es), d, job.game, fullEvery)
    ensures Inv(RunAll(w, es)) && Linear.Linear(RunAll(w, es).tables, job.game)
  {
    var run, _ := HeadChainGrows(w, job, d, fullEvery, fullEvery);
    es := run;
    forall e | e in es ensures Reaches(e) { if e != es[0] { assert e in es[1..]; } }
    ReachingRunIsLinear(w, es, fullEvery, job.game);
    StartShallow(fullEvery);
    StartLinear(job.game);
    PlainLinearRunFits(w, es, job.game, fullEvery);
    RunKeepsLinear(w, es, job.game, fullEvery);
  }

  /** `FullEveryWithinRetention` needs its bound: for every retention of fewer differentials
      per full than `full_every`, some conflict-free run of one device followed by one
      pass leaves a version without a chain that had one before. */
  lemma RetentionBelowFullEvery(w: World, job: Job, d: DeviceId, fullEvery: nat, ret: Retention)
    returns (es: seq<Event>, v: VersionId)
    requires w == START && job.hasPatterns && !job.hasRegistry && ret.full >= 1
    requires ret.diffPerFull < fullEvery && (ret.diffPerFull == 0 ==> fullEvery >= 2)
    ensures PlainRun(w, es + [Gc(job.game, ret)], fullEvery)
    ensures var t, u := RunAll(w, es).tables, RunAll(w, es + [Gc(job.game, ret)]).tables;
      v in u.versions && ChainIn(t, v).Some? && ChainIn(u, v) == None
  {
    var g := job.game;
    es := CappedRunFromStart(w, job, d, fullEvery);
    var x := RunAll(w, es);
    v := PassStrands(x.tables, g, LocalOf(x, d).snapshots[g].head.value, fullEvery, ret);
    RunSnoc(w, es, Gc(g, ret));
    PlainSnoc(w, es, Gc(g, ret), fullEvery);
    GcStep(x, g, ret);
  }

  // ---- a sequence number handed out twice ----

  /** A parentless full upload of an archive. */
  function FullUpload(a: Archive): CreateVersion {
    CreateVersion(None, Full, a.files, a, a.device)
  }

  /** The first two versions of a game: the head, and a branch that a resolve picked and
      a second resolve dropped again. */
  ghost predicate TwoFulls(t: Tables, g: GameId, a: Archive) {
    && TablesOk(t) && g in t.heads && t.heads[g] == Some(0) && (g, 1) in t.losers && t.nextId == 2
    && t.versions.Keys == {0, 1}
    && t.versions[0] == Version(g, a.device, None, Full, a.files, a, 1)
    && t.versions[1] == Version(g, a.device, None, Full, a.files, a, 2)
    && a in t.blobs && t.blobs[a] == 2
  }

  lemma FirstFull(t: Tables, g: GameId, a: Archive)
    requires TablesOk(t) && t.versions == map[] && t.nextId == 0 && g in t.heads && t.heads[g] == None
    requires a in t.blobs && t.blobs[a] == 0
    ensures var u := Create(t, g, FullUpload(a)).0;
      && TablesOk(u) && u.versions == map[0 := Version(g, a.device, None, Full, a.files, a, 1)]
      && g in u.heads && u.heads[g] == Some(0) && u.nextId == 1 && a in u.blobs && u.blobs[a] == 1
  {
    CreateKeepsTables(t, g, FullUpload(a));
    NoRowsNoSeq(t.versions, g);
  }

  lemma SecondFull(t: Tables, g: GameId, a: Archive)
    requires TablesOk(t) && t.versions == map[0 := Version(g, a.device, None, Full, a.files, a, 1)]
    requires g in t.heads && t.heads[g] == Some(0) && t.nextId == 1 && a in t.blobs && t.blobs[a] == 1
    ensures var u := Create(t, g, FullUpload(a)).0;
      && TablesOk(u) && u.versions == t.versions[1 := Version(g, a.device, None, Full, a.files, a, 2)]
      && u.heads == t.heads && u.nextId == 2 && a in u.blobs && u.blobs[a] == 2
  {
    CreateKeepsTables(t, g, FullUpload(a));
    MaxSeqIs(t.versions, g, 0);
  }

  lemma ResolvedTwice(t: Tables, g: GameId)
    requires TablesOk(t) && g in t.heads && t.heads[g] == Some(0) && 0 in Rows(t, g) && 1 in Rows(t, g)
    ensures var u := Resolve(Resolve(t, g, 1).0, g, 0).0;
      && TablesOk(u) && u.versions == t.versions && u.blobs == t.blobs && u.nextId == t.nextId
      && g in u.heads && u.heads[g] == Some(0) && (g, 1) in u.losers
  {
    ResolveKeeps(t, g, 1);
    ResolveKeeps(Resolve(t, g, 1).0, g, 0);
  }

  lemma TwoFullsResolved(t: Tables, g: GameId, a: Archive)
    requires TablesOk(t) && t.versions == map[] && t.nextId == 0 && g in t.heads && t.heads[g] == None
    requires a in t.blobs && t.blobs[a] == 0
    ensures var two := Create(Create(t, g, FullUpload(a)).0, g, FullUpload(a)).0;
      TwoFulls(Resolve(Resolve(two, g, 1).0, g, 0).0, g, a)
  {
    FirstFull(t, g, a);
    var one := Create(t, g, FullUpload(a)).0;
    SecondFull(one, g, a);
    ResolvedTwice(Create(one, g, FullUpload(a)).0, g);
  }

  lemma BranchDies(t: Tables, g: GameId, a: Archive)
    requires TwoFulls(t, g, a)
    ensures DeadIn(t, g, Retention(0, 0)) == {1}
  {
    var rows, head, ret, losers := Rows(t, g), t.heads[g], Retention(0, 0), LosersOf(t, g);
    RowsOrdered(t, g);
    assert 1 in losers && Newest(rows, 1) && rows.Keys == {0, 1};
    NewestKeptIff(rows, head, losers, ret, 1);
    assert Keep(rows, head, losers, ret, 0) by { assert Protected(rows, head, losers, 0); }
  }

  lemma BranchPruned(t: Tables, g: GameId, a: Archive)
    requires TwoFulls(t, g, a)
    ensures var u := Prune(t, g, Retention(0, 0));
      && u.versions == map[0 := t.versions[0]] && u.heads == t.heads && u.nextId == 2 && a in u.blobs
  {
    BranchDies(t, g, a);
    assert Lost(t.versions, {1}, a) == {1};
  }

  /** A pass that retains no full drops the branch, and the next upload gets its number. */
  lemma NumberAgain(t: Tables, g: GameId, a: Archive)
    requires TwoFulls(t, g, a)
    ensures var u := Create(Prune(t, g, Retention(0, 0)), g, FullUpload(a)).0;
      && u.versions.Keys == {0, 2} && u.versions[0] == t.versions[0]
      && u.versions[2].game == g && u.versions[2].seqNo == 2
  {
    BranchPruned(t, g, a);
    UploadOnOne(Prune(t, g, Retention(0, 0)), g, a);
  }

  lemma UploadOnOne(t: Tables, g: GameId, a: Archive)
    requires t.versions.Keys == {0} && t.versions[0].game == g && t.versions[0].seqNo == 1
    requires t.nextId == 2 && g in t.heads && a in t.blobs
    ensures var u := Create(t, g, FullUpload(a)).0;
      && u.versions.Keys == {0, 2} && u.versions[0] == t.versions[0]
      && u.versions[2].game == g && u.versions[2].seqNo == 2
  {
    MaxSeqIs(t.versions, g, 0);
  }

  lemma ServePair(t: Tables, a: Request, b: Request)
    requires TablesOk(t)
    ensures ServeAll(t, [a, b]) == Serve(Serve(t, a), b)
  {
    var none: seq<Request> := [];
    assert none + [a] == [a] && [a] + [b] == [a, b];
    ServeSnoc(t, none, a);
    ServeSnoc(t, [a], b);
  }

  lemma ServeSnoc(t: Tables, front: seq<Request>, r: Request)
    requires TablesOk(t)
    ensures ServeAll(t, front + [r]) == Serve(ServeAll(t, front), r)
  {
    assert (front + [r])[..|front|] == front;
  }

  lemma {:induction false} ServeAppend(t: Tables, a: seq<Request>, b: seq<Request>)
    requires TablesOk(t)
    ensures ServeAll(t, a + b) == ServeAll(ServeAll(t, a), b)
    decreases |b|
  {
    if b == [] {
      assert a + b == a;
    } else {
      assert (a + b)[..|a + b| - 1] == a + b[..|b| - 1];
      ServeAppend(t, a, b[..|b| - 1]);
    }
  }

  lemma GameOpened(t: Tables, g: GameId, a: Archive)
    requires TablesOk(t)
    ensures ServeAll(t, [Request.Register(g), PutArchive(a)]) == PutBlob(EnsureGame(t, g), a)
  {
    ServePair(t, Request.Register(g), PutArchive(a));
  }

  lemma UploadedTwice(t: Tables, g: GameId, c: CreateVersion)
    requires TablesOk(t)
    ensures ServeAll(t, [Upload(g, c), Upload(g, c)]) == Create(Create(t, g, c).0, g, c).0
  {
    ServePair(t, Upload(g, c), Upload(g, c));
  }

  lemma DecideServes(t: Tables, g: GameId, v: VersionId)
    requires TablesOk(t)
    ensures Serve(t, Decide(g, v)) == Resolve(t, g, v).0
  {
  }

  lemma DecidedTwice(t: Tables, g: GameId, v: VersionId, w: VersionId)
    requires TablesOk(t)
    ensures TablesOk(Resolve(t, g, v).0)
    ensures ServeAll(t, [Decide(g, v), Decide(g, w)]) == Resolve(Resolve(t, g, v).0, g, w).0
  {
    var a, b := Decide(g, v), Decide(g, w);
    ResolveKeeps(t, g, v);
    DecideServes(t, g, v);
    DecideServes(Resolve(t, g, v).0, g, w);
    ServePair(t, a, b);
  }

  lemma TwoFullsReached(t: Tables, g: GameId, a: Archive) returns (rs: seq<Request>)
    requires TablesOk(t) && t.versions == map[] && t.nextId == 0 && g !in t.heads && a !in t.blobs
    ensures TwoFulls(ServeAll(t, rs), g, a)
  {
    var setup := [Request.Register(g), PutArchive(a)];
    var uploads := [Upload(g, FullUpload(a)), Upload(g, FullUpload(a))];
    var decisions := [Decide(g, 1), Decide(g, 0)];
    var u := PutBlob(EnsureGame(t, g), a);
    GameOpened(t, g, a);
    UploadedTwice(u, g, FullUpload(a));
    var two := ServeAll(u, uploads);
    DecidedTwice(two, g, 1, 0);
    ServeAppend(t, setup, uploads);
    ServeAppend(t, setup + uploads, decisions);
    rs := setup + uploads + decisions;
    TwoFullsResolved(u, g, a);
  }

  lemma UploadServes(t: Tables, g: GameId, c: CreateVersion)
    requires TablesOk(t)
    ensures Serve(t, Upload(g, c)) == Create(t, g, c).0
  {
  }

  lemma CollectServes(t: Tables, g: GameId, ret: Retention)
    requires TablesOk(t)
    ensures Serve(t, Collect(g, ret)) == Prune(t, g, ret) && TablesOk(Prune(t, g, ret))
  {
    PruneKeepsTables(t, g, ret);
  }

  lemma CollectThenUpload(t: Tables, g: GameId, ret: Retention, c: CreateVersion)
    requires TablesOk(t)
    ensures ServeAll(t, [Collect(g, ret), Upload(g, c)]) == Create(Prune(t, g, ret), g, c).0
  {
    var a, b := Collect(g, ret), Upload(g, c);
    ServePair(t, a, b);
    CollectServes(t, g, ret);
    UploadServes(Prune(t, g, ret), g, c);
  }

  lemma PassAndUpload(t: Tables, g: GameId, a: Archive) returns (rs: seq<Request>)
    requires TwoFulls(t, g, a)
    ensures var u := ServeAll(t, rs);
      && 2 !in t.versions && u.versions.Keys == {0, 2} && u.versions[0] == t.versions[0]
      && u.versions[2].game == g && u.versions[2].seqNo == t.versions[1].seqNo
  {
    var ret, c := Retention(0, 0), FullUpload(a);
    NumberAgain(t, g, a);
    var u := Create(Prune(t, g, ret), g, c).0;
    rs := [Collect(g, ret), Upload(g, c)];
    assert ServeAll(t, rs) == u by { CollectThenUpload(t, g, ret, c); }
  }

  /** From an empty server: two fulls, two resolves, a pass that retains no full, and one
      more upload gives a new version the number another version had. */
  lemma SeqHandedOutTwice(t: Tables, g: GameId, a: Archive)
    returns (before: seq<Request>, after: seq<Request>, v: VersionId, w: VersionId)
    requires TablesOk(t) && t.versions == map[] && t.nextId == 0 && g !in t.heads && a !in t.blobs
    ensures var early, late := ServeAll(t, before), ServeAll(ServeAll(t, before), after);
      && v != w && v in early.versions && w in late.versions && w !in early.versions
      && early.versions[v].game == g && late.versions[w].game == g
      && early.versions[v].seqNo == late.versions[w].seqNo
  {
    before := TwoFullsReached(t, g, a);
    after := PassAndUpload(ServeAll(t, before), g, a);
    v, w := 1, 2;
  }

  // ---- a version no hello replays ----

  lemma GoSnoc(s: Session, front: seq<Happening>, e: Happening)
    requires TablesOk(s.tables)
    ensures GoAll(s, front + [e]) == Go(GoAll(s, front), e)
    ensures HonestRun(s, front + [e]) <==> HonestRun(s, front) && Honest(GoAll(s, front), e)
  {
    assert (front + [e])[..|front|] == front;
  }

  /** The server serves `rs` while the client stays away. */
  lemma {:induction false} ServeOn(s: Session, es: seq<Happening>, rs: seq<Request>) returns (more: seq<Happening>)
    requires TablesOk(s.tables) && HonestRun(s, es)
    ensures HonestRun(s, more) && GoAll(s, more) == GoAll(s, es).(tables := ServeAll(GoAll(s, es).tables, rs))
    decreases |rs|
  {
    if rs == [] {
      more := es;
    } else {
      var r := rs[|rs| - 1];
      more := ServeOn(s, es, rs[..|rs| - 1]);
      GoSnoc(s, more, Served(r));
      more := more + [Served(r)];
    }
  }

  lemma SayHello(s: Session, es: seq<Happening>, out: seq<Notice>) returns (more: seq<Happening>)
    requires TablesOk(s.tables) && HonestRun(s, es)
    requires IsReplay(GoAll(s, es).tables.versions, GoAll(s, es).last, out)
    ensures HonestRun(s, more) && more != [] && more[|more| - 1] == Hello(out)
    ensures GoAll(s, more) == Go(GoAll(s, es), Hello(out))
  {
    GoSnoc(s, es, Hello(out));
    more := es + [Hello(out)];
  }

  lemma TwoNotices(t: Tables, g: GameId, a: Archive)
    requires TwoFulls(t, g, a)
    ensures var out := [Notice(g, 0, 1), Notice(g, 1, 2)];
      IsReplay(t.versions, map[], out) && Absorb(map[], out) == map[g := 2]
  {
    var first := [Notice(g, 0, 1)];
    var out := first + [Notice(g, 1, 2)];
    assert first[..0] == [] && out[..1] == first;
    assert Absorb(map[], first) == map[g := 1];
    forall n ensures n in out <==> IsMissed(t.versions, map[], n) {
      if IsMissed(t.versions, map[], n) { assert n == out[n.id]; }
    }
  }

  /** The client was told of both fulls. */
  ghost predicate KnowsBoth(s: Session, g: GameId, a: Archive) {
    TwoFulls(s.tables, g, a) && s.last == map[g := 2] && s.got == [Notice(g, 0, 1), Notice(g, 1, 2)]
  }

  lemma BothTold(s: Session, es: seq<Happening>, g: GameId, a: Archive) returns (told: seq<Happening>)
    requires TablesOk(s.tables) && HonestRun(s, es) && TwoFulls(GoAll(s, es).tables, g, a)
    requires GoAll(s, es).last == map[] && GoAll(s, es).got == []
    ensures HonestRun(s, told) && KnowsBoth(GoAll(s, told), g, a)
  {
    TwoNotices(GoAll(s, es).tables, g, a);
    told := SayHello(s, es, [Notice(g, 0, 1), Notice(g, 1, 2)]);
  }

  lemma AllCovered(versions: Versions, g: GameId)
    requires versions.Keys == {0, 2} && versions[0].game == versions[2].game == g
    requires versions[0].seqNo == 1 && versions[2].seqNo == 2
    ensures IsReplay(versions, map[g := 2], [])
  {
  }

  lemma MissedAfter(s: Session, told: seq<Happening>, g: GameId, a: Archive) returns (es: seq<Happening>, w: VersionId)
    requires TablesOk(s.tables) && HonestRun(s, told) && KnowsBoth(GoAll(s, told), g, a)
    ensures var u := GoAll(s, es);
      && HonestRun(s, es) && es != [] && es[|es| - 1].Hello?
      && w in u.tables.versions && NoticeOf(u.tables.versions, w) !in u.got
  {
    var after := PassAndUpload(GoAll(s, told).tables, g, a);
    var late := ServeOn(s, told, after);
    AllCovered(GoAll(s, late).tables.versions, g);
    es := SayHello(s, late, []);
    w := 2;
  }

  /** From an empty server: a client that was told of a version whose number is handed
      out again is never told of the version that got it, though it says hello again. */
  lemma ReusedNumberIsMissed(t: Tables, g: GameId, a: Archive) returns (es: seq<Happening>, w: VersionId)
    requires TablesOk(t) && t.versions == map[] && t.nextId == 0 && g !in t.heads && a !in t.blobs
    ensures var s := Session(t, map[], []);
      var u := GoAll(s, es);
      && HonestRun(s, es) && es != [] && es[|es| - 1].Hello?
      && w in u.tables.versions && NoticeOf(u.tables.versions, w) !in u.got
  {
    var s := Session(t, map[], []);
    var before := TwoFullsReached(t, g, a);
    var early := ServeOn(s, [], before);
    var told := BothTold(s, early, g, a);
    es, w := MissedAfter(s, told, g, a);
  }
}

/** One device's writes step by step, with crashes: backups and outbox drains of any
    number interleave, and no byte a finished backup read is ever lost
    (crates/savr-daemon/src/backup.rs). */
module Durability {
  import opened Types
  import opened ServerTables
  import opened Chains
  import opened Snapshots
  import opened Backup
  import opened World
  import opened Lineage

  /** How far a backup task has come; the create it packed goes with it. */
  datatype Task =
    | Packed(create: CreateVersion, prior: nat)
    | Answered(create: CreateVersion, id: VersionId, advanced: bool, prior: nat)
    | BaseMoved(create: CreateVersion, advanced: bool, prior: nat)
    | Confirmed(create: CreateVersion, advanced: bool, prior: nat)
    | Enqueued(create: CreateVersion)
    | QueueBaseMoved(create: CreateVersion)
    | Done(read: Hashes)

  /** A drain of one outbox entry: fetched, uploaded, head set. */
  datatype Draining =
    | Fetched(key: nat, create: CreateVersion)
    | Sent(key: nat, create: CreateVersion, id: VersionId)
    | HeadSet(key: nat, create: CreateVersion, id: VersionId)

  datatype Machine = Machine(local: Local, tables: Tables, tasks: map<nat, Task>, drains: map<nat, Draining>)

  datatype MicroStep =
    | Begin(task: nat, device: DeviceId, job: Job, fullEvery: nat, at: nat)
    | Proceed(task: nat, net: Net, at: nat)
    | Fetch(drain: nat, key: nat)
    | ProceedDrain(drain: nat, net: Net, now: int)
    | Elsewhere(game: GameId, create: CreateVersion, net: Net)
    | Register(game: GameId)
    | Crash

  function GameOf(c: CreateVersion): GameId {
    c.blob.game
  }

  /** What a packed task does with the server's answer. */
  function Asked(
    m: Machine, task: nat, c: CreateVersion, prior: nat, u: Tables, reply: Option<Outcome>, at: nat): Machine
  {
    match reply
    case Some(FastForward(id)) => m.(tables := u, tasks := m.tasks[task := Answered(c, id, true, prior)])
    case Some(Conflict(_, id)) => m.(tables := u, tasks := m.tasks[task := Answered(c, id, false, prior)])
    case _ => m.(tables := u, local := Enqueue(m.local, GameOf(c), c, at), tasks := m.tasks[task := Enqueued(c)])
  }

  /** The local write a settled task makes next. */
  function Wrote(l: Local, x: Task): Local {
    match x
    case Answered(c, id, advanced, prior) => PutSnapshot(l, GameOf(c), c.files, Some(id))
    case BaseMoved(c, advanced, prior) => SetUnconfirmed(l, GameOf(c), false)
    case Confirmed(c, advanced, prior) =>
      if advanced then SetDiffCount(l, GameOf(c), NextDiffCount(c.kind, prior)) else l
    case Enqueued(c) => PutSnapshot(l, GameOf(c), c.files, c.parent)
    case QueueBaseMoved(c) => SetUnconfirmed(l, GameOf(c), true)
    case _ => l
  }

  /** Where it stands after that write. */
  ghost function Next(x: Task): Task {
    match x
    case Answered(c, id, advanced, prior) => BaseMoved(c, advanced, prior)
    case BaseMoved(c, advanced, prior) => Confirmed(c, advanced, prior)
    case Confirmed(c, advanced, prior) => Done(HashesOf(c.files))
    case Enqueued(c) => QueueBaseMoved(c)
    case QueueBaseMoved(c) => Done(HashesOf(c.files))
    case _ => x
  }

  /** One write of one task. */
  ghost function ProceedTask(m: Machine, task: nat, net: Net, at: nat): Machine
    requires task in m.tasks
  {
    var x := m.tasks[task];
    match x
    case Packed(c, prior) =>
      var (u, reply) := Send(m.tables, GameOf(c), c, net);
      Asked(m, task, c, prior, u, reply, at)
    case _ => m.(local := Wrote(m.local, x), tasks := m.tasks[task := Next(x)])
  }

  /** A failed try, if the entry is still there. */
  function Postponed(l: Local, key: nat, now: int): Local {
    if key in l.outbox then BumpAttempt(l, key, now + BackoffDelay(l.outbox[key].attempts)) else l
  }

  function ProceedDraining(m: Machine, drain: nat, net: Net, now: int): Machine
    requires drain in m.drains
  {
    var x := m.drains[drain];
    match x
    case Fetched(key, c) =>
      var (u, reply) := Send(m.tables, GameOf(c), c, net);
      if reply.Some? then m.(tables := u, drains := m.drains[drain := Sent(key, c, ReplyId(reply))])
      else m.(tables := u, drains := m.drains - {drain}, local := Postponed(m.local, key, now))
    case Sent(key, c, id) =>
      m.(local := SetLocalHead(m.local, GameOf(c), id), drains := m.drains[drain := HeadSet(key, c, id)])
    case HeadSet(key, c, id) =>
      m.(local := RemoveOutbox(m.local, key), drains := m.drains - {drain})
  }

  ghost function Micro(m: Machine, s: MicroStep): Machine {
    match s
    case Begin(task, device, job, fullEvery, at) =>
      if task in m.tasks || !job.hasPatterns then m
      else if Skips(m.local, job) then m.(tasks := m.tasks[task := Done(HashesOf(JobFiles(job)))])
      else
        var packed := Packed(Prepare(m.local, device, job, fullEvery, at), PriorDiffs(m.local, job.game));
        m.(tasks := m.tasks[task := packed])
    case Proceed(task, net, at) => if task in m.tasks then ProceedTask(m, task, net, at) else m
    case Fetch(drain, key) =>
      if drain in m.drains || key !in m.local.outbox then m
      else m.(drains := m.drains[drain := Fetched(key, m.local.outbox[key].create)])
    case ProceedDrain(drain, net, now) => if drain in m.drains then ProceedDraining(m, drain, net, now) else m
    case Elsewhere(g, c, net) => m.(tables := Send(m.tables, g, c, net).0)
    case Register(g) => m.(tables := EnsureGame(m.tables, g))
    case Crash => m.(tasks := map[], drains := map[])
  }

  ghost function MicroAll(m: Machine, ss: seq<MicroStep>): Machine
    decreases |ss|
  {
    if ss == [] then m else Micro(MicroAll(m, ss[..|ss| - 1]), ss[|ss| - 1])
  }

  // ---- durability ----

  ghost predicate OnServer(t: Tables, h: Hashes) {
    exists v :: v in t.versions && HashesOf(t.versions[v].files) == h
  }

  ghost predicate InOutbox(l: Local, h: Hashes) {
    exists k :: k in l.outbox && HashesOf(l.outbox[k].create.files) == h
  }

  predicate InArchive(a: Archive, p: Path, h: Hash) {
    p in a.payload && Blake3(a.payload[p]) == h
  }

  ghost predicate ServerKeeps(t: Tables, p: Path, h: Hash) {
    exists v :: v in t.versions && t.versions[v].blob in t.blobs && InArchive(t.versions[v].blob, p, h)
  }

  ghost predicate OutboxKeeps(l: Local, p: Path, h: Hash) {
    exists k :: k in l.outbox && InArchive(l.outbox[k].create.blob, p, h)
  }

  /** These very bytes are in the payload, at this path, of a stored version's blob or
      of a queued archive. */
  ghost predicate KeptAt(m: Machine, p: Path, h: Hash) {
    ServerKeeps(m.tables, p, h) || OutboxKeeps(m.local, p, h)
  }

  ghost predicate Kept(m: Machine, h: Hashes) {
    forall p :: p in h ==> KeptAt(m, p, h[p])
  }

  /** Listed as a whole by one version or queued upload, and every file's bytes kept. */
  ghost predicate Durable(m: Machine, h: Hashes) {
    (OnServer(m.tables, h) || InOutbox(m.local, h)) && Kept(m, h)
  }

  /** What an upload does not carry itself is kept already. */
  ghost predicate Covered(m: Machine, c: CreateVersion) {
    forall p :: p in c.files ==> InArchive(c.blob, p, c.files[p].hash) || KeptAt(m, p, c.files[p].hash)
  }

  ghost predicate PackedCovered(m: Machine) {
    forall k :: k in m.tasks && m.tasks[k].Packed? ==> Covered(m, m.tasks[k].create)
  }

  ghost predicate BasesHeld(m: Machine) {
    forall g :: g in m.local.snapshots ==> Durable(m, HashesOf(m.local.snapshots[g].files))
  }

  /** What a task relies on: once past packing its files are held. */
  ghost function Secured(x: Task): Option<Hashes> {
    match x
    case Packed(_, _) => None
    case Done(h) => Some(h)
    case _ => Some(HashesOf(x.create.files))
  }

  ghost predicate TasksHeld(m: Machine) {
    forall k :: k in m.tasks && Secured(m.tasks[k]).Some? ==> Durable(m, Secured(m.tasks[k]).value)
  }

  /** Version `v` is the upload `c`, stored with its archive. */
  predicate StoredAs(t: Tables, v: VersionId, c: CreateVersion) {
    v in t.versions && t.versions[v].files == c.files && t.versions[v].blob == c.blob
  }

  ghost predicate OnServerAs(t: Tables, c: CreateVersion) {
    exists v :: StoredAs(t, v, c)
  }

  ghost predicate DrainOk(m: Machine, x: Draining) {
    && x.key < m.local.nextKey
    && (x.key in m.local.outbox ==> m.local.outbox[x.key].create == x.create)
    && (!x.Fetched? ==> StoredAs(m.tables, x.id, x.create))
  }

  ghost predicate DrainsOk(m: Machine) {
    && (forall k :: k in m.local.outbox ==> k < m.local.nextKey)
    && (forall d :: d in m.drains ==> DrainOk(m, m.drains[d]))
  }

  ghost predicate Held(m: Machine) {
    && TablesOk(m.tables) && Conserved(m.tables)
    && BasesHeld(m) && TasksHeld(m) && PackedCovered(m) && DrainsOk(m)
  }

  lemma SendKeepsVersions(t: Tables, g: GameId, c: CreateVersion, net: Net)
    requires TablesOk(t)
    ensures TablesOk(Send(t, g, c, net).0) && Grows(t, Send(t, g, c, net).0)
    ensures Conserved(t) ==> Conserved(Send(t, g, c, net).0)
  {
    SendKeeps(t, g, c, net);
    FreshId(t);
  }

  lemma OnServerGrows(t: Tables, u: Tables, h: Hashes)
    requires Grows(t, u) && OnServer(t, h)
    ensures OnServer(u, h)
  {
    var v :| v in t.versions && HashesOf(t.versions[v].files) == h;
    assert v in u.versions;
  }

  /** The outbox of `n` holds all of `m`'s entries, except ones now on the server. */
  ghost predicate OutboxCarries(m: Machine, n: Machine) {
    forall k :: k in m.local.outbox ==>
      || (k in n.local.outbox && n.local.outbox[k].create == m.local.outbox[k].create)
      || OnServerAs(n.tables, m.local.outbox[k].create)
  }

  /** Entries keep their upload; new ones get keys never used before. */
  ghost predicate KeysAdvance(m: Machine, n: Machine) {
    && m.local.nextKey <= n.local.nextKey
    && forall k :: k in n.local.outbox ==>
         && k < n.local.nextKey
         && (k >= m.local.nextKey || (k in m.local.outbox && n.local.outbox[k].create == m.local.outbox[k].create))
  }

  ghost predicate BasesFrom(m: Machine, n: Machine) {
    forall g :: g in n.local.snapshots ==>
      || (g in m.local.snapshots && n.local.snapshots[g].files == m.local.snapshots[g].files)
      || Durable(m, HashesOf(n.local.snapshots[g].files))
  }

  ghost predicate TasksFrom(m: Machine, n: Machine) {
    forall k :: k in n.tasks && Secured(n.tasks[k]).Some? ==>
      (k in m.tasks && Secured(n.tasks[k]) == Secured(m.tasks[k])) || Durable(n, Secured(n.tasks[k]).value)
  }

  ghost predicate PackedFrom(m: Machine, n: Machine) {
    forall k :: k in n.tasks && n.tasks[k].Packed? ==>
      (k in m.tasks && n.tasks[k] == m.tasks[k]) || Covered(m, n.tasks[k].create)
  }

  ghost predicate DrainsFrom(m: Machine, n: Machine) {
    forall d :: d in n.drains ==> (d in m.drains && n.drains[d] == m.drains[d]) || DrainOk(n, n.drains[d])
  }

  /** All that a micro-step may do. */
  ghost predicate Effect(m: Machine, n: Machine) {
    && TablesOk(n.tables) && Conserved(n.tables) && Grows(m.tables, n.tables)
    && OutboxCarries(m, n) && KeysAdvance(m, n)
    && BasesFrom(m, n) && TasksFrom(m, n) && PackedFrom(m, n) && DrainsFrom(m, n)
  }

  /** What is kept stays kept: a queued archive leaves only once a version has it. */
  lemma KeptCarries(m: Machine, n: Machine, p: Path, h: Hash)
    requires Conserved(n.tables) && Grows(m.tables, n.tables) && OutboxCarries(m, n) && KeptAt(m, p, h)
    ensures KeptAt(n, p, h)
  {
    if v :| v in m.tables.versions && m.tables.versions[v].blob in m.tables.blobs
            && InArchive(m.tables.versions[v].blob, p, h) {
      assert v in n.tables.versions && n.tables.versions[v] == m.tables.versions[v];
      assert ServerKeeps(n.tables, p, h);
    } else {
      var k :| k in m.local.outbox && InArchive(m.local.outbox[k].create.blob, p, h);
      if v :| StoredAs(n.tables, v, m.local.outbox[k].create) {
        assert ServerKeeps(n.tables, p, h);
      } else {
        assert OutboxKeeps(n.local, p, h);
      }
    }
  }

  lemma ListedCarries(m: Machine, n: Machine, h: Hashes)
    requires Grows(m.tables, n.tables) && OutboxCarries(m, n) && (OnServer(m.tables, h) || InOutbox(m.local, h))
    ensures OnServer(n.tables, h) || InOutbox(n.local, h)
  {
    if OnServer(m.tables, h) {
      OnServerGrows(m.tables, n.tables, h);
    } else {
      var k :| k in m.local.outbox && HashesOf(m.local.outbox[k].create.files) == h;
      if k in n.local.outbox && n.local.outbox[k].create == m.local.outbox[k].create { assert InOutbox(n.local, h); }
    }
  }

  lemma DurableCarries(m: Machine, n: Machine, h: Hashes)
    requires Conserved(n.tables) && Grows(m.tables, n.tables) && OutboxCarries(m, n) && Durable(m, h)
    ensures Durable(n, h)
  {
    ListedCarries(m, n, h);
    forall p | p in h ensures KeptAt(n, p, h[p]) { KeptCarries(m, n, p, h[p]); }
  }

  lemma CoveredCarries(m: Machine, n: Machine, c: CreateVersion)
    requires Conserved(n.tables) && Grows(m.tables, n.tables) && OutboxCarries(m, n) && Covered(m, c)
    ensures Covered(n, c)
  {
    forall p | p in c.files && !InArchive(c.blob, p, c.files[p].hash) ensures KeptAt(n, p, c.files[p].hash) {
      KeptCarries(m, n, p, c.files[p].hash);
    }
  }

  lemma EffectKeepsHeld(m: Machine, n: Machine)
    requires Held(m) && Effect(m, n)
    ensures Held(n)
  {
    forall g | g in n.local.snapshots ensures Durable(n, HashesOf(n.local.snapshots[g].files)) {
      DurableCarries(m, n, HashesOf(n.local.snapshots[g].files));
    }
    EffectKeepsTasks(m, n);
    forall d | d in n.drains ensures DrainOk(n, n.drains[d]) {
      if d in m.drains && n.drains[d] == m.drains[d] { assert DrainOk(m, m.drains[d]); }
    }
  }

  lemma EffectKeepsTasks(m: Machine, n: Machine)
    requires TasksHeld(m) && PackedCovered(m) && Effect(m, n)
    ensures TasksHeld(n) && PackedCovered(n)
  {
    forall k | k in n.tasks && Secured(n.tasks[k]).Some? ensures Durable(n, Secured(n.tasks[k]).value) {
      if k in m.tasks && Secured(n.tasks[k]) == Secured(m.tasks[k]) { DurableCarries(m, n, Secured(m.tasks[k]).value); }
    }
    forall k | k in n.tasks && n.tasks[k].Packed? ensures Covered(n, n.tasks[k].create) {
      CoveredCarries(m, n, n.tasks[k].create);
    }
  }

  // ---- each kind of micro-step ----

  /** Only tasks, drains or bases change: the server and the outbox stay. */
  lemma LocalEffect(m: Machine, n: Machine)
    requires Held(m) && n.tables == m.tables && n.local.outbox == m.local.outbox && n.local.nextKey == m.local.nextKey
    requires BasesFrom(m, n) && TasksFrom(m, n) && PackedFrom(m, n) && DrainsFrom(m, n)
    ensures Effect(m, n)
  {
  }

  lemma NewTaskEffect(m: Machine, task: nat, x: Task)
    requires Held(m) && (Secured(x).Some? ==> Durable(m, Secured(x).value)) && (x.Packed? ==> Covered(m, x.create))
    ensures Effect(m, m.(tasks := m.tasks[task := x]))
  {
    var n := m.(tasks := m.tasks[task := x]);
    if Secured(x).Some? { assert Durable(n, Secured(x).value); }
    LocalEffect(m, n);
  }

  /** A skipped backup read what the base already holds. */
  lemma SkippedIsDurable(m: Machine, job: Job)
    requires Held(m) && job.hasPatterns && Skips(m.local, job)
    ensures Durable(m, HashesOf(JobFiles(job)))
  {
    SkipMeansSame(m.local, job);
    assert job.game in m.local.snapshots;
  }

  /** What an archive leaves out, the base has. */
  predicate CoversBut(a: Archive, base: FileSet, files: FileSet) {
    forall p :: p in files ==> InArchive(a, p, files[p].hash) || (p in base && base[p].hash == files[p].hash)
  }

  lemma PayloadCovers(base: FileSet, files: FileSet, contents: Contents, a: Archive)
    requires HashContents(contents) == HashesOf(files)
    requires forall p :: p in a.payload ==> p in contents && a.payload[p] == contents[p]
    requires Changed(base, files) <= a.payload.Keys
    ensures CoversBut(a, base, files)
  {
    forall p | p in files && p in a.payload ensures InArchive(a, p, files[p].hash) {
      assert HashContents(contents)[p] == HashesOf(files)[p];
    }
  }

  lemma PreparedCoversBut(l: Local, device: DeviceId, job: Job, fullEvery: nat, at: nat)
    ensures var c := Prepare(l, device, job, fullEvery, at); CoversBut(c.blob, BaseFiles(l, job.game), c.files)
  {
    var c := Prepare(l, device, job, fullEvery, at);
    PrepareComplete(l, device, job, fullEvery, at);
    if c.kind == Full {
      assert c.blob.payload.Keys == HashContents(c.blob.payload).Keys == HashesOf(c.files).Keys == c.files.Keys;
    }
    PayloadCovers(BaseFiles(l, job.game), c.files, ContentsOf(Captured(job)), c.blob);
  }

  /** What a differential leaves out is the base's, and the base is kept. */
  lemma PreparedIsCovered(m: Machine, device: DeviceId, job: Job, fullEvery: nat, at: nat)
    requires Held(m)
    ensures Covered(m, Prepare(m.local, device, job, fullEvery, at))
  {
    var base, c := BaseFiles(m.local, job.game), Prepare(m.local, device, job, fullEvery, at);
    PreparedCoversBut(m.local, device, job, fullEvery, at);
    BaseIsKept(m, job.game);
    CoveredByBase(m, base, c);
  }

  lemma BaseIsKept(m: Machine, g: GameId)
    requires Held(m)
    ensures Kept(m, HashesOf(BaseFiles(m.local, g)))
  {
    if g in m.local.snapshots { assert Durable(m, HashesOf(m.local.snapshots[g].files)); }
  }

  lemma CoveredByBase(m: Machine, base: FileSet, c: CreateVersion)
    requires Kept(m, HashesOf(base)) && CoversBut(c.blob, base, c.files)
    ensures Covered(m, c)
  {
    forall p | p in c.files && !InArchive(c.blob, p, c.files[p].hash) ensures KeptAt(m, p, c.files[p].hash) {
      assert KeptAt(m, p, HashesOf(base)[p]);
    }
  }

  /** Doing nothing is a step. */
  lemma IdleEffect(m: Machine)
    requires Held(m)
    ensures Effect(m, m)
  {
    LocalEffect(m, m);
  }

  lemma SkipEffect(m: Machine, task: nat, job: Job)
    requires Held(m) && job.hasPatterns && Skips(m.local, job)
    ensures Effect(m, m.(tasks := m.tasks[task := Done(HashesOf(JobFiles(job)))]))
  {
    SkippedIsDurable(m, job);
    NewTaskEffect(m, task, Done(HashesOf(JobFiles(job))));
  }

  lemma PackEffect(m: Machine, task: nat, device: DeviceId, job: Job, fullEvery: nat, at: nat)
    requires Held(m)
    ensures var c := Prepare(m.local, device, job, fullEvery, at);
      Effect(m, m.(tasks := m.tasks[task := Packed(c, PriorDiffs(m.local, job.game))]))
  {
    PreparedIsCovered(m, device, job, fullEvery, at);
    NewTaskEffect(m, task, Packed(Prepare(m.local, device, job, fullEvery, at), PriorDiffs(m.local, job.game)));
  }

  lemma BeginEffect(m: Machine, task: nat, device: DeviceId, job: Job, fullEvery: nat, at: nat)
    requires Held(m)
    ensures Effect(m, Micro(m, Begin(task, device, job, fullEvery, at)))
  {
    if task in m.tasks || !job.hasPatterns {
      IdleEffect(m);
    } else if Skips(m.local, job) {
      SkipEffect(m, task, job);
    } else {
      PackEffect(m, task, device, job, fullEvery, at);
    }
  }

  /** A packed task asks the server; without an answer it queues. */
  lemma AskEffect(m: Machine, task: nat, net: Net, at: nat)
    requires Held(m) && task in m.tasks && m.tasks[task].Packed?
    ensures Effect(m, ProceedTask(m, task, net, at))
  {
    var c, prior := m.tasks[task].create, m.tasks[task].prior;
    var (u, reply) := Send(m.tables, GameOf(c), c, net);
    assert TablesOk(u) && Conserved(u) && Grows(m.tables, u) by { SendKeepsVersions(m.tables, GameOf(c), c, net); }
    assert StoredIn(u, c, reply) by { ReplyStored(m.tables, GameOf(c), c, net); }
    AskedEffect(m, task, c, prior, u, reply, at);
  }

  predicate StoredIn(u: Tables, c: CreateVersion, reply: Option<Outcome>) {
    reply.Some? ==>
      !reply.value.Rejected? && StoredAs(u, ReplyId(reply), c)
  }

  lemma AskedEffect(m: Machine, task: nat, c: CreateVersion, prior: nat, u: Tables, reply: Option<Outcome>, at: nat)
    requires Held(m) && task in m.tasks && Covered(m, c)
    requires TablesOk(u) && Conserved(u) && Grows(m.tables, u) && StoredIn(u, c, reply)
    ensures Effect(m, Asked(m, task, c, prior, u, reply, at))
  {
    var x := AskedShape(m, task, c, prior, u, reply, at);
    AnsweredEffect(m, task, c, u, reply, at, x);
  }

  lemma AskedShape(m: Machine, task: nat, c: CreateVersion, prior: nat, u: Tables, reply: Option<Outcome>, at: nat)
    returns (x: Task)
    requires reply.Some? ==> !reply.value.Rejected?
    ensures Asked(m, task, c, prior, u, reply, at)
         == Machine(UploadedLocal(m.local, c, reply, at), u, m.tasks[task := x], m.drains)
    ensures Secured(x) == Some(HashesOf(c.files)) && !x.Packed?
  {
    x := Asked(m, task, c, prior, u, reply, at).tasks[task];
  }

  function UploadedLocal(l: Local, c: CreateVersion, reply: Option<Outcome>, at: nat): Local {
    if reply.Some? then l else Enqueue(l, GameOf(c), c, at)
  }

  lemma AnsweredEffect(
    m: Machine, task: nat, c: CreateVersion, u: Tables, reply: Option<Outcome>, at: nat, x: Task)
    requires Held(m) && Covered(m, c)
    requires TablesOk(u) && Conserved(u) && Grows(m.tables, u) && StoredIn(u, c, reply)
    requires Secured(x) == Some(HashesOf(c.files)) && !x.Packed?
    ensures Effect(m, Machine(UploadedLocal(m.local, c, reply, at), u, m.tasks[task := x], m.drains))
  {
    var n := Machine(UploadedLocal(m.local, c, reply, at), u, m.tasks[task := x], m.drains);
    assert OutboxCarries(m, n) by { assert DrainsOk(m); }
    UploadedIsDurable(m, n, c, reply);
    assert DrainsFrom(m, n) by { assert DrainsOk(m); }
  }

  /** Stored or queued, an upload that was covered is durable. */
  lemma UploadedIsDurable(m: Machine, n: Machine, c: CreateVersion, reply: Option<Outcome>)
    requires Covered(m, c) && Conserved(n.tables) && Grows(m.tables, n.tables) && OutboxCarries(m, n)
    requires if reply.Some? then StoredAs(n.tables, ReplyId(reply), c)
             else m.local.nextKey in n.local.outbox && n.local.outbox[m.local.nextKey].create == c
    ensures Durable(n, HashesOf(c.files))
  {
    forall p | p in c.files ensures KeptAt(n, p, c.files[p].hash) {
      if InArchive(c.blob, p, c.files[p].hash) {
        if reply.Some? {
          assert ServerKeeps(n.tables, p, c.files[p].hash);
        } else {
          assert OutboxKeeps(n.local, p, c.files[p].hash);
        }
      } else {
        KeptCarries(m, n, p, c.files[p].hash);
      }
    }
    if reply.Some? {
      assert OnServer(n.tables, HashesOf(c.files));
    } else {
      assert InOutbox(n.local, HashesOf(c.files));
    }
  }

  /** A settled write touches no entry and moves a base only to what the task secured. */
  lemma WroteSecured(l: Local, x: Task)
    requires !x.Packed?
    ensures Wrote(l, x).outbox == l.outbox && Wrote(l, x).nextKey == l.nextKey
    ensures Secured(Next(x)) == Secured(x) && Secured(x).Some? && !Next(x).Packed?
    ensures forall g :: g in Wrote(l, x).snapshots ==>
      || (g in l.snapshots && Wrote(l, x).snapshots[g] == l.snapshots[g])
      || HashesOf(Wrote(l, x).snapshots[g].files) == Secured(x).value
  {
  }

  /** Past the answer a task only writes locally, moving the base to secured files. */
  lemma SettledTaskEffect(m: Machine, task: nat, net: Net, at: nat)
    requires Held(m) && task in m.tasks && !m.tasks[task].Packed?
    ensures Effect(m, ProceedTask(m, task, net, at))
  {
    var x := m.tasks[task];
    WroteSecured(m.local, x);
    SecuredWriteEffect(m, task, Wrote(m.local, x), x, Next(x));
  }

  lemma SecuredWriteEffect(m: Machine, task: nat, l: Local, x: Task, y: Task)
    requires Held(m) && task in m.tasks && m.tasks[task] == x && Secured(x).Some?
    requires Secured(y) == Secured(x) && !y.Packed?
    requires l.outbox == m.local.outbox && l.nextKey == m.local.nextKey
    requires forall g :: g in l.snapshots ==>
      || (g in m.local.snapshots && l.snapshots[g] == m.local.snapshots[g])
      || HashesOf(l.snapshots[g].files) == Secured(x).value
    ensures Effect(m, m.(local := l, tasks := m.tasks[task := y]))
  {
    assert Durable(m, Secured(x).value);
    LocalEffect(m, m.(local := l, tasks := m.tasks[task := y]));
  }

  lemma ProceedEffect(m: Machine, task: nat, net: Net, at: nat)
    requires Held(m) && task in m.tasks
    ensures Effect(m, ProceedTask(m, task, net, at))
  {
    if m.tasks[task].Packed? { AskEffect(m, task, net, at); } else { SettledTaskEffect(m, task, net, at); }
  }

  lemma FetchedEffect(m: Machine, drain: nat, net: Net, now: int)
    requires Held(m) && drain in m.drains && m.drains[drain].Fetched?
    ensures Effect(m, ProceedDraining(m, drain, net, now))
  {
    var x := m.drains[drain];
    var (u, reply) := Send(m.tables, GameOf(x.create), x.create, net);
    SendKeepsVersions(m.tables, GameOf(x.create), x.create, net);
    ReplyStored(m.tables, GameOf(x.create), x.create, net);
    AfterFetchEffect(m, drain, u, reply, now, ProceedDraining(m, drain, net, now));
  }

  lemma AfterFetchEffect(m: Machine, drain: nat, u: Tables, reply: Option<Outcome>, now: int, n: Machine)
    requires Held(m) && drain in m.drains && m.drains[drain].Fetched?
    requires TablesOk(u) && Conserved(u) && Grows(m.tables, u) && StoredIn(u, m.drains[drain].create, reply)
    requires n.tables == u && n.tasks == m.tasks
    requires var x := m.drains[drain];
      if reply.Some? then n.local == m.local && n.drains == m.drains[drain := Sent(x.key, x.create, ReplyId(reply))]
      else n.drains == m.drains - {drain}
           && n.local == Postponed(m.local, x.key, now)
    ensures Effect(m, n)
  {
    assert DrainOk(m, m.drains[drain]);
    assert KeysAdvance(m, n);
  }

  lemma SentEffect(m: Machine, drain: nat, net: Net, now: int)
    requires Held(m) && drain in m.drains && m.drains[drain].Sent?
    ensures Effect(m, ProceedDraining(m, drain, net, now))
  {
    var x := m.drains[drain];
    assert DrainOk(m, x);
    HeadMovesAlone(m.local, GameOf(x.create), x.id);
    HeadMoveEffect(m, drain, SetLocalHead(m.local, GameOf(x.create), x.id), HeadSet(x.key, x.create, x.id));
  }

  lemma HeadMovesAlone(l: Local, g: GameId, id: VersionId)
    ensures var m := SetLocalHead(l, g, id);
      && m.outbox == l.outbox && m.nextKey == l.nextKey && m.snapshots.Keys == l.snapshots.Keys
      && forall k :: k in m.snapshots ==> m.snapshots[k].files == l.snapshots[k].files
  {
  }

  /** Moving a head moves no base. */
  lemma HeadMoveEffect(m: Machine, drain: nat, l: Local, y: Draining)
    requires Held(m) && DrainOk(m, y)
    requires l.outbox == m.local.outbox && l.nextKey == m.local.nextKey && l.snapshots.Keys == m.local.snapshots.Keys
    requires forall g :: g in l.snapshots ==> l.snapshots[g].files == m.local.snapshots[g].files
    ensures Effect(m, m.(local := l, drains := m.drains[drain := y]))
  {
    LocalEffect(m, m.(local := l, drains := m.drains[drain := y]));
  }

  /** Only now does the entry go, its upload being stored with its archive. */
  lemma HeadSetEffect(m: Machine, drain: nat, net: Net, now: int)
    requires Held(m) && drain in m.drains && m.drains[drain].HeadSet?
    ensures Effect(m, ProceedDraining(m, drain, net, now))
  {
    var x, n := m.drains[drain], ProceedDraining(m, drain, net, now);
    assert DrainOk(m, x);
    assert OnServerAs(m.tables, x.create);
    assert OutboxCarries(m, n);
    forall d | d in n.drains ensures DrainOk(n, n.drains[d]) { assert DrainOk(m, m.drains[d]); }
  }

  lemma ProceedDrainEffect(m: Machine, drain: nat, net: Net, now: int)
    requires Held(m) && drain in m.drains
    ensures Effect(m, ProceedDraining(m, drain, net, now))
  {
    match m.drains[drain]
    case Fetched(_, _) => FetchedEffect(m, drain, net, now);
    case Sent(_, _, _) => SentEffect(m, drain, net, now);
    case HeadSet(_, _, _) => HeadSetEffect(m, drain, net, now);
  }

  lemma ElsewhereEffect(m: Machine, g: GameId, c: CreateVersion, net: Net)
    requires Held(m)
    ensures Effect(m, Micro(m, Elsewhere(g, c, net)))
  {
    SendKeepsVersions(m.tables, g, c, net);
    TablesEffect(m, Send(m.tables, g, c, net).0);
  }

  lemma TablesEffect(m: Machine, u: Tables)
    requires Held(m) && TablesOk(u) && Conserved(u) && Grows(m.tables, u)
    ensures Effect(m, m.(tables := u))
  {
    var n := m.(tables := u);
    forall d | d in n.drains ensures DrainOk(n, n.drains[d]) { assert DrainOk(m, m.drains[d]); }
  }

  lemma MicroEffect(m: Machine, s: MicroStep)
    requires Held(m)
    ensures Effect(m, Micro(m, s))
  {
    match s
    case Begin(task, device, job, fullEvery, at) => BeginEffect(m, task, device, job, fullEvery, at);
    case Proceed(task, net, at) => if task in m.tasks { ProceedEffect(m, task, net, at); } else { IdleEffect(m); }
    case Fetch(drain, key) => LocalEffect(m, Micro(m, s));
    case ProceedDrain(drain, net, now) =>
      if drain in m.drains { ProceedDrainEffect(m, drain, net, now); } else { IdleEffect(m); }
    case Elsewhere(g, c, net) => ElsewhereEffect(m, g, c, net);
    case Register(g) =>
      EnsureGameKeeps(m.tables, g);
      TablesEffect(m, EnsureGame(m.tables, g));
    case Crash => LocalEffect(m, Micro(m, s));
  }

  /** In every micro-state, at any crash point, the stored base of every game is durable,
      and so are the files any finished backup of a job with patterns read: one version
      or queued upload lists them, and the bytes of each are in a stored or queued
      archive.  Whatever was durable, and whatever bytes were kept, stay so. */
  lemma {:induction false} NothingIsLost(m: Machine, ss: seq<MicroStep>)
    requires Held(m)
    ensures Held(MicroAll(m, ss))
    ensures forall h :: Durable(m, h) ==> Durable(MicroAll(m, ss), h)
    ensures forall p, h :: KeptAt(m, p, h) ==> KeptAt(MicroAll(m, ss), p, h)
    decreases |ss|
  {
    if ss != [] {
      var n, s := MicroAll(m, ss[..|ss| - 1]), ss[|ss| - 1];
      NothingIsLost(m, ss[..|ss| - 1]);
      MicroEffect(n, s);
      EffectKeepsHeld(n, Micro(n, s));
      forall h | Durable(m, h) ensures Durable(Micro(n, s), h) { DurableCarries(n, Micro(n, s), h); }
      forall p, h | KeptAt(m, p, h) ensures KeptAt(Micro(n, s), p, h) { KeptCarries(n, Micro(n, s), p, h); }
    }
  }

  /** A backup that finishes without error, followed by any steps and crashes: the files
      it read stay durable. */
  lemma FinishedBackupIsDurable(m: Machine, before: seq<MicroStep>, task: nat, after: seq<MicroStep>)
    requires Held(m) && task in MicroAll(m, before).tasks && MicroAll(m, before).tasks[task].Done?
    ensures Durable(MicroAll(MicroAll(m, before), after), MicroAll(m, before).tasks[task].read)
  {
    NothingIsLost(m, before);
    var n := MicroAll(m, before);
    assert Secured(n.tasks[task]).Some?;
    NothingIsLost(n, after);
  }

  lemma FreshMachineHeld()
    ensures Held(Machine(EMPTY_LOCAL, EMPTY, map[], map[]))
  {
  }

  // ---- what is durable on the server can be restored ----

  /** Some version restores to exactly these files. */
  ghost predicate Restorable(t: Tables, h: Hashes)
    requires TablesOk(t)
  {
    exists v :: v in t.versions && ChainIn(t, v).Some? && RestoresTo(t, v, h)
  }

  ghost predicate RestoresTo(t: Tables, v: VersionId, h: Hashes)
    requires TablesOk(t) && v in t.versions && ChainIn(t, v).Some?
  {
    var rows := Rows(t, t.versions[v].game);
    && (forall u :: u in ChainIn(t, v).value ==> u in rows)
    && HashContents(Replay(rows, ChainIn(t, v).value)) == h
  }

  /** While base and head agreed at every upload and no version was pruned, the server
      restores exactly the file sets it lists. */
  lemma RestorableIffListed(t: Tables, h: Hashes)
    requires TablesOk(t) && RowsOk(t) && forall v :: v in t.versions ==> Unbroken(t, v)
    ensures Restorable(t, h) <==> OnServer(t, h)
  {
    forall v | v in t.versions
      ensures ChainIn(t, v).Some? && (RestoresTo(t, v, h) <==> HashesOf(t.versions[v].files) == h)
    {
      AllRestorable(t, v);
      FaithfulIn(t, v);
    }
  }

  /** The same over runs of the whole system. */
  lemma RunsRestoreWhatTheyList(es: seq<Event>, h: Hashes)
    requires SafeRun(START, es) && forall e :: e in es ==> !e.Gc?
    ensures Restorable(RunAll(START, es).tables, h) <==> OnServer(RunAll(START, es).tables, h)
  {
    RunKeepsInv(START, es);
    RunKeepsGapless(START, es);
    RestorableIffListed(RunAll(START, es).tables, h);
  }
}

/** Any number of devices, one server: whole runs of backups, outbox retries,
    restores, conflict resolutions and retention passes, and what every run keeps. */
module World {
  import opened Types
  import opened ServerTables
  import opened Chains
  import opened Pruning
  import opened Backup

  // ---- histories only grow or shrink; a stored version never changes its files ----

  ghost predicate Extends(t: Tables, u: Tables) {
    && t.nextId <= u.nextId
    && forall v :: v in u.versions && v < t.nextId ==>
         v in t.versions && u.versions[v] == t.versions[v].(parent := u.versions[v].parent)
  }

  lemma CreateExtends(t: Tables, g: GameId, req: CreateVersion)
    ensures Extends(t, Create(t, g, req).0)
  {
  }

  lemma SendExtends(t: Tables, g: GameId, create: CreateVersion, net: Net)
    ensures Extends(t, Send(t, g, create, net).0)
  {
    CreateExtends(PutBlob(t, create.blob), g, create);
  }

  lemma PruneExtends(t: Tables, g: GameId, ret: Retention)
    ensures Extends(t, Prune(t, g, ret))
  {
  }

  // ---- what a device may rely on ----

  /** The diff base of a confirmed game has the files of its head, as long as the
      server still stores that head. */
  ghost predicate BaseOk(t: Tables, l: Local, g: GameId)
    requires g in l.snapshots
  {
    var s := l.snapshots[g];
    s.head.Some? ==>
      && s.head.value < t.nextId
      && (s.head.value in t.versions ==>
            && t.versions[s.head.value].game == g
            && (g !in l.unconfirmed ==> HashesOf(t.versions[s.head.value].files) == HashesOf(s.files)))
  }

  ghost predicate RequestOk(t: Tables, g: GameId, c: CreateVersion) {
    && (c.parent.Some? ==>
          c.parent.value < t.nextId && (c.parent.value in t.versions ==> t.versions[c.parent.value].game == g))
    && (c.kind == Differential ==> c.parent.Some?)
    && Carries(t.versions, g, c.parent, c.kind, c.files, c.blob)
  }

  ghost predicate OutboxOk(t: Tables, l: Local) {
    forall k :: k in l.outbox ==> k < l.nextKey && RequestOk(t, l.outbox[k].game, l.outbox[k].create)
  }

  ghost predicate LocalOk(t: Tables, l: Local) {
    && (forall g :: g in l.snapshots ==> BaseOk(t, l, g))
    && OutboxOk(t, l)
  }

  ghost predicate RowsOk(t: Tables) {
    forall v :: v in t.versions ==>
      && RowCarries(t.versions, v)
      && (t.versions[v].parent.Some? && t.versions[v].parent.value in t.versions ==>
            t.versions[t.versions[v].parent.value].game == t.versions[v].game)
  }

  lemma RequestExtends(t: Tables, u: Tables, g: GameId, c: CreateVersion)
    requires Extends(t, u) && RequestOk(t, g, c)
    ensures RequestOk(u, g, c)
  {
  }

  lemma LocalExtends(t: Tables, u: Tables, l: Local)
    requires Extends(t, u) && LocalOk(t, l)
    ensures LocalOk(u, l)
  {
    forall g | g in l.snapshots ensures BaseOk(u, l, g) { assert BaseOk(t, l, g); }
    forall k | k in l.outbox ensures RequestOk(u, l.outbox[k].game, l.outbox[k].create) {
      RequestExtends(t, u, l.outbox[k].game, l.outbox[k].create);
    }
  }

  lemma CreateKeepsRows(t: Tables, g: GameId, c: CreateVersion)
    requires TablesOk(t) && RowsOk(t) && RequestOk(t, g, c)
    ensures RowsOk(Create(t, g, c).0)
  {
    var u := Create(t, g, c).0;
    if Accepts(t, g, c) {
      FreshId(t);
      forall v | v in u.versions
        ensures RowCarries(u.versions, v)
        ensures u.versions[v].parent.Some? && u.versions[v].parent.value in u.versions ==>
                  u.versions[u.versions[v].parent.value].game == u.versions[v].game
      {
        if v in t.versions {
          assert RowOk(t, v) && RowCarries(t.versions, v);
        }
      }
    }
  }

  lemma PutBlobRows(t: Tables, a: Archive, g: GameId, c: CreateVersion)
    ensures RowsOk(t) ==> RowsOk(PutBlob(t, a))
    ensures RequestOk(t, g, c) ==> RequestOk(PutBlob(t, a), g, c)
  {
  }

  /** The tables stay consistent through an upload, whatever the network does. */
  lemma SendKeeps(t: Tables, g: GameId, c: CreateVersion, net: Net)
    requires TablesOk(t)
    ensures TablesOk(Send(t, g, c, net).0)
    ensures Conserved(t) ==> Conserved(Send(t, g, c, net).0)
  {
    PutBlobKeeps(t, c.blob);
    CreateKeepsTables(PutBlob(t, c.blob), g, c);
    if Conserved(t) { CreateKeepsReferences(PutBlob(t, c.blob), g, c); }
  }

  /** An upload alters no stored version and no chain. */
  lemma SendKeepsChain(t: Tables, g: GameId, c: CreateVersion, net: Net, v: VersionId)
    requires TablesOk(t) && v in t.versions
    ensures var u := Send(t, g, c, net).0;
      TablesOk(u) && v in u.versions && u.versions[v] == t.versions[v] && ChainIn(u, v) == ChainIn(t, v)
  {
    var p := PutBlob(t, c.blob);
    SendKeeps(t, g, c, net);
    PutBlobKeeps(t, c.blob);
    FreshId(t);
    assert ChainIn(p, v) == ChainIn(t, v) by { assert Rows(p, t.versions[v].game) == Rows(t, t.versions[v].game); }
    if Accepts(p, g, c) {
      CreateKeepsTables(p, g, c);
      ChainInCreate(p, g, c, v);
    }
  }

  lemma SendKeepsRows(t: Tables, g: GameId, c: CreateVersion, net: Net)
    requires TablesOk(t) && RowsOk(t) && RequestOk(t, g, c)
    ensures RowsOk(Send(t, g, c, net).0)
  {
    PutBlobKeeps(t, c.blob);
    PutBlobRows(t, c.blob, g, c);
    CreateKeepsRows(PutBlob(t, c.blob), g, c);
  }

  function ReplyId(reply: Option<Outcome>): VersionId {
    match reply
    case Some(FastForward(id)) => id
    case Some(Conflict(_, id)) => id
    case _ => 0
  }

  /** A reply names the version just stored, with the uploaded files. */
  lemma ReplyStored(t: Tables, g: GameId, c: CreateVersion, net: Net)
    ensures var (u, reply) := Send(t, g, c, net);
      reply.Some? ==>
        && !reply.value.Rejected?
        && ReplyId(reply) == t.nextId && u.nextId == t.nextId + 1
        && ReplyId(reply) in u.versions
        && u.versions[ReplyId(reply)] == NewRow(t, g, c)
  {
  }

  /** What a device in good standing prepares is a good request: a differential's
      archive turns its parent's files into its own. */
  lemma PrepareOk(t: Tables, l: Local, device: DeviceId, job: Job, fullEvery: nat, now: nat)
    requires LocalOk(t, l)
    ensures RequestOk(t, job.game, Prepare(l, device, job, fullEvery, now))
  {
    var c := Prepare(l, device, job, fullEvery, now);
    PrepareComplete(l, device, job, fullEvery, now);
    if c.parent.Some? { assert BaseOk(t, l, job.game); }
    if c.kind == Differential {
      DiffUndone(l.snapshots[job.game].files, c.files, ContentsOf(Captured(job)), c.blob);
    }
  }

  lemma PutOk(u: Tables, l: Local, g: GameId, files: FileSet, head: Option<VersionId>, flag: bool)
    requires LocalOk(u, l)
    requires head.Some? ==> head.value < u.nextId
    requires head.Some? && head.value in u.versions ==>
      u.versions[head.value].game == g && (flag || HashesOf(u.versions[head.value].files) == HashesOf(files))
    ensures LocalOk(u, SetUnconfirmed(PutSnapshot(l, g, files, head), g, flag))
  {
    var m := SetUnconfirmed(PutSnapshot(l, g, files, head), g, flag);
    forall k | k in m.snapshots ensures BaseOk(u, m, k) {
      if k != g { assert BaseOk(u, l, k); }
    }
    assert OutboxOk(u, l);
  }

  lemma EnqueueOk(u: Tables, l: Local, g: GameId, c: CreateVersion, now: int)
    requires LocalOk(u, l) && RequestOk(u, g, c)
    ensures LocalOk(u, Enqueue(l, g, c, now))
  {
    var m := Enqueue(l, g, c, now);
    forall k | k in m.snapshots ensures BaseOk(u, m, k) { assert BaseOk(u, l, k); }
  }

  lemma SetDiffCountOk(u: Tables, l: Local, g: GameId, n: nat)
    requires LocalOk(u, l)
    ensures LocalOk(u, SetDiffCount(l, g, n))
  {
    forall k | k in l.snapshots ensures BaseOk(u, SetDiffCount(l, g, n), k) { assert BaseOk(u, l, k); }
  }

  lemma SettleOk(u: Tables, l: Local, g: GameId, c: CreateVersion, reply: Option<Outcome>, prior: nat, now: nat)
    requires LocalOk(u, l) && RequestOk(u, g, c)
    requires reply.Some? ==> !reply.value.Rejected? && ReplyId(reply) < u.nextId && ReplyId(reply) in u.versions
                             && u.versions[ReplyId(reply)].game == g && u.versions[ReplyId(reply)].files == c.files
    ensures LocalOk(u, Settle(l, g, c, reply, prior, now).0)
  {
    if reply.Some? {
      PutOk(u, l, g, c.files, Some(ReplyId(reply)), false);
      SetDiffCountOk(u, SetUnconfirmed(PutSnapshot(l, g, c.files, Some(ReplyId(reply))), g, false), g,
                     NextDiffCount(c.kind, prior));
    } else {
      EnqueueOk(u, l, g, c, now);
      PutOk(u, Enqueue(l, g, c, now), g, c.files, c.parent, true);
    }
  }

  lemma RunOk(l: Local, t: Tables, device: DeviceId, job: Job, fullEvery: nat, net: Net, now: nat)
    requires TablesOk(t) && RowsOk(t) && LocalOk(t, l)
    ensures var r := Run(l, t, device, job, fullEvery, net, now);
      TablesOk(r.tables) && RowsOk(r.tables) && LocalOk(r.tables, r.local) && Extends(t, r.tables)
  {
    if !Skips(l, job) {
      var c := Prepare(l, device, job, fullEvery, now);
      var (u, reply) := Send(t, job.game, c, net);
      PrepareOk(t, l, device, job, fullEvery, now);
      SendKeeps(t, job.game, c, net);
      SendKeepsRows(t, job.game, c, net);
      SendExtends(t, job.game, c, net);
      LocalExtends(t, u, l);
      RequestExtends(t, u, job.game, c);
      ReplyStored(t, job.game, c, net);
      SettleOk(u, l, job.game, c, reply, PriorDiffs(l, job.game), now);
    }
  }

  // ---- retries ----

  /** Checked before draining an entry: its game is still unconfirmed, or the
      entry has the files of the current diff base. */
  ghost predicate RetrySafe(l: Local, key: nat) {
    key in l.outbox ==>
      var g := l.outbox[key].game;
      g !in l.snapshots || g in l.unconfirmed || HashesOf(l.outbox[key].create.files) == HashesOf(l.snapshots[g].files)
  }

  lemma SettleRetryOk(u: Tables, l: Local, key: nat, reply: Option<Outcome>, now: int)
    requires LocalOk(u, l) && key in l.outbox && RetrySafe(l, key)
    requires reply.Some? ==> !reply.value.Rejected? && ReplyId(reply) < u.nextId && ReplyId(reply) in u.versions
                             && u.versions[ReplyId(reply)].game == l.outbox[key].game
                             && u.versions[ReplyId(reply)].files == l.outbox[key].create.files
    ensures LocalOk(u, SettleRetry(l, key, reply, now))
  {
    var m := SettleRetry(l, key, reply, now);
    forall k | k in m.snapshots ensures BaseOk(u, m, k) { assert BaseOk(u, l, k); }
    assert OutboxOk(u, m) by {
      assert OutboxOk(u, l);
      forall k | k in m.outbox
        ensures m.outbox[k].game == l.outbox[k].game && m.outbox[k].create == l.outbox[k].create
      {
      }
    }
  }

  lemma RetryOk(l: Local, t: Tables, key: nat, net: Net, now: int)
    requires TablesOk(t) && RowsOk(t) && LocalOk(t, l) && RetrySafe(l, key)
    ensures var (m, u) := Retry(l, t, key, net, now);
      TablesOk(u) && RowsOk(u) && LocalOk(u, m) && Extends(t, u)
  {
    if key in l.outbox {
      var g, c := l.outbox[key].game, l.outbox[key].create;
      var (u, reply) := Send(t, g, c, net);
      SendKeeps(t, g, c, net);
      SendKeepsRows(t, g, c, net);
      SendExtends(t, g, c, net);
      LocalExtends(t, u, l);
      ReplyStored(t, g, c, net);
      SettleRetryOk(u, l, key, reply, now);
    }
  }

  /** Exactly when an accepted retry leaves the device's base and head agreeing. */
  lemma RetryKeepsAgreementIff(l: Local, t: Tables, key: nat, net: Net, now: int)
    requires TablesOk(t) && RowsOk(t) && LocalOk(t, l) && key in l.outbox
    requires Send(t, l.outbox[key].game, l.outbox[key].create, net).1.Some?
    ensures var (m, u) := Retry(l, t, key, net, now); LocalOk(u, m) <==> RetrySafe(l, key)
  {
    var g, c := l.outbox[key].game, l.outbox[key].create;
    var (m, u) := Retry(l, t, key, net, now);
    ReplyStored(t, g, c, net);
    if RetrySafe(l, key) {
      RetryOk(l, t, key, net, now);
    } else {
      assert !BaseOk(u, m, g);
    }
  }

  // ---- the system ----

  datatype World = World(tables: Tables, locals: map<DeviceId, Local>)

  const START := World(EMPTY, map[])

  datatype Event =
    | NewGame(game: GameId)
    | BackUp(device: DeviceId, job: Job, fullEvery: nat, net: Net, at: nat)
    | Drain(device: DeviceId, key: nat, net: Net, now: int)
    | Adopt(device: DeviceId, game: GameId, target: VersionId)
    | ResolveTo(game: GameId, winner: VersionId)
    | Gc(game: GameId, retention: Retention)

  function LocalOf(w: World, d: DeviceId): Local {
    if d in w.locals then w.locals[d] else EMPTY_LOCAL
  }

  /** The last step of a restore: the target's files become the base under it. */
  ghost function AdoptVersion(l: Local, t: Tables, g: GameId, target: VersionId): Local
    requires TablesOk(t)
  {
    RowsAcyclic(t, g);
    if Chain(Rows(t, g), target).Some? && target in t.versions
    then PutSnapshot(l, g, t.versions[target].files, Some(target)) else l
  }

  ghost function Step(w: World, e: Event): (w': World)
    requires TablesOk(w.tables)
    ensures TablesOk(w'.tables)
    ensures Conserved(w.tables) ==> Conserved(w'.tables)
  {
    match e
    case NewGame(g) =>
      EnsureGameKeeps(w.tables, g);
      w.(tables := EnsureGame(w.tables, g))
    case BackUp(d, job, fullEvery, net, at) =>
      var r := Run(LocalOf(w, d), w.tables, d, job, fullEvery, net, at);
      SendKeeps(w.tables, job.game, Prepare(LocalOf(w, d), d, job, fullEvery, at), net);
      World(r.tables, w.locals[d := r.local])
    case Drain(d, key, net, now) =>
      var l := LocalOf(w, d);
      var (m, u) := Retry(l, w.tables, key, net, now);
      (if key in l.outbox then
         SendKeeps(w.tables, l.outbox[key].game, l.outbox[key].create, net);
         World(u, w.locals[d := m])
       else World(u, w.locals[d := m]))
    case Adopt(d, g, target) =>
      w.(locals := w.locals[d := AdoptVersion(LocalOf(w, d), w.tables, g, target)])
    case ResolveTo(g, winner) =>
      ResolveKeeps(w.tables, g, winner);
      w.(tables := Resolve(w.tables, g, winner).0)
    case Gc(g, ret) =>
      PruneKeepsTables(w.tables, g, ret);
      w.(tables := Prune(w.tables, g, ret))
  }

  lemma BackUpStep(w: World, d: DeviceId, job: Job, fullEvery: nat, net: Net, at: nat)
    requires TablesOk(w.tables)
    ensures var r := Run(LocalOf(w, d), w.tables, d, job, fullEvery, net, at);
      Step(w, BackUp(d, job, fullEvery, net, at)) == World(r.tables, w.locals[d := r.local])
  {
  }

  lemma GcStep(w: World, g: GameId, ret: Retention)
    requires TablesOk(w.tables)
    ensures Step(w, Gc(g, ret)) == World(Prune(w.tables, g, ret), w.locals)
  {
  }

  lemma DrainStep(w: World, d: DeviceId, key: nat, net: Net, now: int)
    requires TablesOk(w.tables)
    ensures var (m, u) := Retry(LocalOf(w, d), w.tables, key, net, now);
      Step(w, Drain(d, key, net, now)) == World(u, w.locals[d := m])
  {
  }

  lemma AdoptStep(w: World, d: DeviceId, g: GameId, target: VersionId)
    requires TablesOk(w.tables)
    ensures Step(w, Adopt(d, g, target))
         == World(w.tables, w.locals[d := AdoptVersion(LocalOf(w, d), w.tables, g, target)])
  {
  }

  /** Drains are the only events a run is constrained in. */
  ghost predicate Safe(w: World, e: Event) {
    e.Drain? ==> RetrySafe(LocalOf(w, e.device), e.key)
  }

  ghost function RunAll(w: World, es: seq<Event>): (w': World)
    requires TablesOk(w.tables)
    ensures TablesOk(w'.tables)
    ensures Conserved(w.tables) ==> Conserved(w'.tables)
    decreases |es|
  {
    if es == [] then w else Step(RunAll(w, es[..|es| - 1]), es[|es| - 1])
  }

  ghost predicate SafeRun(w: World, es: seq<Event>)
    requires TablesOk(w.tables)
    decreases |es|
  {
    es == [] || (SafeRun(w, es[..|es| - 1]) && Safe(RunAll(w, es[..|es| - 1]), es[|es| - 1]))
  }

  lemma RunSnoc(w: World, front: seq<Event>, e: Event)
    requires TablesOk(w.tables)
    ensures RunAll(w, front + [e]) == Step(RunAll(w, front), e)
    ensures SafeRun(w, front + [e]) <==> SafeRun(w, front) && Safe(RunAll(w, front), e)
  {
    assert (front + [e])[..|front|] == front;
  }

  lemma RunThree(w: World, a: Event, b: Event, c: Event) returns (es: seq<Event>)
    requires TablesOk(w.tables)
    ensures es == [a, b, c] && RunAll(w, es) == Step(Step(Step(w, a), b), c)
  {
    var none: seq<Event> := [];
    RunSnoc(w, none, a);
    RunSnoc(w, none + [a], b);
    RunSnoc(w, none + [a] + [b], c);
    es := none + [a] + [b] + [c];
  }

  lemma {:induction false} NoDrainIsSafe(w: World, es: seq<Event>)
    requires TablesOk(w.tables) && forall e :: e in es ==> !e.Drain?
    ensures SafeRun(w, es)
    decreases |es|
  {
    if es != [] {
      NoDrainIsSafe(w, es[..|es| - 1]);
    }
  }

  ghost predicate Inv(w: World) {
    && TablesOk(w.tables)
    && RowsOk(w.tables)
    && forall d :: d in w.locals ==> LocalOk(w.tables, w.locals[d])
  }

  lemma InvLocal(w: World, d: DeviceId)
    requires Inv(w)
    ensures LocalOk(w.tables, LocalOf(w, d))
  {
  }

  lemma UpdateOne(w: World, d: DeviceId, u: Tables, m: Local)
    requires Inv(w) && TablesOk(u) && RowsOk(u) && Extends(w.tables, u) && LocalOk(u, m)
    ensures Inv(World(u, w.locals[d := m]))
  {
    forall k | k in w.locals ensures LocalOk(u, w.locals[k]) { LocalExtends(w.tables, u, w.locals[k]); }
  }

  lemma UpdateTables(w: World, u: Tables)
    requires Inv(w) && TablesOk(u) && RowsOk(u) && Extends(w.tables, u)
    ensures Inv(w.(tables := u))
  {
    forall k | k in w.locals ensures LocalOk(u, w.locals[k]) { LocalExtends(w.tables, u, w.locals[k]); }
  }

  lemma PruneKeepsRow(t: Tables, dead: set<VersionId>, v: VersionId)
    requires TablesOk(t) && RowsOk(t) && v in t.versions && v !in dead
    ensures var left := UnlinkAll(t.versions, dead);
      && RowCarries(left, v)
      && (left[v].parent.Some? && left[v].parent.value in left ==> left[left[v].parent.value].game == left[v].game)
  {
    assert RowOk(t, v) && RowCarries(t.versions, v);
  }

  lemma PruneKeepsRows(t: Tables, g: GameId, ret: Retention)
    requires TablesOk(t) && RowsOk(t)
    ensures RowsOk(Prune(t, g, ret))
  {
    if g in t.heads {
      var dead := DeadIn(t, g, ret);
      forall v | v in t.versions && v !in dead { PruneKeepsRow(t, dead, v); }
    }
  }

  lemma AdoptOk(l: Local, t: Tables, g: GameId, target: VersionId)
    requires TablesOk(t) && LocalOk(t, l)
    ensures LocalOk(t, AdoptVersion(l, t, g, target))
  {
    var m := AdoptVersion(l, t, g, target);
    RowsAcyclic(t, g);
    if Chain(Rows(t, g), target).Some? {
      assert target in Rows(t, g) && RowOk(t, target);
    }
    forall k | k in m.snapshots ensures BaseOk(t, m, k) {
      if k in l.snapshots { assert BaseOk(t, l, k); }
    }
    assert OutboxOk(t, l);
  }

  lemma BackUpKeepsInv(w: World, d: DeviceId, job: Job, fullEvery: nat, net: Net, at: nat)
    requires Inv(w)
    ensures Inv(Step(w, BackUp(d, job, fullEvery, net, at)))
  {
    InvLocal(w, d);
    RunOk(LocalOf(w, d), w.tables, d, job, fullEvery, net, at);
    BackUpStep(w, d, job, fullEvery, net, at);
    var r := Run(LocalOf(w, d), w.tables, d, job, fullEvery, net, at);
    UpdateOne(w, d, r.tables, r.local);
  }

  lemma DrainKeepsInv(w: World, d: DeviceId, key: nat, net: Net, now: int)
    requires Inv(w) && RetrySafe(LocalOf(w, d), key)
    ensures Inv(Step(w, Drain(d, key, net, now)))
  {
    InvLocal(w, d);
    RetryOk(LocalOf(w, d), w.tables, key, net, now);
    DrainStep(w, d, key, net, now);
    var (m, u) := Retry(LocalOf(w, d), w.tables, key, net, now);
    UpdateOne(w, d, u, m);
  }

  lemma AdoptKeepsInv(w: World, d: DeviceId, g: GameId, target: VersionId)
    requires Inv(w)
    ensures Inv(Step(w, Adopt(d, g, target)))
  {
    InvLocal(w, d);
    AdoptOk(LocalOf(w, d), w.tables, g, target);
    AdoptStep(w, d, g, target);
    UpdateOne(w, d, w.tables, AdoptVersion(LocalOf(w, d), w.tables, g, target));
  }

  lemma GcKeepsInv(w: World, g: GameId, ret: Retention)
    requires Inv(w)
    ensures Inv(Step(w, Gc(g, ret)))
  {
    PruneKeepsTables(w.tables, g, ret);
    PruneKeepsRows(w.tables, g, ret);
    PruneExtends(w.tables, g, ret);
    GcStep(w, g, ret);
    UpdateTables(w, Prune(w.tables, g, ret));
  }

  /** Registering and resolving touch no version. */
  predicate Quiet(e: Event) {
    e.NewGame? || e.ResolveTo?
  }

  lemma QuietStep(w: World, e: Event)
    requires TablesOk(w.tables) && Quiet(e)
    ensures var u := Step(w, e).tables;
      && Step(w, e) == World(u, w.locals) && TablesOk(u)
      && u.versions == w.tables.versions && u.nextId == w.tables.nextId
  {
  }

  lemma QuietKeepsInv(w: World, e: Event)
    requires Inv(w) && Quiet(e)
    ensures Inv(Step(w, e))
  {
    QuietStep(w, e);
    UpdateTables(w, Step(w, e).tables);
  }

  lemma StepKeepsInv(w: World, e: Event)
    requires Inv(w) && Safe(w, e)
    ensures Inv(Step(w, e))
  {
    match e
    case BackUp(d, job, fullEvery, net, at) => BackUpKeepsInv(w, d, job, fullEvery, net, at);
    case Drain(d, key, net, now) => DrainKeepsInv(w, d, key, net, now);
    case Adopt(d, g, target) => AdoptKeepsInv(w, d, g, target);
    case Gc(g, ret) => GcKeepsInv(w, g, ret);
    case NewGame(_) => QuietKeepsInv(w, e);
    case ResolveTo(_, _) => QuietKeepsInv(w, e);
  }

  lemma {:induction false} RunKeepsInv(w: World, es: seq<Event>)
    requires Inv(w) && SafeRun(w, es)
    ensures Inv(RunAll(w, es))
    decreases |es|
  {
    if es != [] {
      var front := es[..|es| - 1];
      RunKeepsInv(w, front);
      StepKeepsInv(RunAll(w, front), es[|es| - 1]);
    }
  }

  /** Safety of restore over every run, retention passes included: restoring any
      stored version either fails to reach a full or finds every archive of its chain
      stored and yields exactly its files. */
  lemma RestoreIsFaithful(es: seq<Event>, v: VersionId)
    requires SafeRun(START, es) && v in RunAll(START, es).tables.versions
    ensures var t := RunAll(START, es).tables;
      var rows := Rows(t, t.versions[v].game);
      && Acyclic(rows)
      && (Chain(rows, v).Some? ==>
            && IsChain(rows, Chain(rows, v).value, v)
            && AllStored(t, Chain(rows, v).value)
            && HashContents(Replay(rows, Chain(rows, v).value)) == HashesOf(t.versions[v].files))
  {
    RunKeepsInv(START, es);
    var t := RunAll(START, es).tables;
    FaithfulIn(t, v);
    assert Conserved(START.tables);
    if Chain(Rows(t, t.versions[v].game), v).Some? {
      ChainStored(t, t.versions[v].game, Chain(Rows(t, t.versions[v].game), v).value, v);
    }
  }

  /** The archives a restore downloads are there. */
  ghost predicate AllStored(t: Tables, chain: seq<VersionId>) {
    forall u :: u in chain ==> u in t.versions && t.versions[u].blob in t.blobs
  }

  lemma ChainStored(t: Tables, g: GameId, chain: seq<VersionId>, v: VersionId)
    requires Conserved(t) && IsChain(Rows(t, g), chain, v)
    ensures AllStored(t, chain)
  {
    forall u | u in chain ensures u in t.versions && t.versions[u].blob in t.blobs { assert u in Rows(t, g); }
  }

  lemma FaithfulIn(t: Tables, v: VersionId)
    requires TablesOk(t) && RowsOk(t) && v in t.versions
    ensures var rows := Rows(t, t.versions[v].game);
      && Acyclic(rows)
      && (Chain(rows, v).Some? ==>
            && IsChain(rows, Chain(rows, v).value, v)
            && HashContents(Replay(rows, Chain(rows, v).value)) == HashesOf(t.versions[v].files))
  {
    var g := t.versions[v].game;
    var rows := Rows(t, g);
    RowsAcyclic(t, g);
    if Chain(rows, v).Some? {
      ChainIsLinked(rows, v);
      forall u | u in rows ensures RowCarries(rows, u) { assert RowCarries(t.versions, u); }
      ReplayFaithful(rows, Chain(rows, v).value, v);
    }
  }
}

/** Lineage without retention passes: every stored version can be restored, and what
    goes wrong when an outbox entry is drained too late. */
module Lineage {
  import opened Types
  import opened ServerTables
  import opened Chains
  import opened Pruning
  import opened Snapshots
  import opened Backup
  import opened World

  // ---- no gaps ----

  ghost predicate NamesVersion(t: Tables, g: GameId, parent: Option<VersionId>) {
    parent.Some? ==> parent.value in Rows(t, g)
  }

  ghost predicate Unbroken(t: Tables, v: VersionId)
    requires v in t.versions
  {
    && NamesVersion(t, t.versions[v].game, t.versions[v].parent)
    && (t.versions[v].kind == Differential ==> t.versions[v].parent.Some?)
  }

  ghost predicate LocalUnbroken(t: Tables, l: Local) {
    && (forall g :: g in l.snapshots ==> NamesVersion(t, g, l.snapshots[g].head))
    && (forall k :: k in l.outbox ==>
          && NamesVersion(t, l.outbox[k].game, l.outbox[k].create.parent)
          && (l.outbox[k].create.kind == Differential ==> l.outbox[k].create.parent.Some?))
  }

  ghost predicate Gapless(w: World) {
    && TablesOk(w.tables)
    && (forall v :: v in w.tables.versions ==> Unbroken(w.tables, v))
    && (forall d :: d in w.locals ==> LocalUnbroken(w.tables, w.locals[d]))
  }

  /** Versions only get added, and keep game and parent. */
  ghost predicate Grows(t: Tables, u: Tables) {
    forall v :: v in t.versions ==> v in u.versions && u.versions[v] == t.versions[v]
  }

  lemma LocalGrows(t: Tables, u: Tables, l: Local)
    requires Grows(t, u) && LocalUnbroken(t, l)
    ensures LocalUnbroken(u, l)
  {
    forall g | g in l.snapshots ensures NamesVersion(u, g, l.snapshots[g].head) {
      assert NamesVersion(t, g, l.snapshots[g].head);
    }
    forall k | k in l.outbox ensures NamesVersion(u, l.outbox[k].game, l.outbox[k].create.parent) {
      assert NamesVersion(t, l.outbox[k].game, l.outbox[k].create.parent);
    }
  }

  lemma CreateGrows(t: Tables, g: GameId, c: CreateVersion)
    requires TablesOk(t) && (forall v :: v in t.versions ==> Unbroken(t, v))
    requires NamesVersion(t, g, c.parent) && (c.kind == Differential ==> c.parent.Some?)
    ensures var u := Create(t, g, c).0; Grows(t, u) && forall v :: v in u.versions ==> Unbroken(u, v)
  {
    FreshId(t);
    var u := Create(t, g, c).0;
    forall v | v in u.versions ensures Unbroken(u, v) {
      if v in t.versions { assert Unbroken(t, v); }
    }
  }

  lemma SendGrows(t: Tables, g: GameId, c: CreateVersion, net: Net)
    requires TablesOk(t) && (forall v :: v in t.versions ==> Unbroken(t, v))
    requires NamesVersion(t, g, c.parent) && (c.kind == Differential ==> c.parent.Some?)
    ensures var u := Send(t, g, c, net).0; Grows(t, u) && forall v :: v in u.versions ==> Unbroken(u, v)
  {
    var stored := PutBlob(t, c.blob);
    PutBlobKeeps(t, c.blob);
    forall k ensures Rows(stored, k) == Rows(t, k) { }
    forall v | v in stored.versions ensures Unbroken(stored, v) { assert Unbroken(t, v); }
    CreateGrows(stored, g, c);
  }

  lemma Regroup(w: World, u: Tables, locals: map<DeviceId, Local>)
    requires Gapless(w) && TablesOk(u) && Grows(w.tables, u)
    requires forall v :: v in u.versions ==> Unbroken(u, v)
    requires forall d :: d in locals ==> (d in w.locals && locals[d] == w.locals[d]) || LocalUnbroken(u, locals[d])
    ensures Gapless(World(u, locals))
  {
    forall d | d in locals ensures LocalUnbroken(u, locals[d]) {
      if d in w.locals { LocalGrows(w.tables, u, w.locals[d]); }
    }
  }

  ghost predicate RequestUnbroken(t: Tables, g: GameId, c: CreateVersion) {
    NamesVersion(t, g, c.parent) && (c.kind == Differential ==> c.parent.Some?)
  }

  ghost predicate ReplyNames(u: Tables, g: GameId, reply: Option<Outcome>) {
    reply.Some? ==> !reply.value.Rejected? && ReplyId(reply) in Rows(u, g)
  }

  lemma SettleUnbroken(u: Tables, l: Local, g: GameId, c: CreateVersion, reply: Option<Outcome>, prior: nat, now: nat)
    requires LocalUnbroken(u, l) && RequestUnbroken(u, g, c) && ReplyNames(u, g, reply)
    ensures LocalUnbroken(u, Settle(l, g, c, reply, prior, now).0)
  {
    var m := Settle(l, g, c, reply, prior, now).0;
    forall k | k in m.snapshots ensures NamesVersion(u, k, m.snapshots[k].head) {
      if k != g { assert NamesVersion(u, k, l.snapshots[k].head); }
    }
    forall k | k in m.outbox ensures RequestUnbroken(u, m.outbox[k].game, m.outbox[k].create) {
      if k in l.outbox && m.outbox[k] == l.outbox[k] {
        assert RequestUnbroken(u, l.outbox[k].game, l.outbox[k].create);
      }
    }
  }

  lemma SettleRetryUnbroken(u: Tables, l: Local, key: nat, reply: Option<Outcome>, now: int)
    requires LocalUnbroken(u, l) && key in l.outbox && ReplyNames(u, l.outbox[key].game, reply)
    ensures LocalUnbroken(u, SettleRetry(l, key, reply, now))
  {
    var m := SettleRetry(l, key, reply, now);
    forall k | k in m.snapshots ensures NamesVersion(u, k, m.snapshots[k].head) {
      assert NamesVersion(u, k, l.snapshots[k].head);
    }
    forall k | k in m.outbox ensures RequestUnbroken(u, m.outbox[k].game, m.outbox[k].create) {
      assert RequestUnbroken(u, l.outbox[k].game, l.outbox[k].create);
    }
  }

  /** An upload of a good request, as the device sees it. */
  lemma SendUnbroken(t: Tables, l: Local, g: GameId, c: CreateVersion, net: Net)
    requires TablesOk(t) && (forall v :: v in t.versions ==> Unbroken(t, v))
    requires LocalUnbroken(t, l) && RequestUnbroken(t, g, c)
    ensures var (u, reply) := Send(t, g, c, net);
      && TablesOk(u) && Grows(t, u) && (forall v :: v in u.versions ==> Unbroken(u, v))
      && LocalUnbroken(u, l) && RequestUnbroken(u, g, c) && ReplyNames(u, g, reply)
  {
    var (u, reply) := Send(t, g, c, net);
    SendGrows(t, g, c, net);
    SendKeeps(t, g, c, net);
    ReplyStored(t, g, c, net);
    LocalGrows(t, u, l);
  }

  lemma RunUnbroken(t: Tables, l: Local, d: DeviceId, job: Job, fullEvery: nat, net: Net, at: nat)
    requires TablesOk(t) && (forall v :: v in t.versions ==> Unbroken(t, v)) && LocalUnbroken(t, l)
    ensures var r := Run(l, t, d, job, fullEvery, net, at);
      && TablesOk(r.tables) && Grows(t, r.tables) && (forall v :: v in r.tables.versions ==> Unbroken(r.tables, v))
      && LocalUnbroken(r.tables, r.local)
  {
    if !Skips(l, job) {
      var g, c := job.game, Prepare(l, d, job, fullEvery, at);
      assert RequestUnbroken(t, g, c) by { if g in l.snapshots { assert NamesVersion(t, g, l.snapshots[g].head); } }
      var (u, reply) := Send(t, g, c, net);
      SendUnbroken(t, l, g, c, net);
      SettleUnbroken(u, l, g, c, reply, PriorDiffs(l, g), at);
    }
  }

  lemma BackUpGapless(w: World, d: DeviceId, job: Job, fullEvery: nat, net: Net, at: nat)
    requires Gapless(w)
    ensures Gapless(Step(w, BackUp(d, job, fullEvery, net, at)))
  {
    BackUpStep(w, d, job, fullEvery, net, at);
    RunUnbroken(w.tables, LocalOf(w, d), d, job, fullEvery, net, at);
    var r := Run(LocalOf(w, d), w.tables, d, job, fullEvery, net, at);
    Regroup(w, r.tables, w.locals[d := r.local]);
  }

  lemma DrainGapless(w: World, d: DeviceId, key: nat, net: Net, now: int)
    requires Gapless(w)
    ensures Gapless(Step(w, Drain(d, key, net, now)))
  {
    var l, t := LocalOf(w, d), w.tables;
    var (m, u) := Retry(l, t, key, net, now);
    DrainStep(w, d, key, net, now);
    RetryUnbroken(t, l, key, net, now);
    Regroup(w, u, w.locals[d := m]);
  }

  lemma RetryUnbroken(t: Tables, l: Local, key: nat, net: Net, now: int)
    requires TablesOk(t) && (forall v :: v in t.versions ==> Unbroken(t, v)) && LocalUnbroken(t, l)
    ensures var (m, u) := Retry(l, t, key, net, now);
      TablesOk(u) && Grows(t, u) && (forall v :: v in u.versions ==> Unbroken(u, v)) && LocalUnbroken(u, m)
  {
    if key in l.outbox {
      var g, c := l.outbox[key].game, l.outbox[key].create;
      var (u, reply) := Send(t, g, c, net);
      SendUnbroken(t, l, g, c, net);
      SettleRetryUnbroken(u, l, key, reply, now);
    }
  }

  lemma AdoptGapless(w: World, d: DeviceId, g: GameId, target: VersionId)
    requires Gapless(w)
    ensures Gapless(Step(w, Adopt(d, g, target)))
  {
    RowsAcyclic(w.tables, g);
    AdoptStep(w, d, g, target);
    var m := AdoptVersion(LocalOf(w, d), w.tables, g, target);
    assert LocalUnbroken(w.tables, m);
    Regroup(w, w.tables, w.locals[d := m]);
  }

  lemma QuietGapless(w: World, e: Event)
    requires Gapless(w) && Quiet(e)
    ensures Gapless(Step(w, e))
  {
    QuietStep(w, e);
    var u := Step(w, e).tables;
    forall v | v in u.versions ensures Unbroken(u, v) {
      assert Unbroken(w.tables, v);
      SameVersionsSameRows(w.tables, u, u.versions[v].game);
    }
    Regroup(w, u, w.locals);
  }

  lemma StepKeepsGapless(w: World, e: Event)
    requires Gapless(w) && !e.Gc?
    ensures Gapless(Step(w, e))
  {
    match e
    case BackUp(d, job, fullEvery, net, at) => BackUpGapless(w, d, job, fullEvery, net, at);
    case Drain(d, key, net, now) => DrainGapless(w, d, key, net, now);
    case Adopt(d, g, target) => AdoptGapless(w, d, g, target);
    case _ => QuietGapless(w, e);
  }

  lemma {:induction false} RunKeepsGapless(w: World, es: seq<Event>)
    requires Gapless(w) && forall e :: e in es ==> !e.Gc?
    ensures Gapless(RunAll(w, es))
    decreases |es|
  {
    if es != [] {
      RunKeepsGapless(w, es[..|es| - 1]);
      StepKeepsGapless(RunAll(w, es[..|es| - 1]), es[|es| - 1]);
    }
  }

  lemma {:induction false} AllRestorable(t: Tables, v: VersionId)
    requires TablesOk(t) && (forall u :: u in t.versions ==> Unbroken(t, u)) && v in t.versions
    ensures ChainIn(t, v).Some?
    decreases t.versions[v].seqNo
  {
    assert Unbroken(t, v) && RowOk(t, v);
    if t.versions[v].kind == Differential {
      AllRestorable(t, t.versions[v].parent.value);
    }
  }

  /** Availability: without retention passes, whatever the interleaving of devices,
      networks, retries, restores and resolves, a parentless version is a full, every
      parent is an earlier version of the same game, and every stored version has a
      restore chain, from its only full to itself, with every archive stored. */
  lemma RestoreIsAvailable(es: seq<Event>, v: VersionId)
    requires (forall e :: e in es ==> !e.Gc?) && v in RunAll(START, es).tables.versions
    ensures var t := RunAll(START, es).tables;
      && (t.versions[v].parent.None? ==> t.versions[v].kind == Full)
      && (t.versions[v].parent.Some? ==>
            && t.versions[v].parent.value in Rows(t, t.versions[v].game)
            && t.versions[t.versions[v].parent.value].seqNo < t.versions[v].seqNo)
      && ChainIn(t, v).Some?
      && IsChain(Rows(t, t.versions[v].game), ChainIn(t, v).value, v)
      && AllStored(t, ChainIn(t, v).value)
  {
    RunKeepsGapless(START, es);
    var t := RunAll(START, es).tables;
    assert Unbroken(t, v) && RowOk(t, v);
    AllRestorable(t, v);
    RowsAcyclic(t, t.versions[v].game);
    ChainIsLinked(Rows(t, t.versions[v].game), v);
    assert Conserved(START.tables);
    ChainStored(t, t.versions[v].game, ChainIn(t, v).value, v);
  }

  // ---- a late drain corrupts the next differential ----

  lemma {:induction false} LongerPath(paths: set<Path>) returns (q: Path)
    ensures forall p :: p in paths ==> |p| < |q|
  {
    q := "q";
    if paths != {} {
      var x :| x in paths;
      var r := LongerPath(paths - {x});
      q := r + x + "q";
      forall p | p in paths ensures |p| < |q| { if p != x { assert p in paths - {x}; } }
    }
  }

  /** A disk holding exactly the contents a file set records. */
  ghost function DiskOf(files: FileSet): Disk {
    MapOf(files.Keys, p requires p in files => DiskFile(files[p].hash.preimage, files[p].mtime))
  }

  /** Adding one file to the base of a confirmed game: what the differential holds. */
  lemma OneFileDifferential(l: Local, device: DeviceId, g: GameId, q: Path, fullEvery: nat, now: nat)
    requires g in l.snapshots && l.snapshots[g].head.Some? && g !in l.unconfirmed
    requires PriorDiffs(l, g) < fullEvery && q !in l.snapshots[g].files
    ensures var job := Job(g, true, false, DiskOf(l.snapshots[g].files)[q := DiskFile("", 0)]);
      var c := Prepare(l, device, job, fullEvery, now);
      && !Skips(l, job)
      && c.kind == Differential && c.parent == l.snapshots[g].head
      && c.blob.deletions == {} && c.blob.payload == map[q := ""]
      && HashesOf(c.files) == HashesOf(l.snapshots[g].files)[q := Blake3("")]
  {
    var base := l.snapshots[g].files;
    var job := Job(g, true, false, DiskOf(base)[q := DiskFile("", 0)]);
    var files := JobFiles(job);
    assert files.Keys == base.Keys + {q};
    forall p | p in base ensures files[p].hash == base[p].hash {
      assert Captured(job)[p].content == base[p].hash.preimage;
    }
    assert Changed(base, files) == {q} && Deleted(base, files) == {};
    var c := Prepare(l, device, job, fullEvery, now);
    assert c.blob.payload.Keys == {q};
  }

  lemma CreatedChain(t: Tables, g: GameId, c: CreateVersion, h: VersionId)
    requires TablesOk(t) && Accepts(t, g, c) && h in Rows(t, g) && c.parent == Some(h) && c.kind == Differential
    requires ChainIn(t, h).Some?
    ensures TablesOk(Create(t, g, c).0)
    ensures ChainIn(Create(t, g, c).0, t.nextId) == Some(ChainIn(t, h).value + [t.nextId])
  {
    CreateKeepsTables(t, g, c);
    ChainInCreate(t, g, c, h);
  }

  /** Uploading a differential on a restorable parent gets the parent's chain
      extended by itself. */
  lemma ExtendedChain(u: Tables, g: GameId, c: CreateVersion, h: VersionId)
    requires TablesOk(u) && g in u.heads && h in Rows(u, g) && c.parent == Some(h) && c.kind == Differential
    requires ChainIn(u, h).Some?
    ensures var w := Send(u, g, c, Reached).0;
      && TablesOk(w)
      && Rows(w, g) == Rows(u, g)[u.nextId := NewRow(u, g, c)]
      && ChainIn(w, u.nextId) == Some(ChainIn(u, h).value + [u.nextId])
  {
    var t := PutBlob(u, c.blob);
    assert TablesOk(t) by { PutBlobKeeps(u, c.blob); }
    SameVersionsSameRows(u, t, g);
    SameVersionsSameChain(u, t, h);
    CreatedExtends(t, g, c, h);
    ReachedIsCreate(u, g, c);
    assert NewRow(t, g, c) == NewRow(u, g, c);
  }

  lemma CreatedExtends(t: Tables, g: GameId, c: CreateVersion, h: VersionId)
    requires TablesOk(t) && Accepts(t, g, c) && h in Rows(t, g) && c.parent == Some(h) && c.kind == Differential
    requires ChainIn(t, h).Some?
    ensures var w := Create(t, g, c).0;
      && TablesOk(w)
      && Rows(w, g) == Rows(t, g)[t.nextId := NewRow(t, g, c)]
      && ChainIn(w, t.nextId) == Some(ChainIn(t, h).value + [t.nextId])
  {
    CreatedChain(t, g, c, h);
    RowsAfterCreate(t, g, c, g);
  }

  lemma ReachedIsCreate(u: Tables, g: GameId, c: CreateVersion)
    requires g in u.heads && (c.parent.Some? ==> c.parent.value in u.versions)
    ensures Accepts(PutBlob(u, c.blob), g, c)
    ensures Send(u, g, c, Reached) == (Create(PutBlob(u, c.blob), g, c).0, Some(Create(PutBlob(u, c.blob), g, c).1))
  {
  }

  lemma SameVersionsSameChain(t: Tables, u: Tables, v: VersionId)
    requires TablesOk(t) && TablesOk(u) && t.versions == u.versions
    ensures ChainIn(t, v) == ChainIn(u, v)
  {
    if v in t.versions { SameVersionsSameRows(t, u, t.versions[v].game); }
  }

  lemma SameVersionsSameRows(t: Tables, u: Tables, g: GameId)
    requires t.versions == u.versions
    ensures Rows(t, g) == Rows(u, g)
  {
  }

  /** It replays the parent's files and then its own archive. */
  lemma ExtendedReplay(rows: Versions, id: VersionId, row: Version, chain: seq<VersionId>)
    requires id !in rows && forall x :: x in chain ==> x in rows
    ensures HashContents(Replay(rows[id := row], chain + [id]))
        == ApplyHashes(HashContents(Replay(rows, chain)), row.blob)
  {
    SameReplay(rows, rows[id := row], chain);
    assert (chain + [id])[..|chain|] == chain;
    ApplyCommutes(Replay(rows, chain), row.blob);
  }

  lemma FreshFileDiffers(a: Hashes, b: Hashes, q: Path, h: Hash)
    requires q !in a && q !in b && a != b
    ensures a[q := h] != b[q := h]
  {
    assert a[q := h] - {q} == a && b[q := h] - {q} == b;
  }

  /** A version whose restore chain exists and replays to other files than its own. */
  ghost predicate Corrupt(t: Tables, v: VersionId)
    requires TablesOk(t)
  {
    && v in t.versions && ChainIn(t, v).Some?
    && var rows := Rows(t, t.versions[v].game);
       && (forall x :: x in ChainIn(t, v).value ==> x in rows)
       && HashContents(Replay(rows, ChainIn(t, v).value)) != HashesOf(t.versions[v].files)
  }

  /** If a confirmed base and its head disagree, adding one file to the base and
      backing up stores a corrupt version. */
  lemma DisagreementCorrupts(l: Local, u: Tables, device: DeviceId, g: GameId, h: VersionId, fullEvery: nat, at: nat)
    returns (job: Job)
    requires TablesOk(u) && RowsOk(u) && g in u.heads && h in Rows(u, g) && ChainIn(u, h).Some?
    requires g in l.snapshots && l.snapshots[g].head == Some(h) && g !in l.unconfirmed && PriorDiffs(l, g) < fullEvery
    requires HashesOf(u.versions[h].files) != HashesOf(l.snapshots[g].files)
    ensures job.game == g && job.hasPatterns
    ensures var r := Run(l, u, device, job, fullEvery, Reached, at);
      TablesOk(r.tables) && Corrupt(r.tables, u.nextId)
  {
    var q := LongerPath(l.snapshots[g].files.Keys + u.versions[h].files.Keys);
    assert q !in l.snapshots[g].files && q !in u.versions[h].files;
    job := Job(g, true, false, DiskOf(l.snapshots[g].files)[q := DiskFile("", 0)]);
    OneFileMisapplies(l, device, g, q, fullEvery, at, u.versions[h].files);
    MisappliedIsCorrupt(u, g, h, Prepare(l, device, job, fullEvery, at));
  }

  lemma ApplyOneFile(hashes: Hashes, a: Archive, q: Path)
    requires a.payload == map[q := ""] && a.deletions == {}
    ensures ApplyHashes(hashes, a) == hashes[q := Blake3("")]
  {
    assert HashContents(a.payload) == map[q := Blake3("")];
  }

  lemma OneFileMisapplies(l: Local, device: DeviceId, g: GameId, q: Path, fullEvery: nat, at: nat, files: FileSet)
    requires g in l.snapshots && l.snapshots[g].head.Some? && g !in l.unconfirmed && PriorDiffs(l, g) < fullEvery
    requires q !in l.snapshots[g].files && q !in files && HashesOf(files) != HashesOf(l.snapshots[g].files)
    ensures var job := Job(g, true, false, DiskOf(l.snapshots[g].files)[q := DiskFile("", 0)]);
      var c := Prepare(l, device, job, fullEvery, at);
      && !Skips(l, job) && c.kind == Differential && c.parent == l.snapshots[g].head
      && ApplyHashes(HashesOf(files), c.blob) != HashesOf(c.files)
  {
    var base := l.snapshots[g].files;
    OneFileDifferential(l, device, g, q, fullEvery, at);
    FreshFileDiffers(HashesOf(files), HashesOf(base), q, Blake3(""));
    var c := Prepare(l, device, Job(g, true, false, DiskOf(base)[q := DiskFile("", 0)]), fullEvery, at);
    ApplyOneFile(HashesOf(files), c.blob, q);
  }

  /** Uploading a differential whose archive does not turn the parent's files into
      the declared ones stores a corrupt version. */
  lemma MisappliedIsCorrupt(u: Tables, g: GameId, h: VersionId, c: CreateVersion)
    requires TablesOk(u) && RowsOk(u) && g in u.heads && h in Rows(u, g) && ChainIn(u, h).Some?
    requires c.parent == Some(h) && c.kind == Differential
    requires ApplyHashes(HashesOf(u.versions[h].files), c.blob) != HashesOf(c.files)
    ensures TablesOk(Send(u, g, c, Reached).0) && Corrupt(Send(u, g, c, Reached).0, u.nextId)
  {
    FaithfulIn(u, h);
    ExtendedChain(u, g, c, h);
    FreshId(u);
    ExtendedReplay(Rows(u, g), u.nextId, NewRow(u, g, c), ChainIn(u, h).value);
    assert u.nextId in Rows(Send(u, g, c, Reached).0, g);
  }

  /** The other half of `RetryKeepsAgreementIff`: after any accepted retry that was
      not safe, one more confirmed backup stores a version that restores to the
      wrong files. */
  lemma UnsafeDrainCorrupts(
    l: Local, t: Tables, device: DeviceId, key: nat, net: Net, now: int, fullEvery: nat, at: nat)
    returns (job: Job)
    requires TablesOk(t) && RowsOk(t) && LocalOk(t, l)
    requires (forall v :: v in t.versions ==> Unbroken(t, v)) && LocalUnbroken(t, l)
    requires key in l.outbox && !RetrySafe(l, key)
    requires Send(t, l.outbox[key].game, l.outbox[key].create, net).1.Some?
    requires PriorDiffs(l, l.outbox[key].game) < fullEvery
    ensures job.game == l.outbox[key].game && job.hasPatterns
    ensures var (m, u) := Retry(l, t, key, net, now);
      var r := Run(m, u, device, job, fullEvery, Reached, at);
      TablesOk(r.tables) && Corrupt(r.tables, u.nextId)
  {
    var g, entry := l.outbox[key].game, l.outbox[key].create;
    var (m, u) := Retry(l, t, key, net, now);
    assert RequestUnbroken(t, g, entry) && RequestOk(t, g, entry);
    SendUnbroken(t, l, g, entry, net);
    SendKeepsRows(t, g, entry, net);
    ReplyStored(t, g, entry, net);
    AllRestorable(u, t.nextId);
    job := DisagreementCorrupts(m, u, device, g, t.nextId, fullEvery, at);
  }
}

/** One backup among the micro-steps: alone it is one whole run, and the crash points
    between its writes are told apart (crates/savr-daemon/src/backup.rs). */
module Crashes {
  import opened Types
  import opened ServerTables
  import opened Chains
  import opened Backup
  import opened World
  import opened Lineage
  import opened Durability

  // ---- one backup alone is one run ----

  /** A backup begins and makes `n` writes, the upload counting as the first. */
  function BackupSteps(task: nat, device: DeviceId, job: Job, fullEvery: nat, net: Net, at: nat, n: nat): seq<MicroStep>
    decreases n
  {
    if n == 0 then [Begin(task, device, job, fullEvery, at)]
    else BackupSteps(task, device, job, fullEvery, net, at, n - 1) + [Proceed(task, net, at)]
  }

  lemma MicroSnoc(m: Machine, front: seq<MicroStep>, s: MicroStep)
    ensures MicroAll(m, front + [s]) == Micro(MicroAll(m, front), s)
  {
    assert (front + [s])[..|front|] == front;
  }

  /** The local tables after `n` writes of a backup that was not skipped. */
  function AfterWrites(
    l: Local, g: GameId, c: CreateVersion, reply: Option<Outcome>, prior: nat, now: nat, n: nat): Local
  {
    if n == 0 then l
    else if reply.None? then
      var queued := Enqueue(l, g, c, now);
      if n == 1 then queued
      else if n == 2 then PutSnapshot(queued, g, c.files, c.parent)
      else Settle(l, g, c, reply, prior, now).0
    else
      var moved := PutSnapshot(l, g, c.files, Some(ReplyId(reply)));
      if n == 1 then l
      else if n == 2 then moved
      else if n == 3 then SetUnconfirmed(moved, g, false)
      else Settle(l, g, c, reply, prior, now).0
  }

  ghost function TaskAfter(c: CreateVersion, reply: Option<Outcome>, prior: nat, n: nat): Task {
    if n == 0 then Packed(c, prior)
    else if reply.None? then
      if n == 1 then Enqueued(c) else if n == 2 then QueueBaseMoved(c) else Done(HashesOf(c.files))
    else
      var advanced := reply.value.FastForward?;
      if n == 1 then Answered(c, ReplyId(reply), advanced, prior)
      else if n == 2 then BaseMoved(c, advanced, prior)
      else if n == 3 then Confirmed(c, advanced, prior)
      else Done(HashesOf(c.files))
  }

  /** The machine after `n` writes of a task that started on `l` with create `c`. */
  ghost predicate Written(
    m: Machine, s: Machine, task: nat, c: CreateVersion, u: Tables, reply: Option<Outcome>, prior: nat, at: nat, n: nat)
  {
    && s.local == AfterWrites(m.local, GameOf(c), c, reply, prior, at, n)
    && s.tables == (if n == 0 then m.tables else u)
    && s.tasks == m.tasks[task := TaskAfter(c, reply, prior, n)] && s.drains == m.drains
  }

  lemma WritesAdvance(l: Local, c: CreateVersion, reply: Option<Outcome>, prior: nat, at: nat, n: nat)
    requires 0 < n < 4 && (reply.Some? ==> !reply.value.Rejected?)
    ensures var x := TaskAfter(c, reply, prior, n);
      && !x.Packed? && Next(x) == TaskAfter(c, reply, prior, n + 1)
      && Wrote(AfterWrites(l, GameOf(c), c, reply, prior, at, n), x)
         == AfterWrites(l, GameOf(c), c, reply, prior, at, n + 1)
  {
  }

  lemma FirstWrite(
    m: Machine, s: Machine, task: nat, c: CreateVersion, u: Tables, reply: Option<Outcome>, prior: nat, at: nat)
    requires (reply.Some? ==> !reply.value.Rejected?) && Written(m, s, task, c, u, reply, prior, at, 0)
    ensures Written(m, Asked(s, task, c, prior, u, reply, at), task, c, u, reply, prior, at, 1)
  {
    var x, y := TaskAfter(c, reply, prior, 0), TaskAfter(c, reply, prior, 1);
    assert m.tasks[task := x][task := y] == m.tasks[task := y];
  }

  lemma OneMoreWrite(
    m: Machine, s: Machine, task: nat, c: CreateVersion, u: Tables, reply: Option<Outcome>, net: Net,
    prior: nat, at: nat, n: nat)
    requires n < 4 && (reply.Some? ==> !reply.value.Rejected?) && Written(m, s, task, c, u, reply, prior, at, n)
    requires n == 0 ==> Send(m.tables, GameOf(c), c, net) == (u, reply)
    ensures Written(m, Micro(s, Proceed(task, net, at)), task, c, u, reply, prior, at, n + 1)
  {
    var x := TaskAfter(c, reply, prior, n);
    assert task in s.tasks && s.tasks[task] == x;
    if n == 0 {
      FirstWrite(m, s, task, c, u, reply, prior, at);
    } else {
      WritesAdvance(m.local, c, reply, prior, at, n);
      assert m.tasks[task := x][task := Next(x)] == m.tasks[task := Next(x)];
    }
  }

  lemma {:induction false} BackupAlone(
    m: Machine, task: nat, device: DeviceId, job: Job, fullEvery: nat, net: Net, at: nat, n: nat)
    requires task !in m.tasks && job.hasPatterns && !Skips(m.local, job) && n <= 4
    ensures var c := Prepare(m.local, device, job, fullEvery, at);
      var (u, reply) := Send(m.tables, job.game, c, net);
      Written(m, MicroAll(m, BackupSteps(task, device, job, fullEvery, net, at, n)), task, c, u, reply,
              PriorDiffs(m.local, job.game), at, n)
    decreases n
  {
    var c := Prepare(m.local, device, job, fullEvery, at);
    if n == 0 {
      MicroSnoc(m, [], Begin(task, device, job, fullEvery, at));
      assert [] + [Begin(task, device, job, fullEvery, at)] == [Begin(task, device, job, fullEvery, at)];
    } else {
      var front := BackupSteps(task, device, job, fullEvery, net, at, n - 1);
      BackupAlone(m, task, device, job, fullEvery, net, at, n - 1);
      MicroSnoc(m, front, Proceed(task, net, at));
      var (u, reply) := Send(m.tables, job.game, c, net);
      ReplyStored(m.tables, job.game, c, net);
      OneMoreWrite(m, MicroAll(m, front), task, c, u, reply, net, PriorDiffs(m.local, job.game), at, n - 1);
    }
  }

  /** A backup that begins and makes all its writes alone leaves exactly what one whole
      run leaves, and is done with the files it read. */
  lemma BackupAloneIsRun(
    m: Machine, task: nat, device: DeviceId, job: Job, fullEvery: nat, net: Net, at: nat)
    requires task !in m.tasks && job.hasPatterns
    ensures var s := MicroAll(m, BackupSteps(task, device, job, fullEvery, net, at, 4));
      var r := Run(m.local, m.tables, device, job, fullEvery, net, at);
      && s.local == r.local && s.tables == r.tables
      && s.tasks == m.tasks[task := Done(HashesOf(JobFiles(job)))] && s.drains == m.drains
  {
    if Skips(m.local, job) {
      SkippedAlone(m, task, device, job, fullEvery, net, at, 4);
    } else {
      BackupAlone(m, task, device, job, fullEvery, net, at, 4);
    }
  }

  /** A drain that retries one entry alone, write by write, leaves what one retry leaves. */
  lemma RetryAloneIsRetry(m: Machine, drain: nat, key: nat, net: Net, now: int)
    requires drain !in m.drains && key in m.local.outbox
    requires m.local.outbox[key].game == GameOf(m.local.outbox[key].create)
    ensures var p := ProceedDrain(drain, net, now);
      var (l, u) := Retry(m.local, m.tables, key, net, now);
      Micro(Micro(Micro(Micro(m, Fetch(drain, key)), p), p), p) == Machine(l, u, m.tasks, m.drains)
  {
    var c := m.local.outbox[key].create;
    var (u, reply) := Send(m.tables, GameOf(c), c, net);
    var a := Micro(m, Fetch(drain, key));
    var b := Micro(a, ProceedDrain(drain, net, now));
    if reply.Some? {
      ReplyStored(m.tables, GameOf(c), c, net);
      assert b.drains == m.drains[drain := Sent(key, c, ReplyId(reply))];
      DrainSent(b, drain, net, now);
    }
  }

  lemma DrainSent(m: Machine, drain: nat, net: Net, now: int)
    requires drain in m.drains && m.drains[drain].Sent? && m.drains[drain].key in m.local.outbox
    ensures var x, p := m.drains[drain], ProceedDrain(drain, net, now);
      Micro(Micro(m, p), p)
      == m.(local := RemoveOutbox(SetLocalHead(m.local, GameOf(x.create), x.id), x.key), drains := m.drains - {drain})
  {
  }

  lemma ProceedDone(m: Machine, task: nat, net: Net, at: nat)
    requires task in m.tasks && m.tasks[task].Done?
    ensures Micro(m, Proceed(task, net, at)) == m
  {
    assert m.tasks[task := m.tasks[task]] == m.tasks;
  }

  lemma {:induction false} SkippedAlone(
    m: Machine, task: nat, device: DeviceId, job: Job, fullEvery: nat, net: Net, at: nat, n: nat)
    requires task !in m.tasks && job.hasPatterns && Skips(m.local, job)
    ensures MicroAll(m, BackupSteps(task, device, job, fullEvery, net, at, n))
         == m.(tasks := m.tasks[task := Done(HashesOf(JobFiles(job)))])
    decreases n
  {
    if n == 0 {
      var none: seq<MicroStep>, begin := [], Begin(task, device, job, fullEvery, at);
      MicroSnoc(m, none, begin);
      assert none + [begin] == [begin];
    } else {
      var front := BackupSteps(task, device, job, fullEvery, net, at, n - 1);
      SkippedAlone(m, task, device, job, fullEvery, net, at, n - 1);
      MicroSnoc(m, front, Proceed(task, net, at));
      ProceedDone(MicroAll(m, front), task, net, at);
    }
  }

  // ---- what a crash does to the agreement of base and head ----

  /** The machine restarted after a crash between the writes of a lone backup. */
  ghost function CrashedAfter(
    m: Machine, task: nat, device: DeviceId, job: Job, fullEvery: nat, net: Net, at: nat, n: nat): Machine
  {
    MicroAll(m, BackupSteps(task, device, job, fullEvery, net, at, n) + [Crash])
  }

  /** The one bad point: the base of a confirmed game moved under the old head while
      queueing, and the flag not yet set. */
  ghost predicate CrashedMidQueue(
    m: Machine, device: DeviceId, job: Job, fullEvery: nat, net: Net, at: nat, n: nat)
  {
    var g, c := job.game, Prepare(m.local, device, job, fullEvery, at);
    var (u, reply) := Send(m.tables, g, c, net);
    && !Skips(m.local, job) && reply.None? && n == 2 && g !in m.local.unconfirmed
    && c.parent.Some? && c.parent.value in u.versions
    && HashesOf(u.versions[c.parent.value].files) != HashesOf(c.files)
  }

  lemma CrashedState(
    m: Machine, task: nat, device: DeviceId, job: Job, fullEvery: nat, net: Net, at: nat, n: nat)
    requires task !in m.tasks && job.hasPatterns && n <= 4
    ensures var s := CrashedAfter(m, task, device, job, fullEvery, net, at, n);
      var c := Prepare(m.local, device, job, fullEvery, at);
      var (u, reply) := Send(m.tables, job.game, c, net);
      && s.tasks == map[] && s.drains == map[]
      && s.local == (if Skips(m.local, job) then m.local
                     else AfterWrites(m.local, job.game, c, reply, PriorDiffs(m.local, job.game), at, n))
      && s.tables == (if Skips(m.local, job) || n == 0 then m.tables else u)
  {
    var steps := BackupSteps(task, device, job, fullEvery, net, at, n);
    MicroSnoc(m, steps, Crash);
    if Skips(m.local, job) {
      SkippedAlone(m, task, device, job, fullEvery, net, at, n);
    } else {
      BackupAlone(m, task, device, job, fullEvery, net, at, n);
    }
  }

  /** Exactly which crash points between the writes of one backup leave the device
      with a base that disagrees with its head. */
  lemma CrashKeepsAgreementIff(
    m: Machine, task: nat, device: DeviceId, job: Job, fullEvery: nat, net: Net, at: nat, n: nat)
    requires TablesOk(m.tables) && RowsOk(m.tables) && LocalOk(m.tables, m.local)
    requires task !in m.tasks && job.hasPatterns && n <= 4
    ensures var s := CrashedAfter(m, task, device, job, fullEvery, net, at, n);
      LocalOk(s.tables, s.local) <==> !CrashedMidQueue(m, device, job, fullEvery, net, at, n)
  {
    CrashedState(m, task, device, job, fullEvery, net, at, n);
    if !Skips(m.local, job) && n > 0 {
      var g, c := job.game, Prepare(m.local, device, job, fullEvery, at);
      var (u, reply) := Send(m.tables, g, c, net);
      PrepareOk(m.tables, m.local, device, job, fullEvery, at);
      SendExtends(m.tables, g, c, net);
      LocalExtends(m.tables, u, m.local);
      RequestExtends(m.tables, u, g, c);
      ReplyStored(m.tables, g, c, net);
      WritesAgreeIff(u, m.local, g, c, reply, PriorDiffs(m.local, g), at, n);
    }
  }

  lemma WritesAgreeIff(
    u: Tables, l: Local, g: GameId, c: CreateVersion, reply: Option<Outcome>, prior: nat, now: nat, n: nat)
    requires LocalOk(u, l) && RequestOk(u, g, c) && 0 < n <= 4
    requires reply.Some? ==>
      && !reply.value.Rejected? && ReplyId(reply) < u.nextId && ReplyId(reply) in u.versions
      && u.versions[ReplyId(reply)].game == g && u.versions[ReplyId(reply)].files == c.files
    ensures LocalOk(u, AfterWrites(l, g, c, reply, prior, now, n)) <==>
      !(reply.None? && n == 2 && g !in l.unconfirmed && c.parent.Some? && c.parent.value in u.versions
        && HashesOf(u.versions[c.parent.value].files) != HashesOf(c.files))
  {
    if reply.None? {
      EnqueueOk(u, l, g, c, now);
      if n == 2 { PutFlagged(u, Enqueue(l, g, c, now), g, c.files, c.parent); }
      if n > 2 { SettleOk(u, l, g, c, reply, prior, now); }
    } else if n == 2 {
      PutFlagged(u, l, g, c.files, Some(ReplyId(reply)));
    } else if n == 3 {
      PutOk(u, l, g, c.files, Some(ReplyId(reply)), false);
    } else if n == 4 {
      SettleOk(u, l, g, c, reply, prior, now);
    }
  }

  lemma PutFlagged(u: Tables, l: Local, g: GameId, files: FileSet, head: Option<VersionId>)
    requires LocalOk(u, l)
    requires head.Some? ==> head.value < u.nextId && (head.value in u.versions ==> u.versions[head.value].game == g)
    ensures LocalOk(u, PutSnapshot(l, g, files, head)) <==>
      || head.None? || head.value !in u.versions || g in l.unconfirmed
      || HashesOf(u.versions[head.value].files) == HashesOf(files)
  {
    var m := PutSnapshot(l, g, files, head);
    forall k | k in m.snapshots && k != g ensures BaseOk(u, m, k) { assert BaseOk(u, l, k); }
    assert OutboxOk(u, m) by { assert OutboxOk(u, l); }
    assert LocalOk(u, m) <==> BaseOk(u, m, g);
  }

  /** And that point does harm, though every byte is still kept: restarted, one confirmed
      backup stores a version that restores to the wrong files. */
  lemma CrashMidQueueCorrupts(
    m: Machine, task: nat, device: DeviceId, job: Job, fullEvery: nat, net: Net, at: nat, next: nat, later: nat)
    returns (harm: Job)
    requires TablesOk(m.tables) && RowsOk(m.tables) && LocalOk(m.tables, m.local)
    requires task !in m.tasks && job.hasPatterns && CrashedMidQueue(m, device, job, fullEvery, net, at, 2)
    requires job.game in m.tables.heads && PriorDiffs(m.local, job.game) < fullEvery
    requires ChainIn(m.tables, ParentOf(m.local, job.game).value).Some?
    ensures harm.game == job.game && harm.hasPatterns
    ensures var s := CrashedAfter(m, task, device, job, fullEvery, net, at, 2);
      var t := MicroAll(s, BackupSteps(next, device, harm, fullEvery, Reached, later, 4)).tables;
      TablesOk(t) && Corrupt(t, s.tables.nextId)
  {
    var g, c := job.game, Prepare(m.local, device, job, fullEvery, at);
    var s := CrashedAfter(m, task, device, job, fullEvery, net, at, 2);
    CrashedState(m, task, device, job, fullEvery, net, at, 2);
    PrepareOk(m.tables, m.local, device, job, fullEvery, at);
    SendKeepsRows(m.tables, g, c, net);
    assert c.parent.value in m.tables.versions;
    SendKeepsChain(m.tables, g, c, net, c.parent.value);
    assert g in s.tables.heads && c.parent.value in Rows(s.tables, g) by { assert BaseOk(m.tables, m.local, g); }
    harm := DisagreementCorrupts(s.local, s.tables, device, g, c.parent.value, fullEvery, later);
    BackupAloneIsRun(s, next, device, harm, fullEvery, Reached, later);
  }
}

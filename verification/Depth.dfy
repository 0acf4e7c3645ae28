/** How many differentials a restore chain can hold.  The periodic full is there to cap
    it; which steps keep the cap is settled exactly, and two ways past it are followed
    all the way: differentials on a branch, and restores that fail after their
    pre-restore backup (crates/savr-daemon/src/backup.rs). */
module Depth {
  import opened Types
  import opened ServerTables
  import opened Chains
  import opened Pruning
  import opened Backup
  import opened World
  import opened Restore
  import opened Lineage

  /** At most `n` differentials after the full, if the chain exists. */
  predicate Within(chain: Option<seq<VersionId>>, n: nat) {
    chain.Some? ==> |chain.value| <= n + 1
  }

  ghost predicate HeadWithin(t: Tables, l: Local, g: GameId)
    requires TablesOk(t) && g in l.snapshots
  {
    l.snapshots[g].head.Some? && g !in l.unconfirmed ==>
      Within(ChainIn(t, l.snapshots[g].head.value), PriorDiffs(l, g))
  }

  /** A child of the end of `chain` has at most `n` differentials. */
  predicate Room(chain: Option<seq<VersionId>>, n: nat) {
    chain.Some? ==> |chain.value| <= n
  }

  ghost predicate RequestWithin(t: Tables, c: CreateVersion, most: nat)
    requires TablesOk(t)
  {
    c.kind == Differential && c.parent.Some? ==> Room(ChainIn(t, c.parent.value), most)
  }

  /** The depth of a confirmed head never exceeds the counter, the counter never
      exceeds the cap, and queued differentials leave room for themselves. */
  ghost predicate LocalDepth(t: Tables, l: Local, most: nat)
    requires TablesOk(t)
  {
    && (forall g :: g in l.snapshots ==> HeadWithin(t, l, g))
    && (forall g :: g in l.diffCount ==> l.diffCount[g] <= most)
    && (forall k :: k in l.outbox ==> RequestWithin(t, l.outbox[k].create, most))
  }

  ghost predicate Capped(t: Tables, most: nat)
    requires TablesOk(t)
  {
    forall v :: v in t.versions ==> Within(ChainIn(t, v), most)
  }

  /** Chains of versions known before stay or disappear. */
  ghost predicate ChainsStay(t: Tables, u: Tables)
    requires TablesOk(t) && TablesOk(u)
  {
    forall v: VersionId :: v < t.nextId ==> ChainIn(u, v) == ChainIn(t, v) || ChainIn(u, v) == None
  }

  lemma LocalDepthStays(t: Tables, u: Tables, l: Local, most: nat)
    requires TablesOk(t) && TablesOk(u) && ChainsStay(t, u) && LocalOk(t, l) && LocalDepth(t, l, most)
    ensures LocalDepth(u, l, most)
  {
    forall g | g in l.snapshots ensures HeadWithin(u, l, g) { assert HeadWithin(t, l, g) && BaseOk(t, l, g); }
    forall k | k in l.outbox ensures RequestWithin(u, l.outbox[k].create, most) {
      assert RequestWithin(t, l.outbox[k].create, most) && RequestOk(t, l.outbox[k].game, l.outbox[k].create);
    }
  }

  lemma CreateDepth(t: Tables, g: GameId, c: CreateVersion, most: nat)
    requires TablesOk(t) && Capped(t, most) && RequestOk(t, g, c) && RequestWithin(t, c, most)
    ensures var u := Create(t, g, c).0;
      && TablesOk(u) && ChainsStay(t, u) && Capped(u, most)
      && (Create(t, g, c).1 != Rejected ==>
            && (c.kind == Full ==> Within(ChainIn(u, t.nextId), 0))
            && (c.kind == Differential ==> ChainIn(u, t.nextId) == Extend(ChainIn(t, c.parent.value), t.nextId)))
  {
    CreateKeepsTables(t, g, c);
    var u := Create(t, g, c).0;
    if Accepts(t, g, c) {
      ChainInCreate(t, g, c, t.nextId);
      forall v: VersionId | v < t.nextId ensures ChainIn(u, v) == ChainIn(t, v) || ChainIn(u, v) == None {
        if v in t.versions { ChainInCreate(t, g, c, v); }
      }
      forall v | v in u.versions ensures Within(ChainIn(u, v), most) {
        if v in t.versions { assert Within(ChainIn(t, v), most); }
      }
    }
  }

  /** Exactly when an upload is answered. */
  predicate Answers(t: Tables, g: GameId, c: CreateVersion, net: Net) {
    net == Reached && g in t.heads && (c.parent.Some? ==> c.parent.value in t.versions)
  }

  lemma PutBlobDepth(t: Tables, a: Archive, most: nat)
    requires TablesOk(t) && Capped(t, most)
    ensures TablesOk(PutBlob(t, a)) && Capped(PutBlob(t, a), most)
    ensures forall v: VersionId :: ChainIn(PutBlob(t, a), v) == ChainIn(t, v)
  {
    var p := PutBlob(t, a);
    PutBlobKeeps(t, a);
    forall v: VersionId ensures ChainIn(p, v) == ChainIn(t, v) { SameVersionsSameChain(t, p, v); }
    forall v | v in p.versions ensures Within(ChainIn(p, v), most) { assert Within(ChainIn(t, v), most); }
  }

  lemma SendDepth(t: Tables, g: GameId, c: CreateVersion, net: Net, most: nat)
    requires TablesOk(t) && Capped(t, most) && RequestOk(t, g, c) && RequestWithin(t, c, most)
    ensures var u := Send(t, g, c, net).0; TablesOk(u) && ChainsStay(t, u) && Capped(u, most)
  {
    var p := PutBlob(t, c.blob);
    match net
    case Offline => SameTablesStay(t);
    case BlobOnly => PutBlobDepth(t, c.blob, most);
    case _ =>
      PutBlobDepth(t, c.blob, most);
      PutBlobRows(t, c.blob, g, c);
      CreateDepth(p, g, c, most);
      StayFrom(t, p, Create(p, g, c).0);
  }

  lemma StayFrom(t: Tables, p: Tables, u: Tables)
    requires TablesOk(t) && TablesOk(p) && TablesOk(u) && p.nextId == t.nextId && ChainsStay(p, u)
    requires forall v: VersionId :: ChainIn(p, v) == ChainIn(t, v)
    ensures ChainsStay(t, u)
  {
  }

  /** The chain of an upload that was answered. */
  lemma ReplyChain(t: Tables, g: GameId, c: CreateVersion, net: Net)
    requires TablesOk(t) && RequestOk(t, g, c)
    ensures var (u, reply) := Send(t, g, c, net);
      && TablesOk(u)
      && (reply.Some? <==> Answers(t, g, c, net))
      && (reply.Some? ==>
            && !reply.value.Rejected?
            && (reply.value.FastForward? <==> t.heads[g] == c.parent)
            && (c.kind == Full ==> ChainIn(u, ReplyId(reply)) == Some([ReplyId(reply)]))
            && (c.kind == Differential ==>
                  ChainIn(u, ReplyId(reply)) == Extend(ChainIn(t, c.parent.value), ReplyId(reply))))
  {
    var p := PutBlob(t, c.blob);
    SendKeeps(t, g, c, net);
    AnswersIff(t, g, c, net);
    if Answers(t, g, c, net) {
      assert TablesOk(p) by { PutBlobKeeps(t, c.blob); }
      ReachedIsCreate(t, g, c);
      CreateKeepsTables(p, g, c);
      ChainInCreate(p, g, c, t.nextId);
      if c.parent.Some? { SameVersionsSameChain(t, p, c.parent.value); }
    }
  }

  lemma AnswersIff(t: Tables, g: GameId, c: CreateVersion, net: Net)
    ensures Send(t, g, c, net).1.Some? <==> Answers(t, g, c, net)
  {
  }

  // ---- one backup ----

  /** Exactly which backups keep the cap: any but a differential; a differential that
      fast-forwards, while the counter is below the cap; one that lands on a branch,
      while its parent is less deep than the counter; and one that gets no answer,
      while its parent is less deep than the cap. */
  ghost predicate BackUpFits(
    l: Local, t: Tables, d: DeviceId, job: Job, fullEvery: nat, net: Net, at: nat, most: nat)
    requires TablesOk(t)
  {
    var g, c := job.game, Prepare(l, d, job, fullEvery, at);
    !Skips(l, job) && c.kind == Differential ==>
      if !Answers(t, g, c, net) then RequestWithin(t, c, most)
      else if t.heads[g] == c.parent then PriorDiffs(l, g) < most
      else RequestWithin(t, c, PriorDiffs(l, g))
  }

  /** A differential whose parent holds `n`, no more than the counter says, leaves the
      head's depth within the counter exactly if it fast-forwards or `n` was below it. */
  lemma RepliedDiffKeepsDepthIff(
    u: Tables, l: Local, g: GameId, c: CreateVersion, reply: Option<Outcome>, now: nat, n: nat)
    requires TablesOk(u) && reply.Some? && !reply.value.Rejected? && c.kind == Differential
    requires ChainIn(u, ReplyId(reply)).Some? && |ChainIn(u, ReplyId(reply)).value| == n + 2
    requires n <= PriorDiffs(l, g)
    ensures HeadWithin(u, Settle(l, g, c, reply, PriorDiffs(l, g), now).0, g) <==>
      reply.value.FastForward? || n < PriorDiffs(l, g)
  {
  }

  lemma RunDepthIff(
    l: Local, t: Tables, d: DeviceId, job: Job, fullEvery: nat, net: Net, at: nat, most: nat)
    requires TablesOk(t) && RowsOk(t) && LocalOk(t, l) && Capped(t, most) && LocalDepth(t, l, most)
    ensures var r := Run(l, t, d, job, fullEvery, net, at);
      && TablesOk(r.tables) && ChainsStay(t, r.tables)
      && (Capped(r.tables, most) && LocalDepth(r.tables, r.local, most) <==>
          BackUpFits(l, t, d, job, fullEvery, net, at, most))
  {
    if Skips(l, job) {
      SameTablesStay(t);
    } else {
      var c := Prepare(l, d, job, fullEvery, at);
      PrepareOk(t, l, d, job, fullEvery, at);
      assert c.kind == Differential ==> Within(ChainIn(t, c.parent.value), PriorDiffs(l, job.game)) by {
        if c.kind == Differential { assert HeadWithin(t, l, job.game); }
      }
      UploadDepthIff(l, t, job.game, c, net, at, most);
    }
  }

  lemma UploadDepthIff(l: Local, t: Tables, g: GameId, c: CreateVersion, net: Net, at: nat, most: nat)
    requires TablesOk(t) && LocalOk(t, l) && Capped(t, most) && LocalDepth(t, l, most) && RequestOk(t, g, c)
    requires c.kind == Differential ==> Within(ChainIn(t, c.parent.value), PriorDiffs(l, g))
    ensures var (u, reply) := Send(t, g, c, net);
      var m := Settle(l, g, c, reply, PriorDiffs(l, g), at).0;
      && TablesOk(u) && ChainsStay(t, u)
      && (Capped(u, most) && LocalDepth(u, m, most) <==>
          (c.kind == Differential ==>
             if !Answers(t, g, c, net) then RequestWithin(t, c, most)
             else if t.heads[g] == c.parent then PriorDiffs(l, g) < most
             else RequestWithin(t, c, PriorDiffs(l, g))))
  {
    var (u, reply) := Send(t, g, c, net);
    ReplyChain(t, g, c, net);
    SendStays(t, g, c, net);
    LocalDepthStays(t, u, l, most);
    SendCappedIff(t, g, c, net, most);
    if reply.Some? {
      AnsweredDepthIff(t, u, l, g, c, reply, at, most);
    } else {
      if c.parent.Some? && c.parent.value !in t.versions { assert ChainIn(u, c.parent.value) == None; }
      QueuedDepthIff(t, u, l, g, c, PriorDiffs(l, g), at, most);
    }
  }

  lemma SendStays(t: Tables, g: GameId, c: CreateVersion, net: Net)
    requires TablesOk(t)
    ensures var u := Send(t, g, c, net).0;
      && TablesOk(u) && ChainsStay(t, u)
      && forall v :: v in t.versions ==> v in u.versions && ChainIn(u, v) == ChainIn(t, v)
  {
    var u := Send(t, g, c, net).0;
    SendKeeps(t, g, c, net);
    SendExtends(t, g, c, net);
    forall v | v in t.versions ensures v in u.versions && ChainIn(u, v) == ChainIn(t, v) {
      SendKeepsChain(t, g, c, net, v);
    }
  }

  /** An upload keeps the cap on the server exactly if it is not stored, or leaves room. */
  lemma SendCappedIff(t: Tables, g: GameId, c: CreateVersion, net: Net, most: nat)
    requires TablesOk(t) && Capped(t, most) && RequestOk(t, g, c)
    ensures var u := Send(t, g, c, net).0;
      && TablesOk(u)
      && (RequestWithin(t, c, most) ==> Capped(u, most))
      && (Answers(t, g, c, net) && Capped(u, most) ==> RequestWithin(t, c, most))
  {
    SendKeeps(t, g, c, net);
    if RequestWithin(t, c, most) { SendDepth(t, g, c, net, most); }
    if Answers(t, g, c, net) && Capped(Send(t, g, c, net).0, most) {
      ReplyChain(t, g, c, net);
      ReplyStored(t, g, c, net);
      assert Within(ChainIn(Send(t, g, c, net).0, t.nextId), most);
    }
  }

  /** The counter and the head after an answered upload. */
  lemma AnsweredDepthIff(
    t: Tables, u: Tables, l: Local, g: GameId, c: CreateVersion, reply: Option<Outcome>, now: nat, most: nat)
    requires TablesOk(t) && TablesOk(u) && LocalDepth(u, l, most) && reply.Some? && !reply.value.Rejected?
    requires c.kind == Full ==> ChainIn(u, ReplyId(reply)) == Some([ReplyId(reply)])
    requires c.kind == Differential ==>
      && c.parent.Some?
      && ChainIn(u, ReplyId(reply)) == Extend(ChainIn(t, c.parent.value), ReplyId(reply))
      && Within(ChainIn(t, c.parent.value), PriorDiffs(l, g))
    ensures LocalDepth(u, Settle(l, g, c, reply, PriorDiffs(l, g), now).0, most) <==>
      (c.kind == Differential ==>
         if reply.value.FastForward? then PriorDiffs(l, g) < most else RequestWithin(t, c, PriorDiffs(l, g)))
  {
    var prior, m := PriorDiffs(l, g), Settle(l, g, c, reply, PriorDiffs(l, g), now).0;
    OthersKeepDepth(u, l, m, g, most);
    AnsweredHeadIff(t, u, l, g, c, reply, now);
    assert prior <= most by { if g in l.diffCount { assert l.diffCount[g] <= most; } }
  }

  lemma AnsweredHeadIff(
    t: Tables, u: Tables, l: Local, g: GameId, c: CreateVersion, reply: Option<Outcome>, now: nat)
    requires TablesOk(t) && TablesOk(u) && reply.Some? && !reply.value.Rejected?
    requires c.kind == Full ==> ChainIn(u, ReplyId(reply)) == Some([ReplyId(reply)])
    requires c.kind == Differential ==>
      && c.parent.Some?
      && ChainIn(u, ReplyId(reply)) == Extend(ChainIn(t, c.parent.value), ReplyId(reply))
      && Within(ChainIn(t, c.parent.value), PriorDiffs(l, g))
    ensures HeadWithin(u, Settle(l, g, c, reply, PriorDiffs(l, g), now).0, g) <==>
      (c.kind == Differential && !reply.value.FastForward? ==> RequestWithin(t, c, PriorDiffs(l, g)))
  {
    if c.kind == Differential && ChainIn(t, c.parent.value).Some? {
      ChainNotEmpty(t, c.parent.value);
      RepliedDiffKeepsDepthIff(u, l, g, c, reply, now, |ChainIn(t, c.parent.value).value| - 1);
    }
  }

  lemma ChainNotEmpty(t: Tables, v: VersionId)
    requires TablesOk(t)
    ensures ChainIn(t, v).Some? ==> ChainIn(t, v).value != []
  {
  }

  /** Games other than `g` and all queued entries stay as deep as they were. */
  lemma OthersKeepDepth(u: Tables, l: Local, m: Local, g: GameId, most: nat)
    requires TablesOk(u) && LocalDepth(u, l, most) && m.outbox == l.outbox && m.snapshots.Keys == l.snapshots.Keys + {g}
    requires forall k :: k in l.snapshots && k != g ==> m.snapshots[k] == l.snapshots[k]
    requires forall k :: k != g ==> PriorDiffs(m, k) == PriorDiffs(l, k) && (k in m.unconfirmed <==> k in l.unconfirmed)
    requires forall k :: k in m.diffCount ==> k == g || (k in l.diffCount && m.diffCount[k] == l.diffCount[k])
    ensures LocalDepth(u, m, most) <==> HeadWithin(u, m, g) && (g in m.diffCount ==> m.diffCount[g] <= most)
  {
    forall k | k in m.snapshots && k != g ensures HeadWithin(u, m, k) { assert HeadWithin(u, l, k); }
    forall k | k in m.outbox ensures RequestWithin(u, m.outbox[k].create, most) {
      assert RequestWithin(u, l.outbox[k].create, most);
    }
  }

  /** A queued upload leaves the head unconfirmed; only its own entry counts. */
  lemma QueuedDepthIff(
    t: Tables, u: Tables, l: Local, g: GameId, c: CreateVersion, prior: nat, now: nat, most: nat)
    requires TablesOk(t) && TablesOk(u) && LocalDepth(u, l, most) && forall k :: k in l.outbox ==> k < l.nextKey
    requires c.parent.Some? ==> ChainIn(u, c.parent.value) == ChainIn(t, c.parent.value)
    ensures LocalDepth(u, Settle(l, g, c, None, prior, now).0, most) <==> RequestWithin(t, c, most)
  {
    var m := Settle(l, g, c, None, prior, now).0;
    assert m.outbox[l.nextKey].create == c;
    assert RequestWithin(u, c, most) <==> RequestWithin(t, c, most);
    forall k | k in m.snapshots ensures HeadWithin(u, m, k) {
      if k != g { assert HeadWithin(u, l, k); }
    }
    forall k | k in m.outbox && k != l.nextKey ensures RequestWithin(u, m.outbox[k].create, most) {
      assert RequestWithin(u, l.outbox[k].create, most);
    }
  }

  // ---- one drained entry ----

  /** Exactly which retries keep the cap: any that is not answered, or whose game is
      unconfirmed or has no base, and else one whose depth the counter covers. */
  ghost predicate DrainFits(l: Local, t: Tables, key: nat, net: Net)
    requires TablesOk(t)
  {
    key in l.outbox ==>
      var g, c := l.outbox[key].game, l.outbox[key].create;
      !Answers(t, g, c, net) || g !in l.snapshots || g in l.unconfirmed || RequestWithin(t, c, PriorDiffs(l, g))
  }

  lemma RetryDepthIff(l: Local, t: Tables, key: nat, net: Net, now: int, most: nat)
    requires TablesOk(t) && RowsOk(t) && LocalOk(t, l) && Capped(t, most) && LocalDepth(t, l, most)
    ensures var (m, u) := Retry(l, t, key, net, now);
      && TablesOk(u) && ChainsStay(t, u)
      && (Capped(u, most) && LocalDepth(u, m, most) <==> DrainFits(l, t, key, net))
  {
    if key in l.outbox {
      var g, c := l.outbox[key].game, l.outbox[key].create;
      assert RequestWithin(t, c, most) && RequestOk(t, g, c);
      var (u, reply) := Send(t, g, c, net);
      SendDepth(t, g, c, net, most);
      ReplyChain(t, g, c, net);
      LocalDepthStays(t, u, l, most);
      SettleRetryDepthIff(t, u, l, key, reply, now, most);
    } else {
      SameTablesStay(t);
    }
  }

  lemma SettleRetryDepthIff(t: Tables, u: Tables, l: Local, key: nat, reply: Option<Outcome>, now: int, most: nat)
    requires TablesOk(t) && TablesOk(u) && LocalDepth(u, l, most) && key in l.outbox
    requires reply.Some? ==>
      var c := l.outbox[key].create;
      && !reply.value.Rejected?
      && (c.kind == Full ==> ChainIn(u, ReplyId(reply)) == Some([ReplyId(reply)]))
      && (c.kind == Differential ==>
            c.parent.Some? && ChainIn(u, ReplyId(reply)) == Extend(ChainIn(t, c.parent.value), ReplyId(reply)))
    ensures var g, c := l.outbox[key].game, l.outbox[key].create;
      LocalDepth(u, SettleRetry(l, key, reply, now), most) <==>
        reply.None? || g !in l.snapshots || g in l.unconfirmed || RequestWithin(t, c, PriorDiffs(l, g))
  {
    var m, g := SettleRetry(l, key, reply, now), l.outbox[key].game;
    forall k | k in m.snapshots && (k != g || reply.None?) ensures HeadWithin(u, m, k) { assert HeadWithin(u, l, k); }
    forall k | k in m.outbox ensures RequestWithin(u, m.outbox[k].create, most) {
      assert RequestWithin(u, l.outbox[k].create, most) && m.outbox[k].create == l.outbox[k].create;
    }
    if reply.Some? && g in l.snapshots {
      assert LocalDepth(u, m, most) <==> HeadWithin(u, m, g);
    }
  }

  // ---- runs ----

  /** Exactly which restores keep the cap: those whose target is no deeper than the
      counter says, or whose game is unconfirmed anyway. */
  ghost predicate AdoptFits(l: Local, t: Tables, g: GameId, target: VersionId)
    requires TablesOk(t)
  {
    target in Rows(t, g) && g !in l.unconfirmed ==> Within(ChainIn(t, target), PriorDiffs(l, g))
  }

  ghost predicate Fits(w: World, e: Event, most: nat)
    requires TablesOk(w.tables)
  {
    match e
    case BackUp(d, job, fullEvery, net, at) => BackUpFits(LocalOf(w, d), w.tables, d, job, fullEvery, net, at, most)
    case Drain(d, key, net, now) => DrainFits(LocalOf(w, d), w.tables, key, net)
    case Adopt(d, g, target) => AdoptFits(LocalOf(w, d), w.tables, g, target)
    case _ => true
  }

  ghost predicate Shallow(w: World, most: nat) {
    Inv(w) && Capped(w.tables, most) && forall d :: d in w.locals ==> LocalDepth(w.tables, w.locals[d], most)
  }

  lemma ShallowUpdate(w: World, u: Tables, locals: map<DeviceId, Local>, most: nat)
    requires Shallow(w, most) && Inv(World(u, locals)) && ChainsStay(w.tables, u) && Capped(u, most)
    requires forall d :: d in locals ==> (d in w.locals && locals[d] == w.locals[d]) || LocalDepth(u, locals[d], most)
    ensures Shallow(World(u, locals), most)
  {
    forall d | d in locals ensures LocalDepth(u, locals[d], most) {
      if d in w.locals { LocalDepthStays(w.tables, u, w.locals[d], most); }
    }
  }

  lemma SameVersionsStay(t: Tables, u: Tables, most: nat)
    requires TablesOk(t) && TablesOk(u) && t.versions == u.versions && Capped(t, most)
    ensures ChainsStay(t, u) && Capped(u, most)
  {
    forall v: VersionId ensures ChainIn(u, v) == ChainIn(t, v) { SameVersionsSameChain(t, u, v); }
    forall v | v in u.versions ensures Within(ChainIn(u, v), most) { assert Within(ChainIn(t, v), most); }
  }

  lemma PruneDepth(t: Tables, g: GameId, ret: Retention, most: nat)
    requires TablesOk(t) && TablesOk(Prune(t, g, ret)) && Capped(t, most)
    ensures ChainsStay(t, Prune(t, g, ret)) && Capped(Prune(t, g, ret), most)
  {
    forall v: VersionId { ChainInPrune(t, g, ret, v); }
    assert Prune(t, g, ret).versions.Keys <= t.versions.Keys;
    StayCapped(t, Prune(t, g, ret), most);
  }

  lemma StayCapped(t: Tables, u: Tables, most: nat)
    requires TablesOk(t) && TablesOk(u) && Capped(t, most) && ChainsStay(t, u) && u.versions.Keys <= t.versions.Keys
    ensures Capped(u, most)
  {
    forall v | v in u.versions ensures Within(ChainIn(u, v), most) {
      assert RowOk(t, v) && Within(ChainIn(t, v), most);
    }
  }

  lemma AdoptDepthIff(l: Local, t: Tables, g: GameId, target: VersionId, most: nat)
    requires TablesOk(t) && LocalDepth(t, l, most)
    ensures LocalDepth(t, AdoptVersion(l, t, g, target), most) <==> AdoptFits(l, t, g, target)
  {
    RowsAcyclic(t, g);
    var m := AdoptVersion(l, t, g, target);
    if Chain(Rows(t, g), target).Some? {
      assert target in Rows(t, g) && ChainIn(t, target) == Chain(Rows(t, g), target);
      OthersKeepDepth(t, l, m, g, most);
    } else {
      assert target in Rows(t, g) ==> ChainIn(t, target) == None;
    }
  }

  lemma SameTablesStay(t: Tables)
    requires TablesOk(t)
    ensures ChainsStay(t, t)
  {
  }

  /** A step of one device keeps the cap exactly if it does on the server and for it. */
  lemma LocalStepDepthIff(w: World, d: DeviceId, u: Tables, m: Local, most: nat)
    requires Shallow(w, most) && TablesOk(u) && ChainsStay(w.tables, u) && Inv(World(u, w.locals[d := m]))
    ensures Shallow(World(u, w.locals[d := m]), most) <==> Capped(u, most) && LocalDepth(u, m, most)
  {
    assert w.locals[d := m][d] == m;
    if Capped(u, most) && LocalDepth(u, m, most) {
      ShallowUpdate(w, u, w.locals[d := m], most);
    }
  }

  lemma LocalIsShallow(w: World, d: DeviceId, most: nat)
    requires Shallow(w, most)
    ensures LocalOk(w.tables, LocalOf(w, d)) && LocalDepth(w.tables, LocalOf(w, d), most)
  {
  }

  lemma BackUpKeepsShallowIff(
    w: World, d: DeviceId, job: Job, fullEvery: nat, net: Net, at: nat, most: nat)
    requires var e := BackUp(d, job, fullEvery, net, at); Shallow(w, most) && Inv(Step(w, e))
    ensures var e := BackUp(d, job, fullEvery, net, at); Shallow(Step(w, e), most) <==> Fits(w, e, most)
  {
    LocalIsShallow(w, d, most);
    BackUpStep(w, d, job, fullEvery, net, at);
    RunDepthIff(LocalOf(w, d), w.tables, d, job, fullEvery, net, at, most);
    var r := Run(LocalOf(w, d), w.tables, d, job, fullEvery, net, at);
    LocalStepDepthIff(w, d, r.tables, r.local, most);
  }

  lemma DrainKeepsShallowIff(w: World, d: DeviceId, key: nat, net: Net, now: int, most: nat)
    requires var e := Drain(d, key, net, now); Shallow(w, most) && Inv(Step(w, e))
    ensures var e := Drain(d, key, net, now); Shallow(Step(w, e), most) <==> Fits(w, e, most)
  {
    LocalIsShallow(w, d, most);
    RetryDepthIff(LocalOf(w, d), w.tables, key, net, now, most);
    var (m, u) := Retry(LocalOf(w, d), w.tables, key, net, now);
    DrainStep(w, d, key, net, now);
    LocalStepDepthIff(w, d, u, m, most);
  }

  lemma AdoptKeepsShallowIff(w: World, d: DeviceId, g: GameId, target: VersionId, most: nat)
    requires var e := Adopt(d, g, target); Shallow(w, most) && Inv(Step(w, e))
    ensures var e := Adopt(d, g, target); Shallow(Step(w, e), most) <==> Fits(w, e, most)
  {
    LocalIsShallow(w, d, most);
    AdoptStep(w, d, g, target);
    AdoptDepthIff(LocalOf(w, d), w.tables, g, target, most);
    SameTablesStay(w.tables);
    LocalStepDepthIff(w, d, w.tables, AdoptVersion(LocalOf(w, d), w.tables, g, target), most);
  }

  lemma GcKeepsShallow(w: World, g: GameId, ret: Retention, most: nat)
    requires Shallow(w, most) && Inv(Step(w, Gc(g, ret)))
    ensures Shallow(Step(w, Gc(g, ret)), most)
  {
    GcStep(w, g, ret);
    TablesKeepShallow(w, Prune(w.tables, g, ret), w.tables, g, ret, most);
  }

  lemma TablesKeepShallow(w: World, u: Tables, t: Tables, g: GameId, ret: Retention, most: nat)
    requires Shallow(w, most) && Inv(World(u, w.locals)) && t == w.tables && u == Prune(t, g, ret)
    ensures Shallow(World(u, w.locals), most)
  {
    PruneDepth(t, g, ret, most);
    ShallowUpdate(w, u, w.locals, most);
  }

  lemma QuietKeepsShallow(w: World, e: Event, most: nat)
    requires Shallow(w, most) && Inv(Step(w, e)) && Quiet(e)
    ensures Shallow(Step(w, e), most)
  {
    QuietStep(w, e);
    SameVersionsStay(w.tables, Step(w, e).tables, most);
    ShallowUpdate(w, Step(w, e).tables, w.locals, most);
  }

  /** Exactly which steps keep the cap. */
  lemma StepKeepsShallowIff(w: World, e: Event, most: nat)
    requires Shallow(w, most) && Safe(w, e)
    ensures Shallow(Step(w, e), most) <==> Fits(w, e, most)
  {
    assert Inv(Step(w, e)) by { StepKeepsInv(w, e); }
    DepthByCase(w, e, most);
  }

  lemma DepthByCase(w: World, e: Event, most: nat)
    requires Shallow(w, most) && Inv(Step(w, e))
    ensures Shallow(Step(w, e), most) <==> Fits(w, e, most)
  {
    match e
    case BackUp(d, job, fullEvery, net, at) => BackUpKeepsShallowIff(w, d, job, fullEvery, net, at, most);
    case Drain(d, key, net, now) => DrainKeepsShallowIff(w, d, key, net, now, most);
    case Adopt(d, g, target) => AdoptKeepsShallowIff(w, d, g, target, most);
    case Gc(g, ret) => GcKeepsShallow(w, g, ret, most);
    case NewGame(_) => QuietKeepsShallow(w, e, most);
    case ResolveTo(_, _) => QuietKeepsShallow(w, e, most);
  }

  ghost predicate FittingRun(w: World, es: seq<Event>, most: nat)
    requires TablesOk(w.tables)
    decreases |es|
  {
    es == [] ||
    (var front, last := es[..|es| - 1], es[|es| - 1];
     FittingRun(w, front, most) && Safe(RunAll(w, front), last) && Fits(RunAll(w, front), last, most))
  }

  lemma {:induction false} RunKeepsShallow(w: World, es: seq<Event>, most: nat)
    requires Shallow(w, most) && FittingRun(w, es, most)
    ensures Shallow(RunAll(w, es), most)
    decreases |es|
  {
    if es != [] {
      var front := es[..|es| - 1];
      RunKeepsShallow(w, front, most);
      StepKeepsShallowIff(RunAll(w, front), es[|es| - 1], most);
    }
  }

  /** Every state of the run keeps the cap. */
  ghost predicate AlwaysShallow(w: World, es: seq<Event>, most: nat)
    requires TablesOk(w.tables)
    decreases |es|
  {
    Shallow(RunAll(w, es), most) && (es == [] || AlwaysShallow(w, es[..|es| - 1], most))
  }

  /** A run keeps the cap throughout exactly if each of its steps fits. */
  lemma {:induction false} RunKeepsCapIff(w: World, es: seq<Event>, most: nat)
    requires Shallow(w, most) && SafeRun(w, es)
    ensures AlwaysShallow(w, es, most) <==> FittingRun(w, es, most)
    decreases |es|
  {
    if es != [] {
      var front := es[..|es| - 1];
      RunKeepsCapIff(w, front, most);
      if AlwaysShallow(w, front, most) { StepKeepsShallowIff(RunAll(w, front), es[|es| - 1], most); }
    }
  }

  lemma StartShallow(most: nat)
    ensures Shallow(START, most)
  {
  }

  /** In every run of fitting steps no restore chain holds more than `most`
      differentials, queued and retried ones included. */
  lemma ChainsAreCapped(es: seq<Event>, most: nat, v: VersionId)
    requires FittingRun(START, es, most) && v in RunAll(START, es).tables.versions
    ensures Within(ChainIn(RunAll(START, es).tables, v), most)
  {
    StartShallow(most);
    RunKeepsShallow(START, es, most);
  }

  // ---- what the periodic full guarantees ----

  /** A step without conflict, restore or late retry, `full_every` being at most `most`:
      an answered backup fast-forwards, and a retried entry finds its game unconfirmed
      or without a base. */
  ghost predicate Plain(w: World, e: Event, most: nat)
    requires TablesOk(w.tables)
  {
    match e
    case BackUp(d, job, fullEvery, net, at) =>
      var l, t := LocalOf(w, d), w.tables;
      var c := Prepare(l, d, job, fullEvery, at);
      fullEvery <= most && (!Skips(l, job) && Answers(t, job.game, c, net) ==> t.heads[job.game] == c.parent)
    case Drain(d, key, net, now) =>
      var l := LocalOf(w, d);
      key in l.outbox ==> l.outbox[key].game !in l.snapshots || l.outbox[key].game in l.unconfirmed
    case Adopt(d, g, target) => false
    case _ => true
  }

  /** The periodic full keeps a plain step within the cap. */
  lemma PlainFits(w: World, e: Event, most: nat)
    requires Shallow(w, most) && Plain(w, e, most)
    ensures Safe(w, e) && Fits(w, e, most)
  {
    if e.BackUp? {
      LocalIsShallow(w, e.device, most);
      PlainBackUpFits(LocalOf(w, e.device), w.tables, e.device, e.job, e.fullEvery, e.net, e.at, most);
    }
  }

  lemma PlainBackUpFits(
    l: Local, t: Tables, d: DeviceId, job: Job, fullEvery: nat, net: Net, at: nat, most: nat)
    requires TablesOk(t) && LocalDepth(t, l, most) && fullEvery <= most
    requires var c := Prepare(l, d, job, fullEvery, at);
      !Skips(l, job) && Answers(t, job.game, c, net) ==> t.heads[job.game] == c.parent
    ensures BackUpFits(l, t, d, job, fullEvery, net, at, most)
  {
    var c := Prepare(l, d, job, fullEvery, at);
    if c.kind == Differential {
      assert HeadWithin(t, l, job.game) && PriorDiffs(l, job.game) < fullEvery;
    }
  }

  ghost predicate PlainRun(w: World, es: seq<Event>, most: nat)
    requires TablesOk(w.tables)
    decreases |es|
  {
    es == [] || (PlainRun(w, es[..|es| - 1], most) && Plain(RunAll(w, es[..|es| - 1]), es[|es| - 1], most))
  }

  lemma PlainSnoc(w: World, front: seq<Event>, e: Event, most: nat)
    requires TablesOk(w.tables) && PlainRun(w, front, most) && Plain(RunAll(w, front), e, most)
    ensures PlainRun(w, front + [e], most)
  {
    assert (front + [e])[..|front|] == front;
  }

  lemma {:induction false} PlainRunFits(w: World, es: seq<Event>, most: nat)
    requires Shallow(w, most) && PlainRun(w, es, most)
    ensures FittingRun(w, es, most)
    decreases |es|
  {
    if es != [] {
      var front := es[..|es| - 1];
      PlainRunFits(w, front, most);
      RunKeepsShallow(w, front, most);
      PlainFits(RunAll(w, front), es[|es| - 1], most);
    }
  }

  /** The periodic full caps restore chains: in every run without conflict, restore and
      late retry, no chain holds more differentials than the greatest `full_every`. */
  lemma FullEveryCaps(es: seq<Event>, most: nat, v: VersionId)
    requires PlainRun(START, es, most) && v in RunAll(START, es).tables.versions
    ensures Within(ChainIn(RunAll(START, es).tables, v), most)
  {
    StartShallow(most);
    PlainRunFits(START, es, most);
    ChainsAreCapped(es, most, v);
  }

  // ---- past the cap on a branch ----

  /** Device `d` sits on a branch of `n` differentials with its counter at zero. */
  ghost predicate OnBranch(w: World, d: DeviceId, g: GameId, n: nat) {
    && TablesOk(w.tables)
    && var l, t := LocalOf(w, d), w.tables;
       && g in l.snapshots && g !in l.unconfirmed && PriorDiffs(l, g) == 0 && g in t.heads
       && l.snapshots[g].head.Some?
       && var h := l.snapshots[g].head.value;
          && h in Rows(t, g) && t.heads[g].Some? && t.heads[g].value < t.nextId && t.heads[g] != Some(h)
          && ChainIn(t, h).Some? && |ChainIn(t, h).value| == n + 1
  }

  /** Uploads that always reach the server, with a full due after every differential. */
  ghost predicate EagerFulls(e: Event) {
    e.NewGame? || (e.BackUp? && e.fullEvery == 1 && e.net == Reached)
  }

  /** One more file on a branch: what the device prepares, and what the server does with it. */
  lemma BranchUpload(l: Local, t: Tables, d: DeviceId, g: GameId, h: VersionId) returns (job: Job)
    requires TablesOk(t) && g in l.snapshots && g !in l.unconfirmed && PriorDiffs(l, g) == 0 && g in t.heads
    requires l.snapshots[g].head == Some(h) && h in Rows(t, g) && t.heads[g] != Some(h) && ChainIn(t, h).Some?
    ensures job.game == g
    ensures var c := Prepare(l, d, job, 1, 0);
      var r := Run(l, t, d, job, 1, Reached, 0);
      && TablesOk(r.tables) && r.tables.heads == t.heads && r.tables.nextId == t.nextId + 1
      && r.local == TrackBranch(l, g, c, t.nextId)
      && t.nextId in Rows(r.tables, g) && ChainIn(r.tables, t.nextId) == Some(ChainIn(t, h).value + [t.nextId])
  {
    var q := LongerPath(l.snapshots[g].files.Keys);
    assert q !in l.snapshots[g].files;
    job := Job(g, true, false, DiskOf(l.snapshots[g].files)[q := DiskFile("", 0)]);
    var c := Prepare(l, d, job, 1, 0);
    assert !Skips(l, job) && c.kind == Differential && c.parent == Some(h) by { OneFileDifferential(l, d, g, q, 1, 0); }
    ExtendedChain(t, g, c, h);
    BranchStored(t, g, c, h);
  }

  /** A device on a branch adds a differential and is still on it: a conflict does not
      bump the counter. */
  lemma BranchGrows(w: World, d: DeviceId, g: GameId, n: nat) returns (e: Event)
    requires OnBranch(w, d, g, n)
    ensures EagerFulls(e) && OnBranch(Step(w, e), d, g, n + 1)
  {
    var l, t := LocalOf(w, d), w.tables;
    var job := BranchUpload(l, t, d, g, l.snapshots[g].head.value);
    e := BackUp(d, job, 1, Reached, 0);
    BackUpStep(w, d, job, 1, Reached, 0);
  }

  lemma BranchStored(t: Tables, g: GameId, c: CreateVersion, h: VersionId)
    requires TablesOk(t) && g in t.heads && h in Rows(t, g) && c.parent == Some(h) && t.heads[g] != Some(h)
    ensures Send(t, g, c, Reached).1 == Some(Conflict(t.heads[g], t.nextId))
    ensures Send(t, g, c, Reached).0.heads == t.heads && Send(t, g, c, Reached).0.nextId == t.nextId + 1
  {
    assert h in t.versions;
  }

  lemma FirstSend(t: Tables, g: GameId, c: CreateVersion)
    requires TablesOk(t) && g in t.heads && c.parent == None
    ensures var (u, reply) := Send(t, g, c, Reached);
      && reply == Some(if t.heads[g].None? then FastForward(t.nextId) else Conflict(t.heads[g], t.nextId))
      && u.heads == (if t.heads[g].None? then t.heads[g := Some(t.nextId)] else t.heads)
      && u.nextId == t.nextId + 1 && t.nextId in Rows(u, g) && u.versions[t.nextId].kind == c.kind
  {
  }

  /** A device's first backup of a game uploads a parentless full. */
  lemma FirstBackUp(t: Tables, d: DeviceId, job: Job, fullEvery: nat)
    requires TablesOk(t) && job.hasPatterns && job.game in t.heads
    ensures var g := job.game;
      var r := Run(EMPTY_LOCAL, t, d, job, fullEvery, Reached, 0);
      && g in r.local.snapshots && r.local.snapshots[g] == Stored(JobFiles(job), Some(t.nextId))
      && g !in r.local.unconfirmed && PriorDiffs(r.local, g) == 0
      && r.tables.heads == (if t.heads[g].None? then t.heads[g := Some(t.nextId)] else t.heads)
      && r.tables.nextId == t.nextId + 1
      && t.nextId in Rows(r.tables, g) && r.tables.versions[t.nextId].kind == Full
      && r.tables.versions[t.nextId].files == JobFiles(job)
  {
    var c := Prepare(EMPTY_LOCAL, d, job, fullEvery, 0);
    assert c.kind == Full && c.parent == None && !Skips(EMPTY_LOCAL, job);
    FirstSend(t, job.game, c);
    ReplyStored(t, job.game, c, Reached);
  }

  lemma FullIsItsChain(t: Tables, g: GameId, v: VersionId)
    requires TablesOk(t) && v in Rows(t, g) && t.versions[v].kind == Full
    ensures ChainIn(t, v) == Some([v])
  {
  }

  lemma FirstDevice(w: World, d: DeviceId, job: Job)
    requires TablesOk(w.tables) && job.hasPatterns && d !in w.locals
    requires job.game in w.tables.heads && w.tables.heads[job.game] == None
    ensures var u := Step(w, BackUp(d, job, 1, Reached, 0));
      && job.game in u.tables.heads && u.tables.heads[job.game] == Some(w.tables.nextId)
      && u.tables.nextId == w.tables.nextId + 1 && u.locals.Keys == w.locals.Keys + {d}
  {
    FirstBackUp(w.tables, d, job, 1);
  }

  lemma SecondDevice(w: World, d: DeviceId, job: Job)
    requires TablesOk(w.tables) && job.hasPatterns && d !in w.locals
    requires job.game in w.tables.heads && w.tables.heads[job.game].Some?
    requires w.tables.heads[job.game].value < w.tables.nextId
    ensures OnBranch(Step(w, BackUp(d, job, 1, Reached, 0)), d, job.game, 0)
  {
    FirstBackUp(w.tables, d, job, 1);
    var u := Step(w, BackUp(d, job, 1, Reached, 0));
    FullIsItsChain(u.tables, job.game, w.tables.nextId);
  }

  lemma TwoDevices(w: World, job: Job, x: DeviceId, y: DeviceId)
    requires TablesOk(w.tables) && job.hasPatterns && x != y && x !in w.locals && y !in w.locals
    requires job.game !in w.tables.heads
    ensures var one := Step(Step(w, NewGame(job.game)), BackUp(x, job, 1, Reached, 0));
      OnBranch(Step(one, BackUp(y, job, 1, Reached, 0)), y, job.game, 0)
  {
    var v := Step(w, NewGame(job.game));
    assert job.game in v.tables.heads && v.tables.heads[job.game] == None && v.locals == w.locals;
    FirstDevice(v, x, job);
    SecondDevice(Step(v, BackUp(x, job, 1, Reached, 0)), y, job);
  }

  /** Two devices that never saw each other: the second's first full is a branch. */
  lemma BranchStarts(w: World, job: Job, x: DeviceId, y: DeviceId) returns (es: seq<Event>)
    requires TablesOk(w.tables) && job.hasPatterns && x != y && x !in w.locals && y !in w.locals
    requires job.game !in w.tables.heads
    ensures (forall e :: e in es ==> EagerFulls(e)) && OnBranch(RunAll(w, es), y, job.game, 0)
  {
    var a, b, c := NewGame(job.game), BackUp(x, job, 1, Reached, 0), BackUp(y, job, 1, Reached, 0);
    assert EagerFulls(a) && EagerFulls(b) && EagerFulls(c);
    TwoDevices(w, job, x, y);
    es := RunThree(w, a, b, c);
  }

  /** The cap fails under conflicts: for any game, any two devices and every `n`, even
      with a full due after every single differential, some run stores a version whose
      chain holds `n` differentials.  Devices and game may be new to any world, the
      empty one included. */
  lemma {:induction false} ConflictsGrowChains(w: World, job: Job, x: DeviceId, y: DeviceId, n: nat)
    returns (es: seq<Event>, v: VersionId)
    requires TablesOk(w.tables) && job.hasPatterns && x != y && x !in w.locals && y !in w.locals
    requires job.game !in w.tables.heads
    ensures forall e :: e in es ==> EagerFulls(e)
    ensures OnBranch(RunAll(w, es), y, job.game, n)
    ensures ChainIn(RunAll(w, es).tables, v).Some? && |ChainIn(RunAll(w, es).tables, v).value| == n + 1
  {
    if n == 0 {
      es := BranchStarts(w, job, x, y);
    } else {
      var front, _ := ConflictsGrowChains(w, job, x, y, n - 1);
      var e := BranchGrows(RunAll(w, front), y, job.game, n - 1);
      RunSnoc(w, front, e);
      es := front + [e];
    }
    v := LocalOf(RunAll(w, es), y).snapshots[job.game].head.value;
  }

  /** These runs are among those the safety and availability theorems speak of, so
      neither theorem is about nothing. */
  lemma EagerRunsAreSafe(w: World, es: seq<Event>)
    requires TablesOk(w.tables) && forall e :: e in es ==> EagerFulls(e)
    ensures SafeRun(w, es) && forall e :: e in es ==> !e.Gc?
  {
    forall e | e in es ensures !e.Drain? && !e.Gc? { assert EagerFulls(e); }
    NoDrainIsSafe(w, es);
  }

  // ---- up to the cap, and past it by restores that fail ----

  /** Device `d` sits on the head, `n` differentials deep, and has counted them all. */
  ghost predicate OnHead(w: World, d: DeviceId, g: GameId, n: nat) {
    && TablesOk(w.tables)
    && var l, t := LocalOf(w, d), w.tables;
       && g in l.snapshots && g !in l.unconfirmed && PriorDiffs(l, g) == n && g in t.heads
       && l.snapshots[g].head.Some?
       && var h := l.snapshots[g].head.value;
          && h in Rows(t, g) && t.heads[g] == Some(h)
          && ChainIn(t, h).Some? && |ChainIn(t, h).value| == n + 1
  }

  /** A file backup of device `d` that reaches the server. */
  predicate FileBackUp(e: Event, d: DeviceId, fullEvery: nat) {
    && e.BackUp? && e.device == d && e.fullEvery == fullEvery && e.net == Reached
    && e.job.hasPatterns && !e.job.hasRegistry
  }

  /** The pre-restore backup: no full is ever due. */
  predicate PreRestore(e: Event, d: DeviceId) {
    FileBackUp(e, d, U32_MAX)
  }

  /** Such a backup is all that is left of a restore whose download failed. */
  lemma FailedRestoreLeavesBackup(w: World, e: Event, target: VersionId)
    requires TablesOk(w.tables) && e.BackUp? && PreRestore(e, e.device)
    ensures var req := RestoreRequest(e.job.game, target, _ => true, true, false);
      var r := RunRestore(LocalOf(w, e.device), w.tables, e.job.seen, e.device, req, false, Reached, Unfetched, e.at);
      r.outcome != Restored && World(r.tables, w.locals[e.device := r.local]) == Step(w, e)
  {
    var req := RestoreRequest(e.job.game, target, _ => true, true, false);
    assert Under(e.job.seen, req.matches) == e.job.seen;
    assert PreJob(e.job.seen, req) == e.job;
    RestoreIsTwoSteps(w, e.job.seen, e.device, req, false, Reached, Unfetched, e.at);
  }

  /** A device on the head adds a differential, no full being due. */
  lemma HeadGrows(w: World, d: DeviceId, g: GameId, n: nat, fullEvery: nat) returns (e: Event)
    requires OnHead(w, d, g, n) && n < fullEvery
    ensures FileBackUp(e, d, fullEvery) && Plain(w, e, fullEvery) && OnHead(Step(w, e), d, g, n + 1)
  {
    var l, t := LocalOf(w, d), w.tables;
    var h := l.snapshots[g].head.value;
    var q := LongerPath(l.snapshots[g].files.Keys);
    assert q !in l.snapshots[g].files;
    var job := Job(g, true, false, DiskOf(l.snapshots[g].files)[q := DiskFile("", 0)]);
    e := BackUp(d, job, fullEvery, Reached, 0);
    var c := Prepare(l, d, job, fullEvery, 0);
    assert !Skips(l, job) && c.kind == Differential && c.parent == Some(h) by {
      OneFileDifferential(l, d, g, q, fullEvery, 0);
    }
    ExtendedChain(t, g, c, h);
    HeadStored(t, g, c, h);
    var r := Run(l, t, d, job, fullEvery, Reached, 0);
    assert r.tables == Send(t, g, c, Reached).0 && r.local == Confirm(l, g, c, t.nextId, n);
    BackUpStep(w, d, job, fullEvery, Reached, 0);
  }

  lemma HeadStored(t: Tables, g: GameId, c: CreateVersion, h: VersionId)
    requires TablesOk(t) && g in t.heads && h in Rows(t, g) && c.parent == Some(h) && t.heads[g] == Some(h)
    ensures Send(t, g, c, Reached).1 == Some(FastForward(t.nextId))
    ensures Send(t, g, c, Reached).0.heads == t.heads[g := Some(t.nextId)]
  {
    assert h in t.versions;
  }

  lemma HeadStarts(w: World, d: DeviceId, job: Job, fullEvery: nat)
    requires TablesOk(w.tables) && job.hasPatterns && d !in w.locals && job.game !in w.tables.heads
    ensures var v, e := Step(w, NewGame(job.game)), BackUp(d, job, fullEvery, Reached, 0);
      Plain(v, e, fullEvery) && OnHead(Step(v, e), d, job.game, 0)
  {
    var v := Step(w, NewGame(job.game));
    FirstBackUp(v.tables, d, job, fullEvery);
    BackUpStep(v, d, job, fullEvery, Reached, 0);
    var u := Step(v, BackUp(d, job, fullEvery, Reached, 0));
    FullIsItsChain(u.tables, job.game, v.tables.nextId);
  }

  /** A game is registered, and then device `d` backs it up. */
  predicate FileBackUpsOnly(es: seq<Event>, d: DeviceId, g: GameId, fullEvery: nat) {
    es != [] && es[0] == NewGame(g) && forall e :: e in es[1..] ==> FileBackUp(e, d, fullEvery)
  }

  lemma OneMoreBackUp(front: seq<Event>, e: Event, d: DeviceId, g: GameId, fullEvery: nat)
    requires FileBackUpsOnly(front, d, g, fullEvery) && FileBackUp(e, d, fullEvery)
    ensures FileBackUpsOnly(front + [e], d, g, fullEvery)
  {
    assert (front + [e])[1..] == front[1..] + [e];
  }

  lemma FirstFileBackUp(w: World, d: DeviceId, job: Job, fullEvery: nat) returns (es: seq<Event>)
    requires TablesOk(w.tables) && job.hasPatterns && !job.hasRegistry && d !in w.locals && job.game !in w.tables.heads
    ensures FileBackUpsOnly(es, d, job.game, fullEvery) && PlainRun(w, es, fullEvery)
    ensures OnHead(RunAll(w, es), d, job.game, 0)
  {
    var front := [NewGame(job.game)];
    assert front[..0] == [] && front[1..] == [];
    assert RunAll(w, front) == Step(w, NewGame(job.game)) && PlainRun(w, front, fullEvery);
    HeadStarts(w, d, job, fullEvery);
    var e := BackUp(d, job, fullEvery, Reached, 0);
    OneMoreBackUp(front, e, d, job.game, fullEvery);
    RunSnoc(w, front, e);
    PlainSnoc(w, front, e, fullEvery);
    es := front + [e];
  }

  lemma {:induction false} HeadChainGrows(w: World, job: Job, d: DeviceId, n: nat, fullEvery: nat)
    returns (es: seq<Event>, v: VersionId)
    requires TablesOk(w.tables) && d !in w.locals && job.game !in w.tables.heads
    requires job.hasPatterns && !job.hasRegistry && n <= fullEvery
    ensures FileBackUpsOnly(es, d, job.game, fullEvery) && PlainRun(w, es, fullEvery)
    ensures OnHead(RunAll(w, es), d, job.game, n)
    ensures ChainIn(RunAll(w, es).tables, v).Some? && |ChainIn(RunAll(w, es).tables, v).value| == n + 1
  {
    if n == 0 {
      es := FirstFileBackUp(w, d, job, fullEvery);
    } else {
      var front, _ := HeadChainGrows(w, job, d, n - 1, fullEvery);
      var e := HeadGrows(RunAll(w, front), d, job.game, n - 1, fullEvery);
      OneMoreBackUp(front, e, d, job.game, fullEvery);
      RunSnoc(w, front, e);
      PlainSnoc(w, front, e, fullEvery);
      es := front + [e];
    }
    v := LocalOf(RunAll(w, es), d).snapshots[job.game].head.value;
  }

  /** The bound of `FullEveryCaps` is reached: for every `full_every` some such run stores
      a version whose chain holds exactly that many differentials. */
  lemma FullEveryIsReached(w: World, job: Job, d: DeviceId, most: nat) returns (es: seq<Event>, v: VersionId)
    requires TablesOk(w.tables) && d !in w.locals && job.game !in w.tables.heads && job.hasPatterns && !job.hasRegistry
    ensures PlainRun(w, es, most)
    ensures ChainIn(RunAll(w, es).tables, v).Some? && |ChainIn(RunAll(w, es).tables, v).value| == most + 1
  {
    es, v := HeadChainGrows(w, job, d, most, most);
  }

  /** The cap fails for a single device that never conflicts: the periodic full does not
      bind pre-restore backups, so restores that then fail can add differential after
      differential, up to the counter's own limit.  Device and game may be new to any
      world, the empty one included. */
  lemma FailedRestoresGrowChains(w: World, job: Job, d: DeviceId, n: nat)
    returns (es: seq<Event>, v: VersionId)
    requires TablesOk(w.tables) && d !in w.locals && job.game !in w.tables.heads
    requires job.hasPatterns && !job.hasRegistry && n <= U32_MAX
    ensures es != [] && es[0] == NewGame(job.game) && forall e :: e in es[1..] ==> PreRestore(e, d)
    ensures OnHead(RunAll(w, es), d, job.game, n)
    ensures ChainIn(RunAll(w, es).tables, v).Some? && |ChainIn(RunAll(w, es).tables, v).value| == n + 1
  {
    es, v := HeadChainGrows(w, job, d, n, U32_MAX);
  }
}

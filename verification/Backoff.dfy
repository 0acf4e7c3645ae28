/** How an outbox entry that keeps failing is spaced out over any number of drains
    (crates/savr-daemon/src/backup.rs, `retry_outbox` and `backoff_delay`). */
module Backoff {
  import opened Types
  import opened ServerTables
  import opened Backup
  import opened Daemon

  /** What happens to a device's tables, one call after the other: a backup, a drain
      with the entries it found due, or a restore adopting its target. */
  datatype Act =
    | Backup(tables: Tables, device: DeviceId, job: Job, fullEvery: nat, net: Net, at: nat)
    | Pass(tables: Tables, due: seq<nat>, nets: nat -> Net, now: int)
    | Adopt(game: GameId, files: FileSet, head: VersionId)

  ghost function Do(l: Local, a: Act): Local {
    match a
    case Backup(t, device, job, fullEvery, net, at) => Run(l, t, device, job, fullEvery, net, at).local
    case Pass(t, due, nets, now) => RetryEach(l, t, due, nets, now).0
    case Adopt(g, files, head) => PutSnapshot(l, g, files, Some(head))
  }

  predicate Distinct(keys: seq<nat>) {
    forall i, j :: 0 <= i < j < |keys| ==> keys[i] != keys[j]
  }

  /** A drain goes through the entries whose time has come, each once. */
  predicate ActFits(l: Local, a: Act) {
    a.Pass? ==>
      && Distinct(a.due)
      && forall k :: k in a.due ==> k in l.outbox && l.outbox[k].nextRetry <= a.now
  }

  ghost function LocalAfter(acts: seq<Act>): Local {
    if acts == [] then EMPTY_LOCAL else Do(LocalAfter(acts[..|acts| - 1]), acts[|acts| - 1])
  }

  ghost predicate ActsFit(acts: seq<Act>) {
    acts == [] || (ActsFit(acts[..|acts| - 1]) && ActFits(LocalAfter(acts[..|acts| - 1]), acts[|acts| - 1]))
  }

  /** The clock readings of the drains that tried entry `key`, in order. */
  function Tries(acts: seq<Act>, key: nat): seq<int> {
    if acts == [] then []
    else
      var last := acts[|acts| - 1];
      Tries(acts[..|acts| - 1], key) + if last.Pass? && key in last.due then [last.now] else []
  }

  // ---- what one act does to one entry ----

  lemma {:induction false} PassLeaves(l: Local, t: Tables, due: seq<nat>, nets: nat -> Net, now: int, key: nat)
    requires key !in due
    ensures var m := RetryEach(l, t, due, nets, now).0;
            m.nextKey == l.nextKey && (key in m.outbox <==> key in l.outbox)
            && (key in l.outbox ==> m.outbox[key] == l.outbox[key])
  {
    if due != [] {
      PassLeaves(l, t, due[..|due| - 1], nets, now, key);
    }
  }

  /** A tried entry is gone, or has one more failure and a later time. */
  lemma {:induction false} PassBumps(l: Local, t: Tables, due: seq<nat>, nets: nat -> Net, now: int, key: nat)
    requires key in due && Distinct(due) && key in l.outbox
    ensures var m := RetryEach(l, t, due, nets, now).0;
            m.nextKey == l.nextKey
            && (key in m.outbox ==>
                  && m.outbox[key].attempts == l.outbox[key].attempts + 1
                  && m.outbox[key].nextRetry == now + BackoffDelay(l.outbox[key].attempts))
  {
    var front, last := due[..|due| - 1], due[|due| - 1];
    if key == last {
      PassLeaves(l, t, front, nets, now, key);
    } else {
      PassBumps(l, t, front, nets, now, key);
    }
  }

  /** The outbox stayed as it was, or gained one untried entry under a new key. */
  predicate Grew(l: Local, m: Local) {
    || (m.outbox == l.outbox && m.nextKey == l.nextKey)
    || (&& l.nextKey in m.outbox && m.nextKey == l.nextKey + 1
        && m.outbox[l.nextKey].attempts == 0
        && m.outbox == l.outbox[l.nextKey := m.outbox[l.nextKey]])
  }

  lemma SettleGrows(l: Local, g: GameId, create: CreateVersion, reply: Option<Outcome>, prior: nat, now: nat)
    ensures var m := Settle(l, g, create, reply, prior, now).0;
            Grew(l, m) && (m.outbox != l.outbox ==> m.outbox[l.nextKey].nextRetry == now)
  {
  }

  lemma RunGrows(l: Local, t: Tables, device: DeviceId, job: Job, fullEvery: nat, net: Net, now: nat)
    ensures var m := Run(l, t, device, job, fullEvery, net, now).local;
            Grew(l, m) && (m.outbox != l.outbox ==> m.outbox[l.nextKey].nextRetry == now)
  {
    if !Skips(l, job) {
      var create := Prepare(l, device, job, fullEvery, now);
      SettleGrows(l, job.game, create, Send(t, job.game, create, net).1, PriorDiffs(l, job.game), now);
    }
  }

  /** An entry's row agrees with the tries made of it so far. */
  predicate RowAgrees(l: Local, tries: seq<int>, key: nat) {
    && (key in l.outbox ==> key < l.nextKey && l.outbox[key].attempts == |tries|)
    && (key in l.outbox && tries != [] ==>
          l.outbox[key].nextRetry == tries[|tries| - 1] + BackoffDelay(|tries| - 1))
    && (key >= l.nextKey ==> tries == [])
  }

  predicate Spaced(tries: seq<int>) {
    forall i :: 0 < i < |tries| ==> tries[i] >= tries[i - 1] + BackoffDelay(i - 1)
  }

  lemma GrowAgrees(l: Local, m: Local, tries: seq<int>, key: nat)
    requires RowAgrees(l, tries, key) && Grew(l, m)
    ensures RowAgrees(m, tries, key)
  {
  }

  lemma PassAgrees(l: Local, a: Act, tries: seq<int>, key: nat)
    requires a.Pass? && ActFits(l, a) && RowAgrees(l, tries, key) && Spaced(tries)
    ensures var more := tries + if key in a.due then [a.now] else [];
            RowAgrees(Do(l, a), more, key) && Spaced(more)
  {
    if key in a.due {
      PassBumps(l, a.tables, a.due, a.nets, a.now, key);
    } else {
      PassLeaves(l, a.tables, a.due, a.nets, a.now, key);
      assert tries + [] == tries;
    }
  }

  lemma {:induction false} TriesAgree(acts: seq<Act>, key: nat)
    requires ActsFit(acts)
    ensures RowAgrees(LocalAfter(acts), Tries(acts, key), key) && Spaced(Tries(acts, key))
  {
    if acts == [] {
      assert LocalAfter(acts) == EMPTY_LOCAL;
    } else {
      var front, a := acts[..|acts| - 1], acts[|acts| - 1];
      TriesAgree(front, key);
      StepAgrees(LocalAfter(front), a, Tries(front, key), key);
    }
  }

  lemma StepAgrees(l: Local, a: Act, tries: seq<int>, key: nat)
    requires ActFits(l, a) && RowAgrees(l, tries, key) && Spaced(tries)
    ensures var more := tries + if a.Pass? && key in a.due then [a.now] else [];
            RowAgrees(Do(l, a), more, key) && Spaced(more)
  {
    match a
    case Pass(t, due, nets, now) => PassAgrees(l, a, tries, key);
    case Backup(t, device, job, fullEvery, net, at) =>
      RunGrows(l, t, device, job, fullEvery, net, at);
      GrowAgrees(l, Do(l, a), tries, key);
      assert tries + [] == tries;
    case Adopt(g, files, head) =>
      GrowAgrees(l, Do(l, a), tries, key);
      assert tries + [] == tries;
  }

  // ---- adding the delays up ----

  /** The least time between the first try of an entry and a try after `k` failures. */
  function WaitedFor(k: nat): int {
    if k <= 9 then Pow2(k) - 1 else 511 + 300 * (k - 9)
  }

  lemma {:induction false} Pow2Below(k: nat)
    requires k < 9
    ensures Pow2(k) <= 256
    decreases 9 - k
  {
    if k < 8 {
      Pow2Below(k + 1);
    } else {
      assert Pow2(8) == 2 * Pow2(7) && Pow2(7) == 2 * Pow2(6) && Pow2(6) == 2 * Pow2(5);
      assert Pow2(5) == 2 * Pow2(4) && Pow2(4) == 2 * Pow2(3);
    }
  }

  lemma WaitGrows(k: nat)
    ensures WaitedFor(k + 1) == WaitedFor(k) + BackoffDelay(k)
  {
    if k < 9 {
      Pow2Below(k);
    } else {
      assert Pow2(9) == 2 * Pow2(8) && Pow2(8) == 2 * Pow2(7) && Pow2(7) == 2 * Pow2(6);
      assert Pow2(6) == 2 * Pow2(5) && Pow2(5) == 2 * Pow2(4) && Pow2(4) == 2 * Pow2(3);
    }
  }

  lemma {:induction false} SpacedWaits(tries: seq<int>, k: nat)
    requires Spaced(tries) && k < |tries|
    ensures tries[k] >= tries[0] + WaitedFor(k)
  {
    if k > 0 {
      SpacedWaits(tries, k - 1);
      WaitGrows(k - 1);
    }
  }

  /** Whatever backups, restores and drains run one after another, an entry is tried
      for the (k+1)-th time only when its first k tries failed and the drain's clock
      is 2^k - 1 seconds past the first try, or 511 + 300 (k - 9) beyond nine. */
  lemma RetriesBackOff(acts: seq<Act>, key: nat, k: nat)
    requires ActsFit(acts) && k < |Tries(acts, key)|
    ensures Tries(acts, key)[k] >= Tries(acts, key)[0] + if k <= 9 then Pow2(k) - 1 else 511 + 300 * (k - 9)
  {
    TriesAgree(acts, key);
    SpacedWaits(Tries(acts, key), k);
  }

  /** An entry still queued has failed every time it was tried, and its row says so. */
  lemma QueuedRowCountsTries(acts: seq<Act>, key: nat)
    requires ActsFit(acts) && key in LocalAfter(acts).outbox
    ensures LocalAfter(acts).outbox[key].attempts == |Tries(acts, key)|
  {
    TriesAgree(acts, key);
  }

  // ---- when an entry is due ----

  lemma LastAct(acts: seq<Act>, key: nat)
    requires acts != [] && ActsFit(acts)
    ensures var front, a := acts[..|acts| - 1], acts[|acts| - 1];
            && LocalAfter(acts) == Do(LocalAfter(front), a)
            && ActsFit(front) && ActFits(LocalAfter(front), a)
            && (Tries(acts, key) == [] ==> Tries(front, key) == [] && (a.Pass? ==> key !in a.due))
  {
  }

  /** Act `j` is the backup that queued the entry. */
  ghost predicate QueuedBy(acts: seq<Act>, key: nat, j: nat) {
    j < |acts| && acts[j].Backup?
    && key !in LocalAfter(acts[..j]).outbox && key in Do(LocalAfter(acts[..j]), acts[j]).outbox
  }

  /** An entry no drain has tried is due from the time of the backup that queued it. */
  lemma {:induction false} UntriedIsDue(acts: seq<Act>, key: nat) returns (j: nat)
    requires ActsFit(acts) && key in LocalAfter(acts).outbox && Tries(acts, key) == []
    ensures QueuedBy(acts, key, j)
    ensures LocalAfter(acts).outbox[key].nextRetry == acts[j].at
  {
    var n := |acts| - 1;
    var front, a := acts[..n], acts[n];
    LastAct(acts, key);
    if key in LocalAfter(front).outbox {
      j := UntriedIsDue(front, key);
      assert front[..j] == acts[..j];
      KeysBelow(front, key);
      UntriedStays(LocalAfter(front), a, key);
    } else {
      j := n;
      ArrivesWithBackup(LocalAfter(front), a, key);
    }
  }

  lemma KeysBelow(acts: seq<Act>, key: nat)
    requires ActsFit(acts) && key in LocalAfter(acts).outbox
    ensures key < LocalAfter(acts).nextKey
  {
    TriesAgree(acts, key);
  }

  lemma UntriedStays(l: Local, a: Act, key: nat)
    requires key in l.outbox && key < l.nextKey && (a.Pass? ==> key !in a.due) && key in Do(l, a).outbox
    ensures Do(l, a).outbox[key] == l.outbox[key]
  {
    match a
    case Pass(t, due, nets, now) => PassLeaves(l, t, due, nets, now, key);
    case Backup(t, device, job, fullEvery, net, at) => RunGrows(l, t, device, job, fullEvery, net, at);
    case Adopt(_, _, _) =>
  }

  lemma ArrivesWithBackup(l: Local, a: Act, key: nat)
    requires key !in l.outbox && ActFits(l, a) && key in Do(l, a).outbox
    ensures a.Backup? && Do(l, a).outbox[key].nextRetry == a.at
  {
    match a
    case Pass(t, due, nets, now) => PassLeaves(l, t, due, nets, now, key);
    case Backup(t, device, job, fullEvery, net, at) => RunGrows(l, t, device, job, fullEvery, net, at);
    case Adopt(_, _, _) =>
  }

  /** After its k-th failure an entry is due again 2^(k-1) seconds past that try, or five
      minutes past it from the tenth failure on. */
  lemma FailedIsDueAgain(acts: seq<Act>, key: nat)
    requires ActsFit(acts) && key in LocalAfter(acts).outbox && Tries(acts, key) != []
    ensures var tries := Tries(acts, key);
            LocalAfter(acts).outbox[key].nextRetry
            == tries[|tries| - 1] + if |tries| <= 9 then Pow2(|tries| - 1) else 300
  {
    var k := |Tries(acts, key)| - 1;
    TriesAgree(acts, key);
    if k < 9 { Pow2Below(k); } else { WaitGrows(k); }
  }
}

/** The process watcher: which games run, and when a stop has settled
    (crates/savr-daemon/src/detection/mod.rs).  A poll is one turn of the loop. */
module Watcher {
  import opened Types

  type Pid = nat

  /** What one poll sees: the scan, the clock when it was taken, the clock read when
      a game's settle timer is armed, and the clock read before stops are fired. */
  datatype Poll = Poll(found: map<GameId, Pid>, scannedAt: int, armedAt: GameId -> int, now: int)

  datatype Event = Started(game: GameId, pid: Pid) | Stopped(game: GameId)

  datatype Status = Status(running: map<GameId, Pid>, pending: map<GameId, int>)

  // ---- one poll, game by game ----

  /** The stop timers once reappearances are cancelled and vanished games armed. */
  ghost function Timers(s: Status, p: Poll, settle: nat): map<GameId, int> {
    MapOf(s.pending.Keys + s.running.Keys - p.found.Keys,
          g => if g in s.pending then s.pending[g] else p.armedAt(g) + settle)
  }

  ghost function FiredBy(s: Status, p: Poll, settle: nat): set<GameId> {
    var timers := Timers(s, p, settle);
    set g | g in timers && p.now >= timers[g]
  }

  ghost function Advance(s: Status, p: Poll, settle: nat): Status {
    Status(p.found, Timers(s, p, settle) - FiredBy(s, p, settle))
  }

  /** The one event a poll can emit about `g`. */
  ghost function EventOf(s: Status, p: Poll, settle: nat, g: GameId): Option<Event> {
    if g in p.found && g !in s.running then Some(Started(g, p.found[g]))
    else if g in FiredBy(s, p, settle) then Some(Stopped(g))
    else None
  }

  /** A poll's events are exactly one per game that has one, whatever the order. */
  ghost predicate Announces(events: seq<Event>, s: Status, p: Poll, settle: nat) {
    && (forall e :: e in events <==> EventOf(s, p, settle, e.game) == Some(e))
    && (forall i, j :: 0 <= i < j < |events| ==> events[i].game != events[j].game)
  }

  // ---- the loop body on mutable maps ----

  class Loop {
    const settle: nat
    var running: map<GameId, Pid>
    var pending: map<GameId, int>

    constructor (settle: nat)
      ensures this.settle == settle && State() == Status(map[], map[])
    {
      this.settle := settle;
      running, pending := map[], map[];
    }

    function State(): Status
      reads this
    {
      Status(running, pending)
    }

    /** Announce newly found games and cancel the timers of all found ones. */
    method NoteFound(p: Poll) returns (events: seq<Event>)
      modifies this`pending
      ensures pending == old(pending) - p.found.Keys
      ensures forall e :: e in events <==>
          e.Started? && e.game in p.found && e.game !in running && e.pid == p.found[e.game]
      ensures forall i, j :: 0 <= i < j < |events| ==> events[i].game != events[j].game
    {
      events := [];
      var rest := p.found.Keys;
      while rest != {}
        invariant rest <= p.found.Keys
        invariant pending == old(pending) - (p.found.Keys - rest)
        invariant forall e :: e in events <==>
          e.Started? && e.game in p.found && e.game !in rest && e.game !in running && e.pid == p.found[e.game]
        invariant forall i, j :: 0 <= i < j < |events| ==> events[i].game != events[j].game
        decreases rest
      {
        var g :| g in rest;
        if g !in running {
          assert forall e <- events :: e.game != g;
          events := events + [Started(g, p.found[g])];
        }
        pending := pending - {g};
        rest := rest - {g};
      }
    }

    /** Arm a settle timer for each game that vanished and has none. */
    method ArmVanished(p: Poll)
      requires pending.Keys !! p.found.Keys
      modifies this`pending
      ensures pending == Timers(Status(running, old(pending)), p, settle)
    {
      var rest := running.Keys;
      while rest != {}
        invariant rest <= running.Keys
        invariant forall g :: g in pending <==> g in old(pending) || (g in running && g !in rest && g !in p.found)
        invariant forall g :: g in pending ==>
          pending[g] == if g in old(pending) then old(pending)[g] else p.armedAt(g) + settle
        decreases rest
      {
        var g :| g in rest;
        if g !in p.found && g !in pending {
          pending := pending[g := p.armedAt(g) + settle];
        }
        rest := rest - {g};
      }
    }

    /** Emit a stop for each timer that is due, and drop the timer. */
    method FireSettled(p: Poll) returns (events: seq<Event>)
      modifies this`pending
      ensures var due := set g | g in old(pending) && g !in p.found && p.now >= old(pending)[g];
              pending == old(pending) - due
              && (forall e :: e in events <==> e.Stopped? && e.game in due)
      ensures forall i, j :: 0 <= i < j < |events| ==> events[i].game != events[j].game
    {
      events := [];
      var fired := set g | g in pending && g !in p.found && p.now >= pending[g];
      var rest := fired;
      while rest != {}
        invariant rest <= fired
        invariant pending == old(pending) - (fired - rest)
        invariant forall e :: e in events <==> e.Stopped? && e.game in fired && e.game !in rest
        invariant forall i, j :: 0 <= i < j < |events| ==> events[i].game != events[j].game
        decreases rest
      {
        var g :| g in rest;
        assert forall e <- events :: e.game != g;
        pending := pending - {g};
        events := events + [Stopped(g)];
        rest := rest - {g};
      }
    }

    method Tick(p: Poll) returns (events: seq<Event>)
      modifies this
      ensures State() == Advance(old(State()), p, settle)
      ensures Announces(events, old(State()), p, settle)
    {
      ghost var s := State();
      var starts := NoteFound(p);
      ArmVanished(p);
      assert pending == Timers(s, p, settle);
      var stops := FireSettled(p);
      assert pending == Timers(s, p, settle) - FiredBy(s, p, settle);
      running := p.found;
      events := starts + stops;
      forall i, j | 0 <= i < j < |events| ensures events[i].game != events[j].game {
        if i < |starts| { assert events[i] in starts; }
        if j >= |starts| { assert events[j] in stops; }
      }
    }
  }

  // ---- runs of the loop ----

  ghost function After(polls: seq<Poll>, settle: nat): Status {
    if polls == [] then Status(map[], map[])
    else Advance(After(polls[..|polls| - 1], settle), polls[|polls| - 1], settle)
  }

  /** What poll `k` says about `g`. */
  ghost function EventAt(polls: seq<Poll>, settle: nat, k: nat, g: GameId): Option<Event>
    requires k < |polls|
  {
    EventOf(After(polls[..k], settle), polls[k], settle, g)
  }

  ghost predicate StopAt(polls: seq<Poll>, settle: nat, k: nat, g: GameId)
    requires k < |polls|
  {
    EventAt(polls, settle, k, g) == Some(Stopped(g))
  }

  ghost predicate StartAt(polls: seq<Poll>, settle: nat, k: nat, g: GameId)
    requires k < |polls|
  {
    var e := EventAt(polls, settle, k, g);
    e.Some? && e.value.Started?
  }

  predicate Tracked(s: Status, g: GameId) {
    g in s.running || g in s.pending
  }

  /** Index of the last poll that announced something about `g`, if any did. */
  ghost function LastNews(polls: seq<Poll>, settle: nat, g: GameId): (r: Option<nat>)
    ensures r.Some? ==> r.value < |polls| && EventAt(polls, settle, r.value, g).Some?
    ensures forall k :: (if r.Some? then r.value + 1 else 0) <= k < |polls| ==> EventAt(polls, settle, k, g).None?
  {
    if polls == [] then None
    else
      var n := |polls| - 1;
      assert forall k :: 0 <= k < n ==> polls[..n][..k] == polls[..k];
      if EventAt(polls, settle, n, g).Some? then Some(n)
      else
        var r := LastNews(polls[..n], settle, g);
        assert forall k :: 0 <= k < n ==> EventAt(polls, settle, k, g) == EventAt(polls[..n], settle, k, g);
        r
  }

  lemma AfterNext(polls: seq<Poll>, settle: nat, k: nat)
    requires k < |polls|
    ensures After(polls[..k + 1], settle) == Advance(After(polls[..k], settle), polls[k], settle)
  {
    assert polls[..k + 1][..k] == polls[..k];
  }

  /** A game is tracked exactly when the last news of it was a start. */
  lemma {:induction false} TrackedIffStartedLast(polls: seq<Poll>, settle: nat, g: GameId)
    ensures var s, last := After(polls, settle), LastNews(polls, settle, g);
            Tracked(s, g) <==> last.Some? && StartAt(polls, settle, last.value, g)
    ensures var s := After(polls, settle); s.pending.Keys !! s.running.Keys
  {
    if polls != [] {
      var n := |polls| - 1;
      TrackedIffStartedLast(polls[..n], settle, g);
      var last := LastNews(polls[..n], settle, g);
      if last.Some? { assert polls[..n][..last.value] == polls[..last.value]; }
    }
  }

  /** A stop is news only after a start with nothing in between, so two stops of a
      game always have a start between them. */
  lemma StartBetweenStops(polls: seq<Poll>, settle: nat, i: nat, j: nat, g: GameId)
    requires i < j < |polls| && StopAt(polls, settle, i, g) && StopAt(polls, settle, j, g)
    ensures exists k :: i < k < j && StartAt(polls, settle, k, g)
  {
    var before := polls[..j];
    TrackedIffStartedLast(before, settle, g);
    assert Tracked(After(before, settle), g);
    var last := LastNews(before, settle, g).value;
    assert EventAt(before, settle, i, g).Some? by { assert before[..i] == polls[..i]; }
    assert StartAt(polls, settle, last, g) by { assert before[..last] == polls[..last]; }
  }

  // ---- a stop needs a settled absence ----

  /** Timers are armed no earlier than the scan that found the game gone. */
  ghost predicate ClocksAgree(polls: seq<Poll>) {
    forall k, g :: 0 <= k < |polls| ==> polls[k].scannedAt <= polls[k].armedAt(g)
  }

  predicate AbsentDuring(polls: seq<Poll>, from: nat, to: nat, g: GameId) {
    from <= to <= |polls| && forall k :: from <= k < to ==> g !in polls[k].found
  }

  /** `g` was last found by poll `from - 1` and by no poll since. */
  predicate GoneSince(polls: seq<Poll>, from: nat, g: GameId) {
    0 < from < |polls| && g in polls[from - 1].found && AbsentDuring(polls, from, |polls|, g)
  }

  lemma StillAway(polls: seq<Poll>, from: nat, k: nat, g: GameId)
    requires k < |polls| && GoneSince(polls[..k], from, g) && g !in polls[k].found
    ensures 0 < from <= k && g in polls[from - 1].found && AbsentDuring(polls, from, k + 1, g)
    ensures polls[from] == polls[..k][from]
  {
    var before := polls[..k];
    assert before[from - 1] == polls[from - 1];
    forall j | from <= j < k + 1 ensures g !in polls[j].found {
      if j < k { assert before[j] == polls[j]; }
    }
  }

  /** A pending stop is due `settle` after the timer armed by the first scan without the game. */
  lemma {:induction false} PendingMeansGone(polls: seq<Poll>, settle: nat, g: GameId) returns (from: nat)
    requires g in After(polls, settle).pending
    ensures GoneSince(polls, from, g) && After(polls, settle).pending[g] == polls[from].armedAt(g) + settle
  {
    var n := |polls| - 1;
    var before := polls[..n];
    var s := After(before, settle);
    PendingAfter(s, polls[n], settle, g);
    if g in s.pending {
      from := PendingMeansGone(before, settle, g);
      StillAway(polls, from, n, g);
    } else {
      from := n;
      RunningIsLastScan(before, settle);
    }
  }

  /** What one poll does to the timer of `g`. */
  lemma PendingAfter(s: Status, p: Poll, settle: nat, g: GameId)
    ensures var deadline := if g in s.pending then s.pending[g] else p.armedAt(g) + settle;
      var after := Advance(s, p, settle).pending;
      && (g in after <==> (g in s.pending || g in s.running) && g !in p.found && p.now < deadline)
      && (g in after ==> after[g] == deadline)
      && (EventOf(s, p, settle, g) == Some(Stopped(g)) <==>
            (g in s.pending || g in s.running) && g !in p.found && p.now >= deadline)
  {
  }

  lemma RunningIsLastScan(polls: seq<Poll>, settle: nat)
    ensures After(polls, settle).running == if polls == [] then map[] else polls[|polls| - 1].found
  {
  }

  /** A stop fires only after an unbroken stretch of scans without the game that is
      at least `settle` long and follows a scan that found it. */
  lemma StopMeansSettled(polls: seq<Poll>, settle: nat, k: nat, g: GameId)
    requires k < |polls| && StopAt(polls, settle, k, g) && ClocksAgree(polls)
    ensures exists from :: 0 < from <= k && g in polls[from - 1].found && AbsentDuring(polls, from, k + 1, g)
                           && polls[k].now - polls[from].scannedAt >= settle
  {
    var before, p := polls[..k], polls[k];
    PendingAfter(After(before, settle), p, settle, g);
    if g in After(before, settle).pending {
      var from := PendingMeansGone(before, settle, g);
      StillAway(polls, from, k, g);
    } else {
      RunningIsLastScan(before, settle);
      assert AbsentDuring(polls, k, k + 1, g);
    }
  }

  // ---- a settled absence gets its stop ----

  predicate DueAt(polls: seq<Poll>, settle: nat, from: nat, k: nat, g: GameId)
    requires from <= k < |polls|
  {
    polls[k].now >= polls[from].armedAt(g) + settle
  }

  ghost predicate DueBefore(polls: seq<Poll>, settle: nat, from: nat, upTo: nat, g: GameId)
    requires from <= upTo <= |polls|
  {
    exists k :: from <= k < upTo && DueAt(polls, settle, from, k, g)
  }

  lemma DueBeforeNext(polls: seq<Poll>, settle: nat, from: nat, n: nat, g: GameId)
    requires from < n < |polls|
    ensures DueBefore(polls, settle, from, n + 1, g) <==>
      DueBefore(polls[..n], settle, from, n, g) || DueAt(polls, settle, from, n, g)
  {
    var before := polls[..n];
    forall k | from <= k < n ensures DueAt(before, settle, from, k, g) == DueAt(polls, settle, from, k, g) {
      assert before[k] == polls[k] && before[from] == polls[from];
    }
  }

  /** While a game stays away, its timer stands until the first poll past the deadline. */
  lemma {:induction false} TimerStands(polls: seq<Poll>, settle: nat, from: nat, g: GameId)
    requires GoneSince(polls, from, g)
    ensures var pending := After(polls, settle).pending;
            if DueBefore(polls, settle, from, |polls|, g) then g !in pending
            else g in pending && pending[g] == polls[from].armedAt(g) + settle
  {
    var n := |polls| - 1;
    var before, p := polls[..n], polls[n];
    var s := After(before, settle);
    PendingAfter(s, p, settle, g);
    RunningIsLastScan(before, settle);
    if n == from {
      TrackedIffStartedLast(before, settle, g);
      assert g !in s.pending && g in s.running;
      DueAtOnce(polls, settle, from, g);
    } else {
      ShorterAbsence(polls, from, g);
      TimerStands(before, settle, from, g);
      DueBeforeNext(polls, settle, from, n, g);
    }
  }

  lemma DueAtOnce(polls: seq<Poll>, settle: nat, from: nat, g: GameId)
    requires from < |polls|
    ensures DueBefore(polls, settle, from, from + 1, g) <==> DueAt(polls, settle, from, from, g)
  {
  }

  lemma ShorterAbsence(polls: seq<Poll>, from: nat, g: GameId)
    requires GoneSince(polls, from, g) && from < |polls| - 1
    ensures var before := polls[..|polls| - 1];
      GoneSince(before, from, g) && before[from] == polls[from] && g !in before[|before| - 1].found
  {
    var before := polls[..|polls| - 1];
    assert before[from - 1] == polls[from - 1];
    forall k | from <= k < |before| ensures g !in before[k].found { assert before[k] == polls[k]; }
  }

  /** A game that stays away gets its stop from the first poll past the deadline, and
      from no other: one stop, or none while no poll is past it. */
  lemma OneStopAtTheDeadline(polls: seq<Poll>, settle: nat, from: nat, k: nat, g: GameId)
    requires GoneSince(polls, from, g) && from <= k < |polls|
    ensures StopAt(polls, settle, k, g) <==>
            DueAt(polls, settle, from, k, g) && forall j :: from <= j < k ==> !DueAt(polls, settle, from, j, g)
  {
    var before, s := polls[..k], After(polls[..k], settle);
    PendingAfter(s, polls[k], settle, g);
    RunningIsLastScan(before, settle);
    if k == from {
      TrackedIffStartedLast(before, settle, g);
    } else {
      EarlierAbsence(polls, from, k, g);
      TimerStands(before, settle, from, g);
      forall j | from <= j < k ensures DueAt(before, settle, from, j, g) == DueAt(polls, settle, from, j, g) {
        assert before[j] == polls[j] && before[from] == polls[from];
      }
    }
  }

  lemma EarlierAbsence(polls: seq<Poll>, from: nat, k: nat, g: GameId)
    requires GoneSince(polls, from, g) && from < k < |polls|
    ensures var before := polls[..k];
      GoneSince(before, from, g) && before[from] == polls[from] && g !in before[k - 1].found && g !in polls[k].found
  {
    var before := polls[..k];
    assert before[from - 1] == polls[from - 1];
    forall j | from <= j < k ensures g !in before[j].found { assert before[j] == polls[j]; }
  }

  // ---- a flap announces a second start ----

  /** A start repeats the last news exactly when the game comes back while its stop settles. */
  lemma RepeatedStartIff(polls: seq<Poll>, settle: nat, k: nat, g: GameId)
    requires k < |polls| && StartAt(polls, settle, k, g)
    ensures var last := LastNews(polls[..k], settle, g);
            (last.Some? && StartAt(polls[..k], settle, last.value, g)) <==> g in After(polls[..k], settle).pending
  {
    TrackedIffStartedLast(polls[..k], settle, g);
  }

  /** Seen, missed once, seen again within the settle time: two starts and no stop. */
  lemma FlapStartsTwice(g: GameId, pid: Pid, settle: nat)
    requires settle > 0
    ensures var here, gone := Poll(map[g := pid], 0, _ => 0, 0), Poll(map[], 0, _ => 0, 0);
            var polls := [here, gone, here];
            && StartAt(polls, settle, 0, g) && EventAt(polls, settle, 1, g) == None && StartAt(polls, settle, 2, g)
  {
    var here, gone := Poll(map[g := pid], 0, _ => 0, 0), Poll(map[], 0, _ => 0, 0);
    var polls := [here, gone, here];
    assert polls[..0] == [];
    AfterNext(polls, settle, 0);
    AfterNext(polls, settle, 1);
    var s1 := After(polls[..1], settle);
    assert s1.running == here.found;
    assert Timers(s1, gone, settle)[g] == settle;
    var s2 := After(polls[..2], settle);
    assert g in s2.pending && g !in s2.running;
  }
}

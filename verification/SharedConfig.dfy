/** The account's shared configuration: seeding and tag-guarded replacement, with any
    number of requests interleaved statement by statement (crates/savr-server/src/db.rs). */
module SharedConfig {
  import opened Types

  type Tag = nat
  type Data = string

  const DEFAULT_DATA: Data := "{}"

  datatype Config = Config(tag: Tag, data: Data)

  /** A replacement submitted by a client, with the tag of the config it edited. */
  datatype Put = Put(tag: Tag, data: Data)

  datatype Reply =
    | Accepted(put: Put, config: Config)
    | TagConflict(put: Put, current: Option<Tag>)
    | Fetched(config: Config)
    | Vanished

  /** Where a request stands: the statement it runs next.  A request without a `Put` is
      a fetch. */
  datatype Task =
    | Looking(put: Option<Put>)
    | Seeding(put: Option<Put>, newTag: Tag)
    | Rereading(put: Option<Put>)
    | Swapping(wanted: Put, stored: Tag, newTag: Tag)
    | Reporting(lost: Put)
    | Answered(reply: Reply)

  /** A value the row held, and the request whose put wrote it there. */
  datatype Written = Seeded(config: Config) | PutBy(id: nat, put: Put, config: Config)

  /** The row, everything it ever held, and the requests under way. */
  datatype Machine = Machine(row: Option<Config>, past: seq<Written>, tasks: map<nat, Task>, nextTag: Tag)

  const NO_CONFIG := Machine(None, [], map[], 0)

  /** A fetch or put arrives, the owner's bootstrap seeds, or a request takes a step. */
  datatype Event = Arrive(id: nat, put: Option<Put>) | Bootstrap(id: nat) | Proceed(id: nat)

  function Move(m: Machine, id: nat, task: Task): Machine {
    m.(tasks := m.tasks[id := task])
  }

  function Write(m: Machine, w: Written): Machine {
    m.(row := Some(w.config), past := m.past + [w])
  }

  /** A stored tag is known: refuse a stale submission, else draw a fresh tag. */
  function Compare(m: Machine, id: nat, put: Put, stored: Tag): Machine {
    if put.tag != stored then Move(m, id, Answered(TagConflict(put, Some(stored))))
    else Move(m, id, Swapping(put, stored, m.nextTag)).(nextTag := m.nextTag + 1)
  }

  /** The first read found a row. */
  function Found(m: Machine, id: nat, put: Option<Put>, row: Config): Machine {
    match put
    case None => Move(m, id, Answered(Fetched(row)))
    case Some(p) => Compare(m, id, p, row.tag)
  }

  /** One statement of request `id`. */
  function ProceedWith(m: Machine, id: nat): Machine
    requires id in m.tasks
  {
    match m.tasks[id]
    case Looking(put) =>
      if m.row.Some? then Found(m, id, put, m.row.value)
      else Move(m, id, Seeding(put, m.nextTag)).(nextTag := m.nextTag + 1)
    case Seeding(put, newTag) =>
      var seeded := if m.row.None? then Write(m, Seeded(Config(newTag, DEFAULT_DATA))) else m;
      Move(seeded, id, Rereading(put))
    case Rereading(put) =>
      if m.row.Some? then Found(m, id, put, m.row.value) else Move(m, id, Answered(Vanished))
    case Swapping(put, stored, newTag) =>
      if m.row.Some? && m.row.value.tag == stored then
        var config := Config(newTag, put.data);
        Move(Write(m, PutBy(id, put, config)), id, Answered(Accepted(put, config)))
      else Move(m, id, Reporting(put))
    case Reporting(put) =>
      Move(m, id, Answered(TagConflict(put, if m.row.Some? then Some(m.row.value.tag) else None)))
    case Answered(_) => m
  }

  function Step(m: Machine, e: Event): Machine {
    match e
    case Arrive(id, put) => if id in m.tasks then m else Move(m, id, Looking(put))
    case Bootstrap(id) =>
      if id in m.tasks then m else Move(m, id, Seeding(None, m.nextTag)).(nextTag := m.nextTag + 1)
    case Proceed(id) => if id in m.tasks then ProceedWith(m, id) else m
  }

  function RunAll(m: Machine, events: seq<Event>): Machine {
    if events == [] then m else Step(RunAll(m, events[..|events| - 1]), events[|events| - 1])
  }

  // ---- what every interleaving keeps ----

  /** Each value after the seed replaced the one its writer had edited. */
  predicate Follows(prev: Written, next: Written) {
    && next.PutBy?
    && next.put.tag == prev.config.tag < next.config.tag
    && next.config.data == next.put.data
  }

  predicate Chained(past: seq<Written>) {
    && (past != [] ==> past[0].Seeded? && past[0].config.data == DEFAULT_DATA)
    && forall k :: 0 < k < |past| ==> Follows(past[k - 1], past[k])
  }

  predicate Latest(m: Machine) {
    m.row == if m.past == [] then None else Some(m.past[|m.past| - 1].config)
  }

  predicate TaskOk(m: Machine, id: nat) {
    id in m.tasks ==>
      match m.tasks[id]
      case Seeding(_, newTag) => newTag < m.nextTag
      case Rereading(_) => m.past != []
      case Swapping(put, stored, newTag) =>
        put.tag == stored < newTag < m.nextTag && m.past != [] && stored <= m.past[|m.past| - 1].config.tag
      case Reporting(put) => m.past != [] && put.tag < m.past[|m.past| - 1].config.tag
      case Answered(Accepted(put, config)) => PutBy(id, put, config) in m.past
      case Answered(Vanished) => false
      case _ => true
  }

  /** Every write in the past was acknowledged to its writer. */
  predicate Acknowledged(m: Machine, w: Written) {
    w.PutBy? ==> w.id in m.tasks && m.tasks[w.id] == Answered(Accepted(w.put, w.config))
  }

  ghost predicate Inv(m: Machine) {
    && Chained(m.past)
    && Latest(m)
    && (m.row.Some? ==> m.row.value.tag < m.nextTag)
    && (forall id :: TaskOk(m, id))
    && (forall w :: w in m.past ==> Acknowledged(m, w))
  }

  lemma MoveKeeps(m: Machine, id: nat, task: Task, nextTag: Tag)
    requires Inv(m) && nextTag >= m.nextTag
    requires id in m.tasks ==> !m.tasks[id].Answered?
    requires TaskOk(Move(m, id, task).(nextTag := nextTag), id)
    ensures Inv(Move(m, id, task).(nextTag := nextTag))
  {
    var n := Move(m, id, task).(nextTag := nextTag);
    forall other ensures TaskOk(n, other) {
      assert TaskOk(m, other);
    }
    forall w | w in n.past ensures Acknowledged(n, w) {
      assert Acknowledged(m, w);
    }
  }

  lemma WriteKeeps(m: Machine, id: nat, w: Written, task: Task)
    requires Inv(m) && id in m.tasks && !m.tasks[id].Answered?
    requires w.config.tag < m.nextTag
    requires if m.past == [] then w.Seeded? && w.config.data == DEFAULT_DATA
             else Follows(m.past[|m.past| - 1], w)
    requires var n := Move(Write(m, w), id, task); TaskOk(n, id) && Acknowledged(n, w)
    ensures Inv(Move(Write(m, w), id, task))
  {
    var n := Move(Write(m, w), id, task);
    forall other ensures TaskOk(n, other) {
      assert TaskOk(m, other);
    }
    forall v | v in n.past ensures Acknowledged(n, v) {
      if v != w { assert v in m.past && Acknowledged(m, v); }
    }
  }

  lemma CompareKeeps(m: Machine, id: nat, put: Put)
    requires Inv(m) && id in m.tasks && !m.tasks[id].Answered? && m.row.Some?
    ensures Inv(Compare(m, id, put, m.row.value.tag))
  {
    var stored := m.row.value.tag;
    if put.tag != stored {
      MoveKeeps(m, id, Answered(TagConflict(put, Some(stored))), m.nextTag);
    } else {
      MoveKeeps(m, id, Swapping(put, stored, m.nextTag), m.nextTag + 1);
    }
  }

  lemma FoundKeeps(m: Machine, id: nat, put: Option<Put>)
    requires Inv(m) && id in m.tasks && !m.tasks[id].Answered? && m.row.Some?
    ensures Inv(Found(m, id, put, m.row.value))
  {
    match put
    case None => MoveKeeps(m, id, Answered(Fetched(m.row.value)), m.nextTag);
    case Some(p) => CompareKeeps(m, id, p);
  }

  lemma ProceedKeeps(m: Machine, id: nat)
    requires Inv(m) && id in m.tasks
    ensures Inv(ProceedWith(m, id))
  {
    assert TaskOk(m, id);
    match m.tasks[id]
    case Looking(put) =>
      if m.row.Some? { FoundKeeps(m, id, put); }
      else { MoveKeeps(m, id, Seeding(put, m.nextTag), m.nextTag + 1); }
    case Seeding(put, newTag) =>
      if m.row.None? { WriteKeeps(m, id, Seeded(Config(newTag, DEFAULT_DATA)), Rereading(put)); }
      else { MoveKeeps(m, id, Rereading(put), m.nextTag); }
    case Rereading(put) => FoundKeeps(m, id, put);
    case Swapping(put, stored, newTag) =>
      if m.row.value.tag == stored {
        var config := Config(newTag, put.data);
        WriteKeeps(m, id, PutBy(id, put, config), Answered(Accepted(put, config)));
      } else {
        MoveKeeps(m, id, Reporting(put), m.nextTag);
      }
    case Reporting(put) => MoveKeeps(m, id, Answered(TagConflict(put, Some(m.row.value.tag))), m.nextTag);
    case Answered(_) =>
  }

  /** Whatever the interleaving, the invariant holds. */
  lemma {:induction false} RunKeeps(events: seq<Event>)
    ensures Inv(RunAll(NO_CONFIG, events))
  {
    if events != [] {
      var front, e := events[..|events| - 1], events[|events| - 1];
      RunKeeps(front);
      var m := RunAll(NO_CONFIG, front);
      match e
      case Arrive(id, put) => if id !in m.tasks { MoveKeeps(m, id, Looking(put), m.nextTag); }
      case Bootstrap(id) => if id !in m.tasks { MoveKeeps(m, id, Seeding(None, m.nextTag), m.nextTag + 1); }
      case Proceed(id) => if id in m.tasks { ProceedKeeps(m, id); }
    }
  }

  // ---- the promises ----

  /** `w` replaced exactly the value whose tag its writer submitted. */
  predicate Replaced(past: seq<Written>, k: int, id: nat, put: Put, config: Config) {
    && 0 < k < |past|
    && past[k] == PutBy(id, put, config)
    && past[k - 1].config.tag == put.tag
    && config.data == put.data
  }

  /** A request was accepted exactly when its value stands in the chain of values the
      row held, right after the value whose tag it had submitted. */
  lemma AcceptedIffReplaced(events: seq<Event>, id: nat, put: Put, config: Config)
    ensures var m := RunAll(NO_CONFIG, events);
            (id in m.tasks && m.tasks[id] == Answered(Accepted(put, config)))
            <==> exists k :: Replaced(m.past, k, id, put, config)
  {
    var m := RunAll(NO_CONFIG, events);
    RunKeeps(events);
    if id in m.tasks && m.tasks[id] == Answered(Accepted(put, config)) {
      assert TaskOk(m, id);
      var k :| 0 <= k < |m.past| && m.past[k] == PutBy(id, put, config);
      assert Follows(m.past[k - 1], m.past[k]);
      assert Replaced(m.past, k, id, put, config);
    }
    if k :| Replaced(m.past, k, id, put, config) {
      assert Acknowledged(m, m.past[k]);
    }
  }

  lemma {:induction false} TagsRise(past: seq<Written>, i: int, j: int)
    requires Chained(past) && 0 <= i < j < |past|
    ensures past[i].config.tag < past[j].config.tag
    decreases j
  {
    assert Follows(past[j - 1], past[j]);
    if i < j - 1 { TagsRise(past, i, j - 1); }
  }

  lemma ReplacedOnce(past: seq<Written>, k: int, n: int, i: nat, j: nat, p: Put, q: Put, c: Config, d: Config)
    requires Chained(past) && k < n && Replaced(past, k, i, p, c) && Replaced(past, n, j, q, d)
    ensures p.tag < q.tag && c.tag < d.tag
  {
    TagsRise(past, k - 1, n - 1);
    TagsRise(past, k, n);
  }

  /** No two accepted requests replaced the same value, and no tag is handed out twice. */
  lemma NoLostUpdate(events: seq<Event>, i: nat, j: nat, p: Put, q: Put, c: Config, d: Config)
    requires var m := RunAll(NO_CONFIG, events);
             && i in m.tasks && j in m.tasks && i != j
             && m.tasks[i] == Answered(Accepted(p, c)) && m.tasks[j] == Answered(Accepted(q, d))
    ensures p.tag != q.tag && c.tag != d.tag
  {
    var past := RunAll(NO_CONFIG, events).past;
    assert Chained(past) by { RunKeeps(events); }
    AcceptedIffReplaced(events, i, p, c);
    AcceptedIffReplaced(events, j, q, d);
    var k :| Replaced(past, k, i, p, c);
    var n :| Replaced(past, n, j, q, d);
    assert k != n;
    if k < n { ReplacedOnce(past, k, n, i, j, p, q, c, d); } else { ReplacedOnce(past, n, k, j, i, q, p, d, c); }
  }

  /** The row is the seed or the value of the last accepted request, and a row once
      seeded never goes missing. */
  lemma RowIsLastAccepted(events: seq<Event>)
    ensures var m := RunAll(NO_CONFIG, events);
            && (m.past == [] <==> m.row.None?)
            && (m.row.Some? ==>
                  || m.past == [Seeded(m.row.value)]
                  || exists id, put :: id in m.tasks && m.tasks[id] == Answered(Accepted(put, m.row.value)))
            && (forall id :: id in m.tasks ==> m.tasks[id] != Answered(Vanished))
  {
    var m := RunAll(NO_CONFIG, events);
    RunKeeps(events);
    forall id | id in m.tasks ensures m.tasks[id] != Answered(Vanished) {
      assert TaskOk(m, id);
    }
    if |m.past| > 1 {
      var w := m.past[|m.past| - 1];
      assert Follows(m.past[|m.past| - 2], w);
      assert Acknowledged(m, w);
      assert m.tasks[w.id] == Answered(Accepted(w.put, m.row.value));
    } else if |m.past| == 1 {
      assert m.past == [Seeded(m.row.value)];
    }
  }

  /** Left alone, a put is accepted exactly when it submits the stored tag. */
  lemma AloneAcceptedIff(m: Machine, id: nat, put: Put)
    requires m.row.Some? && id !in m.tasks
    ensures var n := Step(Step(Step(m, Arrive(id, Some(put))), Proceed(id)), Proceed(id));
            && n.row.Some? && id in n.tasks
            && (n.tasks[id] == Answered(Accepted(put, n.row.value)) <==> put.tag == m.row.value.tag)
            && (put.tag == m.row.value.tag ==> n.row.value.data == put.data)
            && (put.tag != m.row.value.tag ==>
                  n.row == m.row && n.tasks[id] == Answered(TagConflict(put, Some(m.row.value.tag))))
  {
    var a := Step(m, Arrive(id, Some(put)));
    var b := Step(a, Proceed(id));
    if put.tag == m.row.value.tag { assert b.tasks[id] == Swapping(put, put.tag, m.nextTag); }
  }

  // ---- answers are the row's ----

  /** The put a request carries, if any. */
  function PutOf(task: Task): Option<Put> {
    match task
    case Looking(put) => put
    case Seeding(put, _) => put
    case Rereading(put) => put
    case Swapping(wanted, _, _) => Some(wanted)
    case Reporting(lost) => Some(lost)
    case Answered(Accepted(put, _)) => Some(put)
    case Answered(TagConflict(put, _)) => Some(put)
    case Answered(_) => None
  }

  lemma StepCarries(m: Machine, e: Event, id: nat)
    requires Inv(m) && id in Step(m, e).tasks
    ensures var put := PutOf(Step(m, e).tasks[id]);
      if id in m.tasks then put == PutOf(m.tasks[id])
      else e == Arrive(id, put) || (e == Bootstrap(id) && put == None)
  {
    if id in m.tasks { assert TaskOk(m, id); }
  }

  /** Only its own step answers a request, and an answer stands. */
  lemma StepAnswers(m: Machine, e: Event, id: nat)
    ensures id in m.tasks && m.tasks[id].Answered? ==> id in Step(m, e).tasks && Step(m, e).tasks[id] == m.tasks[id]
    ensures id in Step(m, e).tasks && Step(m, e).tasks[id].Answered? && !(id in m.tasks && m.tasks[id].Answered?) ==>
      e == Proceed(id) && id in m.tasks && Step(m, e) == ProceedWith(m, id)
  {
  }

  /** A request still carries what it arrived with. */
  lemma {:induction false} Arrived(events: seq<Event>, id: nat) returns (j: nat)
    requires id in RunAll(NO_CONFIG, events).tasks
    ensures j < |events|
    ensures var put := PutOf(RunAll(NO_CONFIG, events).tasks[id]);
      events[j] == Arrive(id, put) || (events[j] == Bootstrap(id) && put == None)
  {
    var front, e := events[..|events| - 1], events[|events| - 1];
    var m := RunAll(NO_CONFIG, front);
    RunKeeps(front);
    StepCarries(m, e, id);
    if id in m.tasks {
      j := Arrived(front, id);
    } else {
      j := |events| - 1;
    }
  }

  ghost predicate AnswersTruly(before: Machine, after: Machine, reply: Reply) {
    before.row.Some? &&
    match reply
    case Fetched(config) => config == before.row.value && after.row == before.row
    case TagConflict(put, current) =>
      current == Some(before.row.value.tag) && put.tag != before.row.value.tag && after.row == before.row
    case Accepted(put, config) =>
      put.tag == before.row.value.tag && after.row == Some(config) && config.data == put.data
    case Vanished => false
  }

  lemma StepAnswersTruly(m: Machine, id: nat)
    requires Inv(m) && id in m.tasks && !m.tasks[id].Answered? && ProceedWith(m, id).tasks[id].Answered?
    ensures AnswersTruly(m, ProceedWith(m, id), ProceedWith(m, id).tasks[id].reply)
  {
    assert TaskOk(m, id);
  }

  /** Some step of the run, after the request arrived, answered it by the row of that moment. */
  lemma {:induction false} AnsweredByTheRow(events: seq<Event>, id: nat) returns (j: nat, k: nat)
    requires id in RunAll(NO_CONFIG, events).tasks && RunAll(NO_CONFIG, events).tasks[id].Answered?
    ensures j < k < |events| && events[k] == Proceed(id)
    ensures var reply := RunAll(NO_CONFIG, events).tasks[id].reply;
      && AnswersTruly(RunAll(NO_CONFIG, events[..k]), RunAll(NO_CONFIG, events[..k + 1]), reply)
      && var put := PutOf(Answered(reply));
         events[j] == Arrive(id, put) || (events[j] == Bootstrap(id) && put == None)
  {
    var n := |events| - 1;
    var front, e := events[..n], events[n];
    var m := RunAll(NO_CONFIG, front);
    RunKeeps(front);
    StepAnswers(m, e, id);
    if id in m.tasks && m.tasks[id].Answered? {
      j, k := AnsweredByTheRow(front, id);
      assert front[..k] == events[..k] && front[..k + 1] == events[..k + 1];
    } else {
      k := n;
      j := Arrived(front, id);
      assert events[..n + 1] == events;
      StepCarries(m, e, id);
      StepAnswersTruly(m, id);
    }
  }

  /** In every interleaving a fetch answers the row, tag and data, as it stood at one moment
      between its arrival and its answer. */
  lemma FetchedIsTheRow(events: seq<Event>, id: nat, config: Config)
    requires id in RunAll(NO_CONFIG, events).tasks
    requires RunAll(NO_CONFIG, events).tasks[id] == Answered(Fetched(config))
    ensures exists j, k ::
      && 0 <= j < k < |events| && (events[j] == Arrive(id, None) || events[j] == Bootstrap(id))
      && events[k] == Proceed(id)
      && RunAll(NO_CONFIG, events[..k]).row == Some(config) == RunAll(NO_CONFIG, events[..k + 1]).row
  {
    var j, k := AnsweredByTheRow(events, id);
  }

  /** A put is refused over the tag the row has at that moment, which is not the submitted
      one, and changes nothing. */
  lemma ConflictIsTheRows(events: seq<Event>, id: nat, put: Put, current: Option<Tag>)
    requires id in RunAll(NO_CONFIG, events).tasks
    requires RunAll(NO_CONFIG, events).tasks[id] == Answered(TagConflict(put, current))
    ensures exists j, k ::
      && 0 <= j < k < |events| && events[j] == Arrive(id, Some(put)) && events[k] == Proceed(id)
      && var row := RunAll(NO_CONFIG, events[..k]).row;
         row.Some? && current == Some(row.value.tag) && put.tag != row.value.tag
         && RunAll(NO_CONFIG, events[..k + 1]).row == row
  {
    var j, k := AnsweredByTheRow(events, id);
  }

  /** A put is accepted by replacing, in one step, the row of the submitted tag. */
  lemma AcceptedIsTheRow(events: seq<Event>, id: nat, put: Put, config: Config)
    requires id in RunAll(NO_CONFIG, events).tasks
    requires RunAll(NO_CONFIG, events).tasks[id] == Answered(Accepted(put, config))
    ensures exists j, k ::
      && 0 <= j < k < |events| && events[j] == Arrive(id, Some(put)) && events[k] == Proceed(id)
      && var row := RunAll(NO_CONFIG, events[..k]).row;
         row.Some? && put.tag == row.value.tag && config.data == put.data
         && RunAll(NO_CONFIG, events[..k + 1]).row == Some(config)
  {
    var j, k := AnsweredByTheRow(events, id);
  }

  /** Left alone, a fetch of an existing row answers that row and writes nothing. */
  lemma AloneFetch(m: Machine, id: nat)
    requires m.row.Some? && id !in m.tasks
    ensures var n := Step(Step(m, Arrive(id, None)), Proceed(id));
      n == m.(tasks := m.tasks[id := Answered(Fetched(m.row.value))])
  {
  }

  /** Left alone, the first fetch seeds the default config under a fresh tag and answers it. */
  lemma FirstFetch(m: Machine, id: nat)
    requires m.row.None? && id !in m.tasks
    ensures var n := Step(Step(Step(Step(m, Arrive(id, None)), Proceed(id)), Proceed(id)), Proceed(id));
      var seeded := Config(m.nextTag, "{}");
      n == Machine(Some(seeded), m.past + [Seeded(seeded)], m.tasks[id := Answered(Fetched(seeded))], m.nextTag + 1)
  {
    var a := Step(Step(m, Arrive(id, None)), Proceed(id));
    assert a.tasks[id] == Seeding(None, m.nextTag);
    var b := Step(a, Proceed(id));
    assert b.tasks[id] == Rereading(None) && b.row == Some(Config(m.nextTag, DEFAULT_DATA));
  }
}

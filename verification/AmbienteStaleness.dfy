/**
 * The ambiente cache under interleaving: both readers, create/update/softDelete and the warm-up run
 * as tasks that touch the database at one instant and their own cache entry at a later one. `gap`
 * bounds the time between the two. Redis and the process may fail at any point.
 *
 * The flow-callback cache is the same machine, with ids for uids and only `url` and `del` of a row in
 * use: its readers also go on when Redis cannot be read, and its updates drop the entry.
 */
module AmbienteStaleness {
  import opened Common
  import opened Entities
  import opened AmbienteCache

  /** The table as it is from `since` on, until the next version. */
  datatype Version = Version(since: int, table: map<int, Ambiente>)

  /** `access` is the instant of the database access the value comes from: a history variable. */
  datatype Cached = Cached(value: Ambiente, written: int, access: int)

  datatype Task =
    | Missed(id: int)                                 // a reader that missed, before findById
    | Storing(id: int, value: Ambiente, access: int, writer: bool)  // read or wrote the row, before redis.set
    | Evicting(id: int, access: int)                  // soft-deleted the row, before redis.del

  datatype State = State(
    now: int,
    versions: seq<Version>,
    cache: map<int, Cached>,
    tasks: map<nat, Task>, nextTask: nat)

  /** `seen` is the version in which the findById at the start of an update or a softDelete found the row. */
  datatype Step =
    | Tick(seconds: nat)
    | Miss(id: int)                                // no live entry, or for a flow callback Redis cannot be read
    | Read(t: nat)
    | WarmRead(id: int)
    | Create(id: int, row: Ambiente)               // create commits
    | Register(id: int, row: Ambiente)             // create of a flow callback commits, and nothing is cached
    | Write(id: int, row: Ambiente, seen: nat)     // update commits
    | Replace(id: int, row: Ambiente, seen: nat)   // update of a flow callback commits
    | Delete(id: int, seen: nat)                   // softDelete commits
    | Store(t: nat)
    | Evict(t: nat)
    | Lose(id: int)                     // Redis drops the entry
    | Abort(t: nat)                     // Redis fails, or the process dies

  function Table(s: State): map<int, Ambiente>
    requires s.versions != []
  {
    s.versions[|s.versions| - 1].table
  }

  predicate IsLive(s: State, id: int)
  {
    id in s.cache && s.now < s.cache[id].written + CACHE_TTL
  }

  /** The row was active when it was looked up; it may be deleted by the time of the commit. */
  predicate SeenActive(s: State, id: int, seen: nat)
  {
    seen < |s.versions| && FindAmbiente(s.versions[seen].table, id).Some?
  }

  /** A commit leaves the flag `del` of the row alone. */
  predicate Rewrites(s: State, id: int, row: Ambiente)
    requires s.versions != []
  {
    id in Table(s) && row.id == id && row.del == Table(s)[id].del
  }

  predicate Enabled(gap: nat, s: State, step: Step)
  {
    s.versions != [] &&
    match step
    case Tick(_) => true
    case Miss(_) => true
    case Read(t) => t in s.tasks && s.tasks[t].Missed?
    case WarmRead(id) => FindAmbiente(Table(s), id).Some?
    case Create(id, row) => id !in Table(s) && row.id == id && !row.del
    case Register(id, row) => id !in Table(s) && row.id == id && !row.del
    case Write(id, row, seen) => SeenActive(s, id, seen) && Rewrites(s, id, row)
    case Replace(id, row, seen) => SeenActive(s, id, seen) && Rewrites(s, id, row)
    case Delete(id, seen) => SeenActive(s, id, seen) && id in Table(s)
    case Store(t) => t in s.tasks && s.tasks[t].Storing? && s.now <= s.tasks[t].access + gap
    case Evict(t) => t in s.tasks && s.tasks[t].Evicting? && s.now <= s.tasks[t].access + gap
    case Lose(_) => true
    case Abort(t) => t in s.tasks
  }

  function Spawn(s: State, task: Task): State
  {
    s.(tasks := s.tasks[s.nextTask := task], nextTask := s.nextTask + 1)
  }

  function Commit(s: State, id: int, row: Ambiente): State
    requires s.versions != []
  {
    s.(versions := s.versions + [Version(s.now, Table(s)[id := row])])
  }

  function Apply(gap: nat, s: State, step: Step): State
    requires Enabled(gap, s, step)
  {
    match step
    case Tick(seconds) => s.(now := s.now + seconds)
    case Miss(id) => Spawn(s, Missed(id))
    case Read(t) =>
      var id := s.tasks[t].id;
      var found := FindAmbiente(Table(s), id);
      s.(tasks := if found.Some? then s.tasks[t := Storing(id, found.value, s.now, false)] else s.tasks - {t})
    case WarmRead(id) => Spawn(s, Storing(id, Table(s)[id], s.now, false))
    case Create(id, row) => Spawn(Commit(s, id, row), Storing(id, row, s.now, true))
    case Register(id, row) => Commit(s, id, row)
    case Write(id, row, _) => Spawn(Commit(s, id, row), Storing(id, row, s.now, true))
    case Replace(id, row, _) => Spawn(Commit(s, id, row), Evicting(id, s.now))
    case Delete(id, _) => Spawn(Commit(s, id, Table(s)[id].(del := true)), Evicting(id, s.now))
    case Store(t) =>
      var task := s.tasks[t];
      s.(tasks := s.tasks - {t}, cache := s.cache[task.id := Cached(task.value, s.now, task.access)])
    case Evict(t) => s.(tasks := s.tasks - {t}, cache := s.cache - {s.tasks[t].id})
    case Lose(id) => s.(cache := s.cache - {id})
    case Abort(t) => s.(tasks := s.tasks - {t})
  }

  function Exec(gap: nat, s: State, steps: seq<Step>): Option<State>
  {
    if steps == [] then Some(s) else
    var before := Exec(gap, s, steps[..|steps| - 1]);
    var step := steps[|steps| - 1];
    if before.Some? && Enabled(gap, before.value, step) then Some(Apply(gap, before.value, step)) else None
  }

  function Start(table: map<int, Ambiente>): State
  {
    State(0, [Version(0, table)], map[], map[], 0)
  }

  // --- Bounded staleness ----------------------------------------------------------------------

  /** The instant at which version `k` stops being the table. */
  function Until(s: State, k: nat): int
    requires k < |s.versions|
  {
    if k + 1 < |s.versions| then s.versions[k + 1].since else s.now
  }

  predicate InVersion(s: State, k: nat, id: int, value: Ambiente, u: int)
  {
    k < |s.versions| && s.versions[k].since <= u <= Until(s, k)
    && id in s.versions[k].table && s.versions[k].table[id] == value
  }

  /** At instant `u` the table really held this row for `id`. */
  ghost predicate Committed(s: State, id: int, value: Ambiente, u: int)
  {
    exists k: nat :: InVersion(s, k, id, value, u)
  }

  ghost predicate TasksReal(s: State)
  {
    forall t :: t in s.tasks && s.tasks[t].Storing? ==>
      && s.tasks[t].access <= s.now
      && Committed(s, s.tasks[t].id, s.tasks[t].value, s.tasks[t].access)
  }

  ghost predicate CacheReal(gap: nat, s: State)
  {
    forall id :: id in s.cache ==>
      && s.cache[id].written - gap <= s.cache[id].access <= s.cache[id].written <= s.now
      && Committed(s, id, s.cache[id].value, s.cache[id].access)
  }

  /** Rows never go, and a deleted one stays deleted. */
  ghost predicate Outlives(before: map<int, Ambiente>, after: map<int, Ambiente>)
  {
    forall id :: id in before ==> id in after && (before[id].del ==> after[id].del)
  }

  ghost predicate RowsStay(s: State)
    requires s.versions != []
  {
    forall k: nat :: k < |s.versions| ==> Outlives(s.versions[k].table, Table(s))
  }

  ghost predicate Inv(gap: nat, s: State)
  {
    && s.versions != [] && RowsStay(s)
    && (forall k :: 0 <= k < |s.versions| ==> s.versions[k].since <= s.now)
    && (forall t :: t in s.tasks ==> t < s.nextTask)
    && TasksReal(s) && CacheReal(gap, s)
  }

  /** History only grows: what was committed at an instant stays so. */
  ghost predicate Later(s: State, s': State)
  {
    && s.versions <= s'.versions && s.now <= s'.now
    && (|s.versions| < |s'.versions| ==> s.now <= s'.versions[|s.versions|].since)
  }

  /** The current row is committed now. */
  lemma CurrentIsCommitted(s: State, id: int)
    requires s.versions != [] && id in Table(s) && s.versions[|s.versions| - 1].since <= s.now
    ensures Committed(s, id, Table(s)[id], s.now)
  {
    assert InVersion(s, |s.versions| - 1, id, Table(s)[id], s.now);
  }

  lemma CommittedStays(s: State, s': State, id: int, value: Ambiente, u: int)
    requires Later(s, s') && Committed(s, id, value, u)
    ensures Committed(s', id, value, u)
  {
    var k: nat :| InVersion(s, k, id, value, u);
    assert InVersion(s', k, id, value, u);
  }

  lemma RealStays(gap: nat, s: State, s': State)
    requires Later(s, s')
    ensures TasksReal(s) && s'.tasks == s.tasks ==> TasksReal(s')
    ensures CacheReal(gap, s) && s'.cache == s.cache ==> CacheReal(gap, s')
  {
    forall id, value, u | Committed(s, id, value, u) ensures Committed(s', id, value, u) {
      CommittedStays(s, s', id, value, u);
    }
  }

  lemma StepKeepsInv(gap: nat, s: State, step: Step)
    requires Inv(gap, s) && Enabled(gap, s, step)
    ensures Inv(gap, Apply(gap, s, step))
  {
    var s' := Apply(gap, s, step);
    match step {
      case Tick(_) => RealStays(gap, s, s');
      case Read(t) => 
        if FindAmbiente(Table(s), s.tasks[t].id).Some? {
          CurrentIsCommitted(s, s.tasks[t].id);
        }
        SameHistory(gap, s, s');
      case WarmRead(id) =>
        CurrentIsCommitted(s, id);
        SameHistory(gap, s, s');
      case Create(id, row) => CommitKeeps(gap, s, id, row, Storing(id, row, s.now, true));
      case Register(id, row) => CommitOnly(gap, s, id, row);
      case Write(id, row, _) => CommitKeeps(gap, s, id, row, Storing(id, row, s.now, true));
      case Replace(id, row, _) => CommitKeeps(gap, s, id, row, Evicting(id, s.now));
      case Delete(id, _) =>
        var row := Table(s)[id].(del := true);
        CommitKeeps(gap, s, id, row, Evicting(id, s.now));
      case _ => SameHistory(gap, s, s');
    }
  }

  lemma SameHistory(gap: nat, s: State, s': State)
    requires s'.versions == s.versions && s'.now == s.now
    ensures forall id, value, u :: Committed(s, id, value, u) ==> Committed(s', id, value, u)
  {
    forall id, value, u | Committed(s, id, value, u) ensures Committed(s', id, value, u) {
      CommittedStays(s, s', id, value, u);
    }
  }

  lemma CommitOnly(gap: nat, s: State, id: int, row: Ambiente)
    requires Inv(gap, s) && (id in Table(s) && Table(s)[id].del ==> row.del)
    ensures Inv(gap, Commit(s, id, row)) && Committed(Commit(s, id, row), id, row, s.now)
  {
    var s1 := Commit(s, id, row);
    RealStays(gap, s, s1);
    CurrentIsCommitted(s1, id);
    forall k: nat | k < |s1.versions| ensures Outlives(s1.versions[k].table, Table(s1)) {
      assert k < |s.versions| ==> Outlives(s.versions[k].table, Table(s));
    }
  }

  lemma CommitKeeps(gap: nat, s: State, id: int, row: Ambiente, task: Task)
    requires Inv(gap, s) && (id in Table(s) && Table(s)[id].del ==> row.del)
    requires task == Evicting(id, s.now) || task == Storing(id, row, s.now, true)
    ensures Inv(gap, Spawn(Commit(s, id, row), task))
  {
    var s1 := Commit(s, id, row);
    CommitOnly(gap, s, id, row);
    SameHistory(gap, s1, Spawn(s1, task));
  }

  lemma {:induction false} RunKeepsInv(gap: nat, table: map<int, Ambiente>, steps: seq<Step>)
    requires Exec(gap, Start(table), steps).Some?
    ensures Inv(gap, Exec(gap, Start(table), steps).value)
  {
    if steps != [] {
      RunKeepsInv(gap, table, steps[..|steps| - 1]);
      StepKeepsInv(gap, Exec(gap, Start(table), steps[..|steps| - 1]).value, steps[|steps| - 1]);
    }
  }

  /**
   * Whatever the interleaving and whatever fails, a live entry is the row that the table really held
   * for its id at some instant of the last CACHE_TTL + gap seconds: no invented and no older value is
   * served. An entry flagged as deleted, which readers refuse, is of a row that is deleted.
   */
  lemma BoundedStaleness(gap: nat, table: map<int, Ambiente>, steps: seq<Step>, id: int) returns (u: int)
    requires Exec(gap, Start(table), steps).Some? && IsLive(Exec(gap, Start(table), steps).value, id)
    ensures var s := Exec(gap, Start(table), steps).value;
      && s.now - CACHE_TTL - gap < u <= s.now && Committed(s, id, s.cache[id].value, u)
      && (s.cache[id].value.del ==> s.versions != [] && id in Table(s) && Table(s)[id].del)
  {
    RunKeepsInv(gap, table, steps);
    var s := Exec(gap, Start(table), steps).value;
    u := s.cache[id].access;
    var k: nat :| InVersion(s, k, id, s.cache[id].value, u);
    assert Outlives(s.versions[k].table, Table(s));
  }

  // --- The bound is tight ---------------------------------------------------------------------

  const ROW := Ambiente(1, "production", "https://whiz.net.br", false)

  /** A reader reads the row, the row is deleted and evicted, and only then the reader stores it. */
  function SlowReader(gap: nat): seq<Step>
  {
    [Miss(1), Read(0), Delete(1, 0), Evict(1), Tick(gap), Store(0), Tick(CACHE_TTL - 1)]
  }

  lemma ExecAppend(gap: nat, s: State, steps: seq<Step>, at: State, step: Step, next: State)
    requires Exec(gap, s, steps) == Some(at) && Enabled(gap, at, step) && Apply(gap, at, step) == next
    ensures Exec(gap, s, steps + [step]) == Some(next)
  {
    assert (steps + [step])[..|steps + [step]| - 1] == steps;
  }

  /** So under interleaving the cache is not transparent: a deleted ambiente is served for that long. */
  lemma BoundIsTight(gap: nat) returns (s: State)
    ensures Exec(gap, Start(map[1 := ROW]), SlowReader(gap)) == Some(s)
    ensures IsLive(s, 1) && s.cache[1].value == ROW
    ensures FindAmbiente(Table(s), 1).None?
    ensures forall u :: Committed(s, 1, ROW, u) ==> u <= s.now - (CACHE_TTL - 1) - gap
  {
    var s0 := Start(map[1 := ROW]);
    var steps := SlowReader(gap);
    var s1 := s0.(tasks := map[0 := Missed(1)], nextTask := 1);
    assert s0.tasks[0 := Missed(1)] == s1.tasks;
    ExecAppend(gap, s0, [], s0, Miss(1), s1);
    var s2 := s1.(tasks := map[0 := Storing(1, ROW, 0, false)]);
    assert s1.tasks[0 := Storing(1, ROW, 0, false)] == s2.tasks;
    ExecAppend(gap, s0, [] + [Miss(1)], s1, Read(0), s2);
    assert steps[..2] == [] + [Miss(1)] + [Read(0)];
    var v1 := Version(0, map[1 := ROW.(del := true)]);
    var s3 := s2.(versions := [Version(0, map[1 := ROW]), v1], tasks := s2.tasks[1 := Evicting(1, 0)], nextTask := 2);
    assert map[1 := ROW][1 := ROW.(del := true)] == v1.table;
    ExecAppend(gap, s0, steps[..2], s2, Delete(1, 0), s3);
    assert steps[..3] == steps[..2] + [Delete(1, 0)];
    s := TightEnd(gap, s0, s3);
  }

  lemma TightEnd(gap: nat, s0: State, s3: State) returns (s: State)
    requires Exec(gap, s0, SlowReader(gap)[..3]) == Some(s3)
    requires s3 == State(0, [Version(0, map[1 := ROW]), Version(0, map[1 := ROW.(del := true)])], map[],
      map[0 := Storing(1, ROW, 0, false)][1 := Evicting(1, 0)], 2)
    ensures Exec(gap, s0, SlowReader(gap)) == Some(s)
    ensures s == s3.(now := gap + (CACHE_TTL - 1), cache := map[1 := Cached(ROW, gap, 0)], tasks := map[])
    ensures forall u :: Committed(s, 1, ROW, u) ==> u <= 0
  {
    var steps := SlowReader(gap);
    var s4 := s3.(tasks := map[0 := Storing(1, ROW, 0, false)]);
    assert s3.tasks - {1} == s4.tasks && s3.cache - {1} == s4.cache;
    ExecAppend(gap, s0, steps[..3], s3, Evict(1), s4);
    assert steps[..4] == steps[..3] + [Evict(1)];
    var s5 := s4.(now := gap);
    ExecAppend(gap, s0, steps[..4], s4, Tick(gap), s5);
    assert steps[..5] == steps[..4] + [Tick(gap)];
    var s6 := s5.(tasks := map[], cache := map[1 := Cached(ROW, gap, 0)]);
    assert s5.tasks - {0} == s6.tasks && s5.cache[1 := Cached(ROW, gap, 0)] == s6.cache;
    ExecAppend(gap, s0, steps[..5], s5, Store(0), s6);
    assert steps[..6] == steps[..5] + [Store(0)];
    s := s6.(now := gap + (CACHE_TTL - 1));
    ExecAppend(gap, s0, steps[..6], s6, Tick(CACHE_TTL - 1), s);
    assert steps == steps[..6] + [Tick(CACHE_TTL - 1)];
  }

  // --- When the cache is transparent under interleaving ---------------------------------------

  predicate WriterOn(task: Task, id: int)
  {
    (task.Evicting? || (task.Storing? && task.writer)) && task.id == id
  }

  predicate Alone(s: State, id: int)
  {
    forall t :: t in s.tasks && !s.tasks[t].Missed? ==> s.tasks[t].id != id
  }

  /**
   * The discipline that makes it so: no commit for an ambiente while another task is between its
   * database access and its cache access for the same ambiente, and no writer fails half-way.
   */
  ghost predicate Exclusive(s: State, step: Step)
  {
    match step
    case Create(id, _) => Alone(s, id)
    case Register(id, _) => Alone(s, id)
    case Write(id, _, _) => Alone(s, id)
    case Replace(id, _, _) => Alone(s, id)
    case Delete(id, _) => Alone(s, id)
    case Abort(t) => t in s.tasks && !WriterOn(s.tasks[t], s.tasks[t].id)
    case _ => true
  }

  ghost predicate AllExclusive(gap: nat, table: map<int, Ambiente>, steps: seq<Step>)
    requires Exec(gap, Start(table), steps).Some?
  {
    steps == [] ||
    (var before := steps[..|steps| - 1];
     AllExclusive(gap, table, before) && Exclusive(Exec(gap, Start(table), before).value, steps[|steps| - 1]))
  }

  ghost predicate Fresh(s: State)
  {
    && s.versions != []
    && (forall t :: t in s.tasks ==> t < s.nextTask)
    && (forall t :: t in s.tasks && s.tasks[t].Storing? ==>
          s.tasks[t].id in Table(s) && Table(s)[s.tasks[t].id] == s.tasks[t].value)
    && (forall id :: id in s.cache ==> FreshEntry(s, id))
  }

  /** The entry is the current row, or some writer is about to replace it. */
  ghost predicate FreshEntry(s: State, id: int)
    requires s.versions != []
  {
    id in s.cache ==>
      || (id in Table(s) && Table(s)[id] == s.cache[id].value)
      || exists t :: t in s.tasks && WriterOn(s.tasks[t], id)
  }

  lemma WriterStays(s: State, s': State, id: int)
    requires s.versions != [] && s'.versions != [] && FreshEntry(s, id)
    requires (id in s.cache <==> id in s'.cache) && (id in s.cache ==> s'.cache[id] == s.cache[id])
    requires id in Table(s) ==> id in Table(s') && Table(s')[id] == Table(s)[id]
    requires forall t :: t in s.tasks && WriterOn(s.tasks[t], id) ==> t in s'.tasks && s'.tasks[t] == s.tasks[t]
    ensures FreshEntry(s', id)
  {
    if u :| u in s.tasks && WriterOn(s.tasks[u], id) {
      assert WriterOn(s'.tasks[u], id);
    }
  }

  lemma ExclusiveStep(gap: nat, s: State, step: Step)
    requires Fresh(s) && Enabled(gap, s, step) && Exclusive(s, step)
    ensures Fresh(Apply(gap, s, step))
  {
    var s' := Apply(gap, s, step);
    forall id | id in s'.cache ensures FreshEntry(s', id) {
      if id in s.cache {
        assert FreshEntry(s, id);
      }
      if step.Store? && s.tasks[step.t].id == id {
      } else if (step.Create? || step.Write? || step.Replace? || step.Delete?) && step.id == id {
        assert WriterOn(s'.tasks[s.nextTask], id);
      } else {
        WriterStays(s, s', id);
      }
    }
  }

  /** Then every entry that no writer is about to replace is the current row. */
  lemma {:induction false} ExclusiveRunsAreTransparent(gap: nat, table: map<int, Ambiente>, steps: seq<Step>)
    requires Exec(gap, Start(table), steps).Some? && AllExclusive(gap, table, steps)
    ensures Fresh(Exec(gap, Start(table), steps).value)
    ensures var s := Exec(gap, Start(table), steps).value;
      forall id :: id in s.cache && (forall t :: t in s.tasks ==> !WriterOn(s.tasks[t], id)) ==>
        id in Table(s) && s.cache[id].value == Table(s)[id]
  {
    if steps != [] {
      var before := steps[..|steps| - 1];
      ExclusiveRunsAreTransparent(gap, table, before);
      ExclusiveStep(gap, Exec(gap, Start(table), before).value, steps[|steps| - 1]);
    }
  }
}

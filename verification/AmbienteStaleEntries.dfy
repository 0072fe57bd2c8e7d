/**
 * When the interleaved ambiente cache is not transparent: the exact conditions, over every run, for an
 * entry to differ from the row it stands for, to be flagged as deleted, and to be there after a delete.
 */
module AmbienteStaleEntries {
  import opened Common
  import opened Entities
  import opened AmbienteStaleness

  /** A run with all its states: `states[k]` is the one before step `k`. */
  datatype History = History(gap: nat, table: map<int, Ambiente>, steps: seq<Step>, states: seq<State>)

  ghost predicate StepAt(h: History, k: nat)
    requires k < |h.steps| && |h.states| == |h.steps| + 1
  {
    Enabled(h.gap, h.states[k], h.steps[k]) && h.states[k + 1] == Apply(h.gap, h.states[k], h.steps[k])
  }

  ghost predicate IsHistory(h: History)
  {
    && |h.states| == |h.steps| + 1 && h.states[0] == Start(h.table)
    && forall k: nat :: k < |h.steps| ==> StepAt(h, k)
  }

  /** Every run has its history. */
  lemma {:induction false} HistoryOf(gap: nat, table: map<int, Ambiente>, steps: seq<Step>) returns (h: History)
    requires Exec(gap, Start(table), steps).Some?
    ensures h == History(gap, table, steps, h.states) && IsHistory(h)
    ensures Exec(gap, Start(table), steps) == Some(h.states[|steps|])
    decreases |steps|
  {
    if steps == [] {
      h := History(gap, table, steps, [Start(table)]);
    } else {
      var n := |steps| - 1;
      var before := HistoryOf(gap, table, steps[..n]);
      h := History(gap, table, steps, before.states + [Exec(gap, Start(table), steps).value]);
      forall k: nat | k < |steps| ensures StepAt(h, k) {
        if k < n {
          assert StepAt(before, k);
        }
      }
    }
  }

  lemma {:induction false} HistoryInv(h: History, k: nat)
    requires IsHistory(h) && k <= |h.steps|
    ensures Inv(h.gap, h.states[k])
  {
    if k > 0 {
      HistoryInv(h, k - 1);
      assert StepAt(h, k - 1);
      StepKeepsInv(h.gap, h.states[k - 1], h.steps[k - 1]);
    }
  }

  // --- Commits, entries and values in flight ---------------------------------------------------

  function RowOf(s: State, id: int): Option<Ambiente>
    requires s.versions != []
  {
    if id in Table(s) then Some(Table(s)[id]) else None
  }

  /** There is an entry, and it is not the current row. */
  predicate StaleEntry(s: State, id: int)
    requires s.versions != []
  {
    id in s.cache && RowOf(s, id) != Some(s.cache[id].value)
  }

  /** The row that step `k` commits for `id`. */
  function Commits(h: History, k: nat, id: int): Option<Ambiente>
    requires k < |h.steps| && |h.states| == |h.steps| + 1
  {
    match h.steps[k]
    case Create(i, row) => if i == id then Some(row) else None
    case Register(i, row) => if i == id then Some(row) else None
    case Write(i, row, _) => if i == id then Some(row) else None
    case Replace(i, row, _) => if i == id then Some(row) else None
    case Delete(i, _) =>
      if i == id && h.states[k].versions != [] && id in Table(h.states[k]) then Some(Table(h.states[k])[id].(del := true)) else None
    case _ => None
  }

  predicate CommitAt(h: History, k: nat, id: int)
  {
    k < |h.steps| && |h.states| == |h.steps| + 1 && Commits(h, k, id).Some?
  }

  /** Step `k` writes or removes the entry. */
  predicate TouchAt(h: History, k: nat, id: int)
  {
    k < |h.steps| && |h.states| == |h.steps| + 1 &&
    var s := h.states[k];
    match h.steps[k]
    case Store(t) => t in s.tasks && s.tasks[t].id == id
    case Evict(t) => t in s.tasks && s.tasks[t].id == id
    case Lose(i) => i == id
    case _ => false
  }

  ghost predicate NoCommit(h: History, from: nat, until: nat, id: int)
  {
    forall m: nat :: from <= m < until ==> !CommitAt(h, m, id)
  }

  ghost predicate NoTouch(h: History, from: nat, until: nat, id: int)
  {
    forall m: nat :: from <= m < until ==> !TouchAt(h, m, id)
  }

  /** Before step `k` the task has its value and has not stored it yet. */
  predicate IsStoring(h: History, k: nat, t: nat)
  {
    k < |h.states| && t in h.states[k].tasks && h.states[k].tasks[t].Storing?
  }

  ghost predicate InFlight(h: History, from: nat, until: nat, t: nat)
  {
    forall m: nat :: from <= m <= until ==> IsStoring(h, m, t)
  }

  // --- A value in flight ----------------------------------------------------------------------

  /** Step `c` is the last commit for the task's ambiente, came after the task's access, and is of another row. */
  ghost predicate OvertakenBy(h: History, n: nat, t: nat, c: nat)
    requires IsStoring(h, n, t)
  {
    var task := h.states[n].tasks[t];
    && c < n && CommitAt(h, c, task.id) && Commits(h, c, task.id) != Some(task.value)
    && NoCommit(h, c + 1, n, task.id) && InFlight(h, c, n, t)
  }

  ghost predicate Overtaken(h: History, n: nat, t: nat)
    requires IsStoring(h, n, t)
  {
    exists c: nat :: OvertakenBy(h, n, t, c)
  }

  /** What a step does to the row of `id`. */
  lemma RowNext(h: History, k: nat, id: int)
    requires IsHistory(h) && k < |h.steps|
    ensures h.states[k].versions != [] && h.states[k + 1].versions != []
    ensures RowOf(h.states[k + 1], id) == if CommitAt(h, k, id) then Commits(h, k, id) else RowOf(h.states[k], id)
  {
    HistoryInv(h, k);
    HistoryInv(h, k + 1);
    assert StepAt(h, k);
  }

  /** A task that stores was storing the same before, or has just read or written the current row. */
  lemma StoringNext(h: History, k: nat, t: nat)
    requires IsHistory(h) && k < |h.steps| && IsStoring(h, k + 1, t)
    ensures IsStoring(h, k, t) ==> h.states[k].tasks[t] == h.states[k + 1].tasks[t]
    ensures !IsStoring(h, k, t) ==>
      && h.states[k + 1].versions != []
      && RowOf(h.states[k + 1], h.states[k + 1].tasks[t].id) == Some(h.states[k + 1].tasks[t].value)
  {
    HistoryInv(h, k);
    assert StepAt(h, k);
  }

  /** A task in flight holds another row than the current one exactly if it was overtaken. */
  lemma {:induction false} OvertakenExactly(h: History, n: nat, t: nat)
    requires IsHistory(h) && n <= |h.steps| && IsStoring(h, n, t)
    ensures h.states[n].versions != []
    ensures RowOf(h.states[n], h.states[n].tasks[t].id) != Some(h.states[n].tasks[t].value) <==> Overtaken(h, n, t)
    decreases n
  {
    HistoryInv(h, n);
    if n > 0 {
      var id := h.states[n].tasks[t].id;
      RowNext(h, n - 1, id);
      StoringNext(h, n - 1, t);
      if !IsStoring(h, n - 1, t) {
        assert forall c: nat :: c < n ==> !InFlight(h, c, n, t);
      } else {
        OvertakenExactly(h, n - 1, t);
        if CommitAt(h, n - 1, id) {
          OvertakenLast(h, n, t);
        } else {
          OvertakenEarlier(h, n, t);
        }
      }
    }
  }

  lemma OvertakenLast(h: History, n: nat, t: nat)
    requires IsStoring(h, n, t) && n > 0 && IsStoring(h, n - 1, t)
    requires CommitAt(h, n - 1, h.states[n].tasks[t].id)
    ensures Overtaken(h, n, t) <==> Commits(h, n - 1, h.states[n].tasks[t].id) != Some(h.states[n].tasks[t].value)
  {
    var id := h.states[n].tasks[t].id;
    assert InFlight(h, n - 1, n, t);
    assert NoCommit(h, n, n, id);
    if Commits(h, n - 1, id) != Some(h.states[n].tasks[t].value) {
      assert OvertakenBy(h, n, t, n - 1);
    }
  }

  lemma OvertakenEarlier(h: History, n: nat, t: nat)
    requires IsStoring(h, n, t) && n > 0 && IsStoring(h, n - 1, t) && h.states[n - 1].tasks[t] == h.states[n].tasks[t]
    requires !CommitAt(h, n - 1, h.states[n].tasks[t].id)
    ensures Overtaken(h, n, t) <==> Overtaken(h, n - 1, t)
  {
    var id, m := h.states[n].tasks[t].id, n - 1;
    forall c: nat ensures OvertakenBy(h, n, t, c) <==> OvertakenBy(h, m, t, c) {
      assert NoCommit(h, c + 1, n, id) <==> NoCommit(h, c + 1, m, id);
      assert InFlight(h, c, n, t) <==> InFlight(h, c, m, t);
      assert c == m ==> !CommitAt(h, c, id);
    }
    if c: nat :| OvertakenBy(h, m, t, c) {
      assert OvertakenBy(h, n, t, c);
    }
  }

  // --- An entry -------------------------------------------------------------------------------

  /** Step `k` stored the entry that `id` has before step `n`. */
  ghost predicate StoredAt(h: History, k: nat, n: nat, id: int)
  {
    && k < n <= |h.steps| && |h.states| == |h.steps| + 1
    && h.steps[k].Store? && IsStoring(h, k, h.steps[k].t) && h.states[k].tasks[h.steps[k].t].id == id
    && NoTouch(h, k + 1, n, id)
  }

  function StoredValue(h: History, k: nat): Ambiente
    requires k < |h.steps| && h.steps[k].Store? && IsStoring(h, k, h.steps[k].t)
  {
    h.states[k].tasks[h.steps[k].t].value
  }

  /** An entry is what its last store put there. */
  lemma {:induction false} EntryIsStored(h: History, n: nat, id: int)
    requires IsHistory(h) && n <= |h.steps|
    ensures id in h.states[n].cache <==> exists k: nat :: StoredAt(h, k, n, id)
    ensures forall k: nat :: StoredAt(h, k, n, id) ==> h.states[n].cache[id].value == StoredValue(h, k)
    decreases n
  {
    if n > 0 {
      EntryIsStored(h, n - 1, id);
      assert StepAt(h, n - 1);
      if TouchAt(h, n - 1, id) {
        assert NoTouch(h, n, n, id);
        assert h.steps[n - 1].Store? ==> StoredAt(h, n - 1, n, id);
        assert forall k: nat :: StoredAt(h, k, n, id) ==> k == n - 1;
      } else {
        var m := n - 1;
        forall k: nat ensures StoredAt(h, k, n, id) <==> StoredAt(h, k, m, id) {
          assert NoTouch(h, k + 1, n, id) <==> NoTouch(h, k + 1, m, id);
        }
        if k: nat :| StoredAt(h, k, m, id) {
          assert StoredAt(h, k, n, id);
        }
      }
    }
  }

  /** Without a commit the row stays. */
  lemma {:induction false} RowStays(h: History, from: nat, until: nat, id: int)
    requires IsHistory(h) && from <= until <= |h.steps| && NoCommit(h, from, until, id)
    ensures h.states[from].versions != [] && h.states[until].versions != []
    ensures RowOf(h.states[until], id) == RowOf(h.states[from], id)
    decreases until
  {
    HistoryInv(h, from);
    if from < until {
      RowStays(h, from, until - 1, id);
      RowNext(h, until - 1, id);
    }
  }

  lemma {:induction false} LastCommit(h: History, from: nat, until: nat, id: int) returns (c: nat)
    requires from <= until && !NoCommit(h, from, until, id)
    ensures from <= c < until && CommitAt(h, c, id) && NoCommit(h, c + 1, until, id)
    decreases until
  {
    if CommitAt(h, until - 1, id) {
      c := until - 1;
    } else {
      assert !NoCommit(h, from, until - 1, id);
      c := LastCommit(h, from, until - 1, id);
    }
  }

  /** The writer of commit `c` failed before it got to the entry. */
  ghost predicate AbortedWriter(h: History, c: nat, n: nat)
    requires c < n <= |h.steps| && |h.states| == |h.steps| + 1
  {
    exists m: nat :: c < m < n && h.steps[m] == Abort(h.states[c].nextTask)
  }

  /** The writer of a commit is in flight until it stores, evicts or fails. */
  lemma {:induction false} WriterEnds(h: History, c: nat, n: nat, id: int)
    requires IsHistory(h) && CommitAt(h, c, id) && c < n <= |h.steps| && NoTouch(h, c + 1, n, id)
    requires !h.steps[c].Register?
    ensures var w := h.states[c].nextTask;
      (w in h.states[n].tasks && WriterOn(h.states[n].tasks[w], id)) || AbortedWriter(h, c, n)
    decreases n
  {
    var w := h.states[c].nextTask;
    HistoryInv(h, n - 1);
    assert StepAt(h, n - 1);
    if n > c + 1 {
      WriterEnds(h, c, n - 1, id);
      assert !TouchAt(h, n - 1, id);
      if h.steps[n - 1] == Abort(w) {
        assert c < n - 1 < n;
      }
    }
  }

  /** What is stored for `id` was a row of the table, and still is one later. */
  lemma {:induction false} StoredIsKnown(h: History, k: nat, c: nat, id: int)
    requires IsHistory(h) && k < c < |h.steps| && h.steps[k].Store? && IsStoring(h, k, h.steps[k].t)
    requires h.states[k].tasks[h.steps[k].t].id == id
    ensures h.states[c].versions != [] && id in Table(h.states[c])
    ensures !h.steps[c].Register? || h.steps[c].id != id
    decreases c
  {
    HistoryInv(h, c);
    assert StepAt(h, c);
    if c == k + 1 {
      HistoryInv(h, k);
      var task := h.states[k].tasks[h.steps[k].t];
      var v: nat :| InVersion(h.states[k], v, id, task.value, task.access);
      assert Outlives(h.states[k].versions[v].table, Table(h.states[k]));
      RowNext(h, k, id);
    } else {
      StoredIsKnown(h, k, c - 1, id);
      RowNext(h, c - 1, id);
    }
  }

  /** The store put a row there that the commits so far had overtaken, and none has come since. */
  ghost predicate StoredOvertaken(h: History, k: nat, n: nat, id: int)
    requires StoredAt(h, k, n, id)
  {
    NoCommit(h, k + 1, n, id) && Overtaken(h, k, h.steps[k].t)
  }

  /** Since the store another row was committed, as the last one, and its writer failed. */
  ghost predicate OutlivedBy(h: History, k: nat, n: nat, id: int, c: nat)
    requires StoredAt(h, k, n, id)
  {
    && k < c < n && CommitAt(h, c, id) && Commits(h, c, id) != Some(StoredValue(h, k))
    && NoCommit(h, c + 1, n, id) && AbortedWriter(h, c, n)
  }

  ghost predicate Reason(h: History, k: nat, n: nat, id: int)
  {
    StoredAt(h, k, n, id) && (StoredOvertaken(h, k, n, id) || exists c: nat :: OutlivedBy(h, k, n, id, c))
  }

  lemma StaleSince(h: History, k: nat, n: nat, id: int)
    requires IsHistory(h) && StoredAt(h, k, n, id)
    requires forall t :: t in h.states[n].tasks ==> !WriterOn(h.states[n].tasks[t], id)
    ensures h.states[n].versions != []
    ensures RowOf(h.states[n], id) != Some(StoredValue(h, k)) <==> Reason(h, k, n, id)
  {
    HistoryInv(h, n);
    if NoCommit(h, k + 1, n, id) {
      RowStays(h, k + 1, n, id);
      RowNext(h, k, id);
      OvertakenExactly(h, k, h.steps[k].t);
      assert !CommitAt(h, k, id);
    } else {
      var c := LastCommit(h, k + 1, n, id);
      RowNext(h, c, id);
      RowStays(h, c + 1, n, id);
      StoredIsKnown(h, k, c, id);
      WriterEnds(h, c, n, id);
      assert OutlivedBy(h, k, n, id, c) <==> Commits(h, c, id) != Some(StoredValue(h, k));
      forall d: nat | OutlivedBy(h, k, n, id, d) ensures d == c {
      }
    }
  }

  /**
   * With no writer of `id` in flight, the entry of `id` differs from the current row exactly if, with
   * no store, eviction or loss of it since, its last store was of a task that a commit of another row
   * had overtaken, or another row was committed later by a writer that failed half-way.
   */
  lemma StaleExactly(gap: nat, table: map<int, Ambiente>, steps: seq<Step>, id: int) returns (h: History)
    requires Exec(gap, Start(table), steps).Some?
    requires var s := Exec(gap, Start(table), steps).value;
      forall t :: t in s.tasks ==> !WriterOn(s.tasks[t], id)
    ensures h == History(gap, table, steps, h.states) && IsHistory(h)
    ensures Exec(gap, Start(table), steps) == Some(h.states[|steps|]) && h.states[|steps|].versions != []
    ensures StaleEntry(h.states[|steps|], id) <==> exists k: nat :: Reason(h, k, |steps|, id)
  {
    h := HistoryOf(gap, table, steps);
    var n := |steps|;
    HistoryInv(h, n);
    EntryIsStored(h, n, id);
    forall k: nat | StoredAt(h, k, n, id) ensures StaleEntry(h.states[n], id) <==> Reason(h, k, n, id) {
      StaleSince(h, k, n, id);
    }
  }

  // --- Entries flagged as deleted -------------------------------------------------------------

  /** The task is of an update that committed, at step `c`, onto a row deleted since it was looked up. */
  ghost predicate WroteDeleted(h: History, c: nat, n: nat, t: nat)
    requires IsStoring(h, n, t)
  {
    && c < n && |h.states| == |h.steps| + 1 && c < |h.steps|
    && h.steps[c].Write? && h.states[c].nextTask == t && h.states[c].versions != []
    && h.steps[c].id in Table(h.states[c]) && Table(h.states[c])[h.steps[c].id].del
    && InFlight(h, c + 1, n, t)
  }

  lemma {:induction false} DeletedInFlight(h: History, n: nat, t: nat)
    requires IsHistory(h) && n <= |h.steps| && IsStoring(h, n, t)
    ensures h.states[n].tasks[t].value.del <==> exists c: nat :: WroteDeleted(h, c, n, t)
    decreases n
  {
    if n > 0 {
      HistoryInv(h, n - 1);
      assert StepAt(h, n - 1);
      StoringNext(h, n - 1, t);
      if IsStoring(h, n - 1, t) {
        var m := n - 1;
        DeletedInFlight(h, m, t);
        forall c: nat ensures WroteDeleted(h, c, n, t) <==> WroteDeleted(h, c, m, t) {
          assert InFlight(h, c + 1, n, t) <==> InFlight(h, c + 1, m, t);
        }
        if c: nat :| WroteDeleted(h, c, m, t) {
          assert WroteDeleted(h, c, n, t);
        }
      } else {
        StartsStoring(h, n, t);
      }
    }
  }

  lemma StartsStoring(h: History, n: nat, t: nat)
    requires IsHistory(h) && 0 < n <= |h.steps| && IsStoring(h, n, t) && !IsStoring(h, n - 1, t)
    ensures h.states[n].tasks[t].value.del <==> exists c: nat :: WroteDeleted(h, c, n, t)
  {
    HistoryInv(h, n - 1);
    assert StepAt(h, n - 1);
    assert InFlight(h, n, n, t);
    forall c: nat | WroteDeleted(h, c, n, t) ensures c == n - 1 {
      assert InFlight(h, c + 1, n, t);
    }
    if h.states[n].tasks[t].value.del {
      assert WroteDeleted(h, n - 1, n, t);
    }
  }

  /** The entry was stored by such an update, at step `k`. */
  ghost predicate StoredDeleted(h: History, k: nat, n: nat, id: int)
  {
    StoredAt(h, k, n, id) && exists c: nat :: WroteDeleted(h, c, k, h.steps[k].t)
  }

  /**
   * An entry is flagged as deleted exactly if, with no store, eviction or loss of it since, its last
   * store was of an update that had committed onto an already deleted row.
   */
  lemma DeletedExactly(h: History, n: nat, id: int)
    requires IsHistory(h) && n <= |h.steps|
    ensures (id in h.states[n].cache && h.states[n].cache[id].value.del) <==> exists k: nat :: StoredDeleted(h, k, n, id)
  {
    EntryIsStored(h, n, id);
    forall k: nat | StoredAt(h, k, n, id)
      ensures h.states[n].cache[id].value.del <==> StoredDeleted(h, k, n, id)
    {
      DeletedInFlight(h, k, h.steps[k].t);
    }
  }

  /**
   * The promise of a miss after a soft delete: with no writer of the deleted `id` in flight, there
   * still is an entry exactly if it is stale or was stored by an update over the deletion.
   */
  lemma HitAfterDeleteExactly(gap: nat, table: map<int, Ambiente>, steps: seq<Step>, id: int) returns (h: History)
    requires Exec(gap, Start(table), steps).Some?
    requires var s := Exec(gap, Start(table), steps).value;
      && (forall t :: t in s.tasks ==> !WriterOn(s.tasks[t], id))
      && s.versions != [] && id in Table(s) && Table(s)[id].del
    ensures h == History(gap, table, steps, h.states) && IsHistory(h)
    ensures Exec(gap, Start(table), steps) == Some(h.states[|steps|])
    ensures id in h.states[|steps|].cache <==>
      exists k: nat :: Reason(h, k, |steps|, id) || StoredDeleted(h, k, |steps|, id)
  {
    h := StaleExactly(gap, table, steps, id);
    var n := |steps|;
    DeletedExactly(h, n, id);
    if id in h.states[n].cache {
      if StaleEntry(h.states[n], id) {
        var k: nat :| Reason(h, k, n, id);
      } else {
        var k: nat :| StoredDeleted(h, k, n, id);
      }
    }
  }

  /** Update and softDelete find the row, the softDelete commits first, and the update stores last. */
  function OverDelete(): seq<Step>
  {
    [Delete(1, 0), Write(1, ROW.(del := true), 0), Evict(0), Store(1)]
  }

  lemma UpdateOverDeleteEnd(gap: nat, s0: State, s2: State) returns (s: State)
    requires Exec(gap, s0, OverDelete()[..2]) == Some(s2)
    requires var gone := ROW.(del := true);
      && s2.now == 0 && s2.cache == map[] && s2.versions != [] && Table(s2) == map[1 := gone]
      && s2.tasks == map[0 := Evicting(1, 0), 1 := Storing(1, gone, 0, true)]
    ensures Exec(gap, s0, OverDelete()) == Some(s)
    ensures s == s2.(tasks := map[], cache := map[1 := Cached(ROW.(del := true), 0, 0)])
  {
    var steps, gone := OverDelete(), ROW.(del := true);
    var s3 := s2.(tasks := map[1 := Storing(1, gone, 0, true)]);
    assert s2.tasks - {0} == s3.tasks && s2.cache - {1} == s3.cache;
    ExecAppend(gap, s0, steps[..2], s2, Evict(0), s3);
    assert steps[..3] == steps[..2] + [Evict(0)];
    s := s3.(tasks := map[], cache := map[1 := Cached(gone, 0, 0)]);
    assert s3.tasks - {1} == s.tasks && s3.cache[1 := Cached(gone, 0, 0)] == s.cache;
    ExecAppend(gap, s0, steps[..3], s3, Store(1), s);
    assert steps == steps[..3] + [Store(1)];
  }

  /** An update over a deletion: it leaves an entry of the deleted row, in step with the table. */
  lemma UpdateOverDelete(gap: nat) returns (s: State)
    ensures Exec(gap, Start(map[1 := ROW]), OverDelete()) == Some(s)
    ensures s.tasks == map[] && IsLive(s, 1) && s.cache[1].value == ROW.(del := true) && !StaleEntry(s, 1)
  {
    var s0 := Start(map[1 := ROW]);
    var gone := ROW.(del := true);
    var v0, v1 := Version(0, map[1 := ROW]), Version(0, map[1 := gone]);
    var s1 := State(0, [v0, v1], map[], map[0 := Evicting(1, 0)], 1);
    assert map[1 := ROW][1 := gone] == v1.table;
    ExecAppend(gap, s0, [], s0, Delete(1, 0), s1);
    var s2 := State(0, [v0, v1, v1], map[], map[0 := Evicting(1, 0), 1 := Storing(1, gone, 0, true)], 2);
    assert map[1 := gone][1 := gone] == v1.table;
    ExecAppend(gap, s0, [] + [Delete(1, 0)], s1, Write(1, gone, 0), s2);
    assert OverDelete()[..2] == [] + [Delete(1, 0)] + [Write(1, gone, 0)];
    s := UpdateOverDeleteEnd(gap, s0, s2);
  }
}

/** Safety of the delivery ledger over every run. */
module LedgerProofs {
  import opened Common
  import opened Entities
  import opened Dispatch
  import opened Ledger

  // --- What keeps an obligation alive ---------------------------------------------------------

  /** The task holds the message: it will deliver it, queue it or store it. */
  predicate Holds(task: Task)
  {
    task.EnqueueingUnrouted? || task.Handling? || task.Consuming?
  }

  /** An unmarked row that nobody is about to mark. */
  ghost predicate LiveRow(s: State, row: nat)
    requires row in s.rows
  {
    !s.rows[row].reenviado && !s.rows[row].del &&
    forall t :: t in s.tasks && s.tasks[t].Marking? ==> s.tasks[t].row != row
  }

  ghost predicate Live(s: State, ob: Obligation)
  {
    || (exists t :: t in s.tasks && Holds(s.tasks[t]) && s.tasks[t].ob == ob)
    || ob in s.dlq
    || (exists r :: r in s.rows && s.rows[r].ob == ob && LiveRow(s, r))
  }

  function Settled(s: State): set<Obligation>
  {
    s.delivered + s.purged + s.refused + s.lost
  }

  /** Every obligation outside `open` is settled or alive. */
  ghost predicate AccountedBut(s: State, open: set<Obligation>)
  {
    forall ob :: ob in s.obligations && ob !in open ==> ob in Settled(s) || Live(s, ob)
  }

  ghost predicate Accounted(s: State)
  {
    AccountedBut(s, {})
  }

  // --- Bookkeeping invariants -----------------------------------------------------------------

  /** Identifiers are fresh, and what a resend read is still what the row says, if the row exists. */
  ghost predicate Consistent(s: State)
  {
    && (forall t :: t in s.tasks ==> t < s.nextTask)
    && (forall r :: r in s.rows ==> r < s.nextRow)
    && (forall t :: t in s.tasks && (s.tasks[t].Redispatching? || s.tasks[t].Reposting? || s.tasks[t].Marking?) ==>
          s.tasks[t].row < s.nextRow &&
          (s.tasks[t].row in s.rows ==> s.rows[s.tasks[t].row].ob == s.tasks[t].ob))
  }

  /** Nothing is invented: whatever is anywhere belongs to a received webhook and a registered inbox. */
  ghost predicate Provenance(s: State)
  {
    && (forall ob :: ob in s.obligations ==> InsertAccepted(s, ob))
    && (forall t :: t in s.tasks && !s.tasks[t].Resolving? ==> s.tasks[t].ob in s.obligations)
    && (forall ob :: ob in s.dlq ==> ob in s.obligations)
    && (forall r :: r in s.rows ==> s.rows[r].ob in s.obligations)
    && s.delivered <= s.obligations && s.purged <= s.obligations
    && s.refused <= s.obligations && s.lost <= s.obligations
  }

  ghost predicate Books(s: State)
  {
    Consistent(s) && Provenance(s)
  }

  /** What `Books` asks of one task. */
  ghost predicate TaskFits(s: State, task: Task)
  {
    && (!task.Resolving? ==> task.ob in s.obligations)
    && (task.Redispatching? || task.Reposting? || task.Marking? ==>
          task.row < s.nextRow && (task.row in s.rows ==> s.rows[task.row].ob == task.ob))
  }

  lemma SpawnBooks(s: State, task: Task)
    requires Books(s) && TaskFits(s, task)
    ensures Books(Spawn(s, task))
  {
  }

  lemma BecomeBooks(s: State, t: nat, task: Task)
    requires Books(s) && t in s.tasks && TaskFits(s, task)
    ensures Books(Become(s, t, task))
  {
  }

  lemma EndBooks(s: State, t: nat)
    requires Books(s)
    ensures Books(End(s, t))
  {
  }

  lemma SettleBooks(s: State, ob: Obligation, fim: Fim)
    requires Books(s) && ob in s.obligations
    ensures Books(Settle(s, ob, fim))
  {
  }

  lemma {:induction false} FanOutBooks(s: State, receipt: nat, found: seq<InboxId>)
    requires Books(s) && forall i :: i in found ==> i in s.registered
    ensures Books(FanOut(s, receipt, found))
    decreases |found|
  {
    if found != [] {
      var ob := Obligation(receipt, Some(found[0]));
      var s1 := s.(obligations := s.obligations + {ob});
      SpawnBooks(s1, Handling(ob, LookingUpInbox));
      FanOutBooks(Spawn(s1, Handling(ob, LookingUpInbox)), receipt, found[1..]);
    }
  }

  lemma IngestBooks(n: int, s: State, step: Step)
    requires step.Register? || step.Receive? || step.Resolve? || step.SendUnrouted?
    requires Books(s) && Enabled(n, s, step)
    ensures Books(Apply(n, s, step))
  {
    if step.Resolve? {
      EndBooks(s, step.t);
      FanOutBooks(End(s, step.t), s.tasks[step.t].receipt, step.found);
    }
  }

  lemma AwaitBooks(n: int, s: State, step: Step)
    requires step.Await? || step.BulkAwait?
    requires Books(s) && Enabled(n, s, step)
    ensures Books(Apply(n, s, step))
  {
    var pc := Next(n, s.tasks[step.t].pc, step.ev).value;
    if pc.Done? {
      var s1 := if step.Await? then End(s, step.t)
                else Become(s, step.t, Marking(s.tasks[step.t].row, s.tasks[step.t].ob));
      EndBooks(s, step.t);
      if step.BulkAwait? {
        BecomeBooks(s, step.t, Marking(s.tasks[step.t].row, s.tasks[step.t].ob));
      }
      SettleBooks(s1, s.tasks[step.t].ob, pc.fim);
    }
  }

  lemma ConsumerBooks(n: int, s: State, step: Step)
    requires step.Consume? || step.Insert?
    requires Books(s) && Enabled(n, s, step)
    ensures Books(Apply(n, s, step))
  {
    if step.Consume? {
      SpawnBooks(s, Consuming(step.ob));
    } else {
      BecomeBooks(s, step.t, Acking(s.tasks[step.t].ob));
    }
  }

  lemma ResendBooks(n: int, s: State, step: Step)
    requires step.BulkPick? || step.SingleStart? || step.SinglePost? || step.MarkReenviado?
    requires Books(s) && Enabled(n, s, step)
    ensures Books(Apply(n, s, step))
  {
    match step {
      case BulkPick(row) => SpawnBooks(s, Redispatching(row, s.rows[row].ob, LookingUpInbox));
      case SingleStart(row) => SpawnBooks(s, Reposting(row, s.rows[row].ob));
      case SinglePost(t, ok) =>
        EndBooks(s, t);
        BecomeBooks(s, t, Marking(s.tasks[t].row, s.tasks[t].ob));
      case MarkReenviado(t, _) => EndBooks(s, t);
    }
  }

  lemma BooksStep(n: int, s: State, step: Step)
    requires Books(s) && Enabled(n, s, step)
    ensures Books(Apply(n, s, step))
  {
    if step.Register? || step.Receive? || step.Resolve? || step.SendUnrouted? {
      IngestBooks(n, s, step);
    } else if step.Await? || step.BulkAwait? {
      AwaitBooks(n, s, step);
    } else if step.Consume? || step.Insert? {
      ConsumerBooks(n, s, step);
    } else if step.InsertThrows? || step.Ack? || step.Vanish? {
      EndBooks(s, step.t);
    } else if step.SoftDelete? || step.Purge? {
    } else {
      ResendBooks(n, s, step);
    }
  }

  // --- No obligation is forgotten -------------------------------------------------------------

  /** The message a task holds, if it holds one. */
  function Held(task: Task): set<Obligation>
  {
    if Holds(task) then {task.ob} else {}
  }

  lemma SpawnAccounted(s: State, task: Task, open: set<Obligation>)
    requires Consistent(s) && AccountedBut(s, open) && !task.Marking?
    ensures AccountedBut(Spawn(s, task), open - Held(task))
  {
    var s' := Spawn(s, task);
    assert s'.tasks[s.nextTask] == task;
    forall ob | ob in s.obligations && ob !in open - Held(task) ensures ob in Settled(s') || Live(s', ob) {
      if ob !in Settled(s) && ob !in Held(task) {
        assert Live(s, ob);
        assert forall r :: r in s.rows && s.rows[r].ob == ob && LiveRow(s, r) ==> LiveRow(s', r);
        assert forall u :: u in s.tasks && Holds(s.tasks[u]) && s.tasks[u].ob == ob ==> s'.tasks[u] == s.tasks[u];
      }
    }
  }

  lemma EndAccounted(s: State, t: nat, open: set<Obligation>)
    requires t in s.tasks && AccountedBut(s, open)
    ensures AccountedBut(End(s, t), open + Held(s.tasks[t]))
  {
    var s' := End(s, t);
    forall ob | ob in s.obligations && ob !in open + Held(s.tasks[t]) ensures ob in Settled(s') || Live(s', ob) {
      if ob !in Settled(s) {
        assert Live(s, ob);
        assert forall r :: r in s.rows && s.rows[r].ob == ob && LiveRow(s, r) ==> LiveRow(s', r);
        assert forall u :: u in s.tasks && Holds(s.tasks[u]) && s.tasks[u].ob == ob ==> u in s'.tasks;
      }
    }
  }

  /** A task that turns to marking a row takes that row out of the account. */
  lemma BecomeAccounted(s: State, t: nat, task: Task, open: set<Obligation>)
    requires Books(s) && t in s.tasks && AccountedBut(s, open) && TaskFits(s, task)
    ensures AccountedBut(Become(s, t, task),
      open + Held(s.tasks[t]) + (if task.Marking? then {task.ob} else {}) - Held(task))
  {
    var s' := Become(s, t, task);
    assert s'.tasks[t] == task;
    forall ob | ob in s.obligations
             && ob !in open + Held(s.tasks[t]) + (if task.Marking? then {task.ob} else {}) - Held(task)
      ensures ob in Settled(s') || Live(s', ob)
    {
      if ob !in Settled(s) && ob !in Held(task) {
        assert Live(s, ob);
        assert forall r :: r in s.rows && s.rows[r].ob == ob && LiveRow(s, r) ==> LiveRow(s', r);
        assert forall u :: u in s.tasks && Holds(s.tasks[u]) && s.tasks[u].ob == ob ==> s'.tasks[u] == s.tasks[u];
      }
    }
  }

  /** Putting a message on record, or on the queue, closes it. */
  lemma RecordAccounted(s: State, s': State, closed: set<Obligation>, open: set<Obligation>)
    requires AccountedBut(s, open)
    requires s'.tasks == s.tasks && s'.rows == s.rows && s'.obligations == s.obligations
    requires forall ob :: ob in s.dlq ==> ob in s'.dlq
    requires Settled(s) <= Settled(s')
    requires forall ob :: ob in closed ==> ob in Settled(s') || ob in s'.dlq
    ensures AccountedBut(s', open - closed)
  {
    forall ob | ob in s.obligations && ob !in open - closed ensures ob in Settled(s') || Live(s', ob) {
      if ob !in closed && ob !in Settled(s) {
        assert Live(s, ob);
        assert forall r :: r in s.rows && LiveRow(s, r) ==> LiveRow(s', r);
      }
    }
  }

  lemma SettleAccounted(s: State, ob: Obligation, fim: Fim)
    requires AccountedBut(s, {ob})
    ensures Accounted(Settle(s, ob, fim))
  {
    RecordAccounted(s, Settle(s, ob, fim), {ob}, {ob});
  }

  lemma DequeueAccounted(s: State, ob: Obligation)
    requires Accounted(s)
    ensures AccountedBut(s.(dlq := s.dlq - multiset{ob}), {ob})
  {
    var s' := s.(dlq := s.dlq - multiset{ob});
    forall o | o in s.obligations && o !in {ob} ensures o in Settled(s') || Live(s', o) {
      if o !in Settled(s) {
        assert Live(s, o);
        assert forall r :: r in s.rows && LiveRow(s, r) ==> LiveRow(s', r);
      }
    }
  }

  /** Changing rows opens the obligations of the rows that stop being alive. */
  lemma RowsAccounted(s: State, rows: map<nat, Row>, nextRow: nat, purged: set<Obligation>, open: set<Obligation>)
    requires AccountedBut(s, open)
    requires forall r :: r in s.rows && LiveRow(s, r) && s.rows[r].ob !in purged ==> r in rows && rows[r] == s.rows[r]
    requires forall ob :: ob in open ==> exists r :: r in rows && rows[r].ob == ob && LiveRow(s.(rows := rows), r)
    ensures Accounted(s.(rows := rows, nextRow := nextRow, purged := s.purged + purged))
  {
    var s' := s.(rows := rows, nextRow := nextRow, purged := s.purged + purged);
    forall ob | ob in s.obligations ensures ob in Settled(s') || Live(s', ob) {
      if ob in open {
        var r :| r in rows && rows[r].ob == ob && LiveRow(s.(rows := rows), r);
        assert LiveRow(s', r);
      } else if ob !in Settled(s) && ob !in purged {
        assert Live(s, ob);
        assert forall r :: r in s.rows && LiveRow(s, r) && s.rows[r].ob == ob ==> LiveRow(s', r);
      }
    }
  }

  lemma {:induction false} FanOutAccounted(s: State, receipt: nat, found: seq<InboxId>)
    requires Books(s) && Accounted(s) && forall i :: i in found ==> i in s.registered
    ensures Accounted(FanOut(s, receipt, found))
    decreases |found|
  {
    if found != [] {
      var ob := Obligation(receipt, Some(found[0]));
      var s1 := s.(obligations := s.obligations + {ob});
      assert AccountedBut(s1, {ob}) by { ObligeAccounted(s, ob); }
      SpawnBooks(s1, Handling(ob, LookingUpInbox));
      SpawnAccounted(s1, Handling(ob, LookingUpInbox), {ob});
      FanOutAccounted(Spawn(s1, Handling(ob, LookingUpInbox)), receipt, found[1..]);
    }
  }

  lemma ObligeAccounted(s: State, ob: Obligation)
    requires Accounted(s)
    ensures AccountedBut(s.(obligations := s.obligations + {ob}), {ob})
  {
    RecordAccounted(s, s, {}, {});
    forall o | o in s.obligations ensures o in Settled(s) || Live(s.(obligations := s.obligations + {ob}), o) {
      if o !in Settled(s) {
        assert Live(s, o);
        assert forall r :: r in s.rows && LiveRow(s, r) ==> LiveRow(s.(obligations := s.obligations + {ob}), r);
      }
    }
  }

  lemma IngestAccounted(n: int, s: State, step: Step)
    requires step.Register? || step.Receive? || step.Resolve? || step.SendUnrouted?
    requires Books(s) && Accounted(s) && Enabled(n, s, step)
    ensures Accounted(Apply(n, s, step))
  {
    match step {
      case Register(i) => RecordAccounted(s, Apply(n, s, step), {}, {});
      case Receive =>
        SpawnAccounted(s, Resolving(s.nextReceipt), {});
        RecordAccounted(Spawn(s, Resolving(s.nextReceipt)), Apply(n, s, step), {}, {});
      case Resolve(t, found) =>
        if found == [] {
          var ob := Obligation(s.tasks[t].receipt, None);
          var s1 := s.(obligations := s.obligations + {ob});
          ObligeAccounted(s, ob);
          BecomeAccounted(s1, t, EnqueueingUnrouted(ob), {ob});
        } else {
          EndAccounted(s, t, {});
          EndBooks(s, t);
          FanOutAccounted(End(s, t), s.tasks[t].receipt, found);
        }
      case SendUnrouted(t) =>
        EndAccounted(s, t, {});
        RecordAccounted(End(s, t), Apply(n, s, step), {s.tasks[t].ob}, {s.tasks[t].ob});
    }
  }

  lemma AwaitAccounted(n: int, s: State, step: Step)
    requires step.Await? || step.BulkAwait?
    requires Books(s) && Accounted(s) && Enabled(n, s, step)
    ensures Accounted(Apply(n, s, step))
  {
    var t, task := step.t, s.tasks[step.t];
    var pc := Next(n, task.pc, step.ev).value;
    if pc.Done? {
      if step.Await? {
        EndAccounted(s, t, {});
        SettleAccounted(End(s, t), task.ob, pc.fim);
      } else {
        BecomeAccounted(s, t, Marking(task.row, task.ob), {});
        SettleAccounted(Become(s, t, Marking(task.row, task.ob)), task.ob, pc.fim);
      }
    } else {
      BecomeAccounted(s, t, if step.Await? then Handling(task.ob, pc) else Redispatching(task.row, task.ob, pc), {});
    }
  }

  /** A fresh row is nobody's to mark. */
  lemma InsertAccounted(s: State, row: Row)
    requires Books(s) && AccountedBut(s, {row.ob}) && !row.reenviado && !row.del
    ensures Accounted(s.(rows := s.rows[s.nextRow := row], nextRow := s.nextRow + 1))
  {
    var rows := s.rows[s.nextRow := row];
    assert rows[s.nextRow].ob == row.ob && LiveRow(s.(rows := rows), s.nextRow);
    RowsAccounted(s, rows, s.nextRow + 1, {}, {row.ob});
    assert s.purged + {} == s.purged;
  }

  lemma ConsumerAccounted(n: int, s: State, step: Step)
    requires step.Consume? || step.Insert? || step.InsertThrows? || step.Ack?
    requires Books(s) && Accounted(s) && Enabled(n, s, step)
    ensures Accounted(Apply(n, s, step))
  {
    match step {
      case Consume(ob) =>
        DequeueAccounted(s, ob);
        SpawnAccounted(s.(dlq := s.dlq - multiset{ob}), Consuming(ob), {ob});
      case Insert(t, data) =>
        BecomeAccounted(s, t, Acking(s.tasks[t].ob), {});
        BecomeBooks(s, t, Acking(s.tasks[t].ob));
        InsertAccounted(Become(s, t, Acking(s.tasks[t].ob)), Row(s.tasks[t].ob, false, false, data));
      case InsertThrows(t) =>
        EndAccounted(s, t, {});
        RecordAccounted(End(s, t), Apply(n, s, step), {s.tasks[t].ob}, {s.tasks[t].ob});
      case Ack(t) => EndAccounted(s, t, {});
    }
  }

  lemma ResendAccounted(n: int, s: State, step: Step)
    requires step.BulkPick? || step.SingleStart? || step.SinglePost? || step.MarkReenviado?
    requires Books(s) && Accounted(s) && Enabled(n, s, step)
    ensures Accounted(Apply(n, s, step))
  {
    match step {
      case BulkPick(row) => SpawnAccounted(s, Redispatching(row, s.rows[row].ob, LookingUpInbox), {});
      case SingleStart(row) => SpawnAccounted(s, Reposting(row, s.rows[row].ob), {});
      case SinglePost(t, ok) =>
        var row, ob := s.tasks[t].row, s.tasks[t].ob;
        EndAccounted(s, t, {});
        BecomeAccounted(s, t, Marking(row, ob), {});
        RecordAccounted(Become(s, t, Marking(row, ob)),
          Become(s, t, Marking(row, ob)).(delivered := s.delivered + {ob}), {ob}, {ob});
      case MarkReenviado(t, _) =>
        EndAccounted(s, t, {});
        if s.tasks[t].row in s.rows {
          MarkAccounted(s, t);
        }
    }
  }

  /** The row was out of the account since the task turned to marking it. */
  lemma MarkAccounted(s: State, t: nat)
    requires Accounted(s) && t in s.tasks && s.tasks[t].Marking? && s.tasks[t].row in s.rows
    ensures var row := s.tasks[t].row;
      Accounted(End(s, t).(rows := s.rows[row := s.rows[row].(reenviado := true)]))
  {
    var row := s.tasks[t].row;
    var rows := s.rows[row := s.rows[row].(reenviado := true)];
    RowsAccounted(s, rows, s.nextRow, {}, {});
    assert s.purged + {} == s.purged;
    EndAccounted(s.(rows := rows), t, {});
  }

  lemma TableAccounted(n: int, s: State, step: Step)
    requires step.SoftDelete? || step.Purge?
    requires Books(s) && Accounted(s) && Enabled(n, s, step)
    ensures Accounted(Apply(n, s, step))
  {
    match step {
      case SoftDelete(row) =>
        RowsAccounted(s, s.rows[row := s.rows[row].(del := true)], s.nextRow, {s.rows[row].ob}, {});
      case Purge(cutoff) =>
        RowsAccounted(s, map r | r in s.rows && s.rows[r].data >= cutoff :: s.rows[r], s.nextRow,
          set r | r in s.rows && s.rows[r].data < cutoff :: s.rows[r].ob, {});
    }
  }

  lemma VanishAccounted(n: int, s: State, t: nat)
    requires t in s.tasks
    requires Books(s) && Accounted(s)
    ensures Accounted(Apply(n, s, Vanish(t)))
  {
    var task := s.tasks[t];
    EndAccounted(s, t, {});
    RecordAccounted(End(s, t), Apply(n, s, Vanish(t)), Held(task), Held(task));
  }

  lemma AccountedStep(n: int, s: State, step: Step)
    requires Books(s) && Accounted(s) && Enabled(n, s, step)
    ensures Accounted(Apply(n, s, step))
  {
    if step.Register? || step.Receive? || step.Resolve? || step.SendUnrouted? {
      IngestAccounted(n, s, step);
    } else if step.Await? || step.BulkAwait? {
      AwaitAccounted(n, s, step);
    } else if step.Consume? || step.Insert? || step.InsertThrows? || step.Ack? {
      ConsumerAccounted(n, s, step);
    } else if step.Vanish? {
      VanishAccounted(n, s, step.t);
    } else if step.SoftDelete? || step.Purge? {
      TableAccounted(n, s, step);
    } else {
      ResendAccounted(n, s, step);
    }
  }
}

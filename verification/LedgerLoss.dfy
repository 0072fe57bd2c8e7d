/** When a message is gone: owed, unsettled, and in no task, no queue and no unmarked row. */
module LedgerLoss {
  import opened Common
  import opened Entities
  import opened Dispatch
  import opened Ledger
  import opened LedgerProofs
  import opened LedgerRuns

  /** A row that still asks to be resent. */
  predicate Pending(s: State, r: nat, ob: Obligation)
  {
    r in s.rows && s.rows[r].ob == ob && !s.rows[r].reenviado && !s.rows[r].del
  }

  predicate HeldBy(s: State, t: nat, ob: Obligation)
  {
    t in s.tasks && Holds(s.tasks[t]) && s.tasks[t].ob == ob
  }

  /** A copy of the message besides the tasks `ts` and the rows `rs`. */
  ghost predicate CopyBesides(s: State, ob: Obligation, ts: set<nat>, rs: set<nat>)
  {
    || (exists t :: t !in ts && HeldBy(s, t, ob))
    || ob in s.dlq
    || (exists r :: r !in rs && Pending(s, r, ob))
  }

  predicate Unsettled(s: State, ob: Obligation)
  {
    ob in s.obligations && ob !in s.delivered + s.purged + s.refused
  }

  ghost predicate Gone(s: State, ob: Obligation)
  {
    Unsettled(s, ob) && !CopyBesides(s, ob, {}, {})
  }

  /**
   * The step takes the last copy of an unsettled message: its call drops it, the consumer refuses
   * it, the process dies with it, or a resend marks its row.
   */
  ghost predicate TakesLast(maxRetries: int, s: State, step: Step, ob: Obligation)
    requires Enabled(maxRetries, s, step)
  {
    Unsettled(s, ob) &&
    match step
    case Await(t, _) => Drops(maxRetries, s, step) && s.tasks[t].ob == ob && !CopyBesides(s, ob, {t}, {})
    case InsertThrows(t) => s.tasks[t].ob == ob && !CopyBesides(s, ob, {t}, {})
    case Vanish(t) => s.tasks[t].Handling? && s.tasks[t].ob == ob && !CopyBesides(s, ob, {t}, {})
    case MarkReenviado(t, throws) =>
      !throws && Pending(s, s.tasks[t].row, ob) && !CopyBesides(s, ob, {}, {s.tasks[t].row})
    case _ => false
  }

  /**
   * The step settles the message or makes a new copy of it: a forced resend of its marked row
   * delivers or queues it, its row is removed, the broker redelivers it, or its webhook is routed.
   */
  ghost predicate Restores(maxRetries: int, s: State, step: Step, ob: Obligation)
    requires Enabled(maxRetries, s, step)
  {
    match step
    case Resolve(t, found) => ob in Routed(s.tasks[t].receipt, found)
    case BulkAwait(t, ev) =>
      var pc := Next(maxRetries, s.tasks[t].pc, ev).value;
      s.tasks[t].ob == ob && pc.Done? && !pc.fim.Dropped?
    case SinglePost(t, ok) => ok && s.tasks[t].ob == ob
    case SoftDelete(row) => s.rows[row].ob == ob
    case Purge(cutoff) => exists r :: r in s.rows && s.rows[r].data < cutoff && s.rows[r].ob == ob
    case Vanish(t) => s.tasks[t].Acking? && s.tasks[t].ob == ob
    case _ => false
  }

  /** The obligations that the routing of a webhook creates. */
  function Routed(receipt: nat, found: seq<InboxId>): set<Obligation>
  {
    if found == [] then {Obligation(receipt, None)} else set i | i in found :: Obligation(receipt, Some(i))
  }

  // --- What the changes of state do to the copies ---------------------------------------------

  ghost predicate Copied(s: State, ob: Obligation)
  {
    CopyBesides(s, ob, {}, {})
  }

  /** A task that does not hold the message does not matter. */
  lemma BesidesOther(s: State, t: nat, ob: Obligation)
    requires !HeldBy(s, t, ob)
    ensures CopyBesides(s, ob, {t}, {}) <==> Copied(s, ob)
  {
    if Copied(s, ob) && ob !in s.dlq {
      if u :| HeldBy(s, u, ob) {
        assert u !in {t} && HeldBy(s, u, ob);
      }
    }
  }

  lemma EndCopies(s: State, t: nat, ob: Obligation)
    ensures Copied(End(s, t), ob) <==> CopyBesides(s, ob, {t}, {})
  {
    forall u ensures HeldBy(End(s, t), u, ob) <==> u !in {t} && HeldBy(s, u, ob) {
    }
    forall r ensures Pending(End(s, t), r, ob) <==> Pending(s, r, ob) {
    }
  }

  lemma BecomeCopies(s: State, t: nat, task: Task, ob: Obligation)
    requires t in s.tasks
    ensures Copied(Become(s, t, task), ob) <==> CopyBesides(s, ob, {t}, {}) || (Holds(task) && task.ob == ob)
  {
    var s' := Become(s, t, task);
    forall u ensures HeldBy(s', u, ob) <==> if u == t then Holds(task) && task.ob == ob else HeldBy(s, u, ob) {
    }
    forall r ensures Pending(s', r, ob) <==> Pending(s, r, ob) {
    }
    if Holds(task) && task.ob == ob {
      assert t !in {} && HeldBy(s', t, ob);
    }
    if u :| u !in {t} && HeldBy(s, u, ob) {
      assert HeldBy(s', u, ob);
    }
  }

  lemma SpawnCopies(s: State, task: Task, ob: Obligation)
    requires s.nextTask !in s.tasks
    ensures Copied(Spawn(s, task), ob) <==> Copied(s, ob) || (Holds(task) && task.ob == ob)
  {
    var s' := Spawn(s, task);
    forall u ensures HeldBy(s', u, ob) <==> if u == s.nextTask then Holds(task) && task.ob == ob else HeldBy(s, u, ob) {
    }
    forall r ensures Pending(s', r, ob) <==> Pending(s, r, ob) {
    }
    if Holds(task) && task.ob == ob {
      assert s.nextTask !in {} && HeldBy(s', s.nextTask, ob);
    }
  }

  /** Copies depend on tasks, queue and rows only. */
  lemma SameCopies(s: State, s': State, ob: Obligation, ts: set<nat>, rs: set<nat>)
    requires s'.tasks == s.tasks && s'.rows == s.rows && (ob in s'.dlq <==> ob in s.dlq)
    ensures CopyBesides(s', ob, ts, rs) <==> CopyBesides(s, ob, ts, rs)
  {
    forall u ensures HeldBy(s', u, ob) <==> HeldBy(s, u, ob) {
    }
    forall r ensures Pending(s', r, ob) <==> Pending(s, r, ob) {
    }
  }

  lemma InQueue(s: State, ob: Obligation)
    requires ob in s.dlq
    ensures Copied(s, ob)
  {
  }

  // --- One step -------------------------------------------------------------------------------

  /** What a step comes to for one message. */
  ghost predicate GoneAfter(maxRetries: int, s: State, step: Step, ob: Obligation)
    requires Enabled(maxRetries, s, step)
  {
    Gone(Apply(maxRetries, s, step), ob) <==>
      (Gone(s, ob) && !Restores(maxRetries, s, step, ob)) || TakesLast(maxRetries, s, step, ob)
  }

  lemma SettleGone(n: int, s: State, step: Step, ob: Obligation)
    requires Consistent(s) && Enabled(n, s, step) && step.Await?
    ensures GoneAfter(n, s, step, ob)
  {
    var t := step.t;
    var task := s.tasks[t];
    var pc := Next(n, task.pc, step.ev).value;
    if task.ob == ob {
      assert HeldBy(s, t, ob) && t !in {};
    } else {
      BesidesOther(s, t, ob);
    }
    if pc.Done? {
      EndCopies(s, t, ob);
      var s1 := End(s, t);
      var s' := Settle(s1, task.ob, pc.fim);
      if !(pc.fim.DeadLettered? && task.ob == ob) {
        SameCopies(s1, s', ob, {}, {});
      }
    } else {
      BecomeCopies(s, t, Handling(task.ob, pc), ob);
    }
  }

  /** The fields that routing fills, while all else stays. */
  lemma {:induction false} FanOutFacts(s: State, receipt: nat, found: seq<InboxId>, ob: Obligation)
    requires forall t :: t in s.tasks ==> t < s.nextTask
    ensures var s' := FanOut(s, receipt, found);
      && s'.rows == s.rows && s'.dlq == s.dlq
      && s'.delivered == s.delivered && s'.purged == s.purged && s'.refused == s.refused
      && (ob in s'.obligations <==> ob in s.obligations || (ob.receipt == receipt && ob.inbox.Some? && ob.inbox.value in found))
      && (Copied(s', ob) <==> Copied(s, ob) || (ob.receipt == receipt && ob.inbox.Some? && ob.inbox.value in found))
    decreases |found|
  {
    if found != [] {
      var first := Obligation(receipt, Some(found[0]));
      var s1 := Spawn(s, Handling(first, LookingUpInbox));
      var s2 := s1.(obligations := s.obligations + {first});
      SpawnCopies(s, Handling(first, LookingUpInbox), ob);
      SameCopies(s1, s2, ob, {}, {});
      FanOutFacts(s2, receipt, found[1..], ob);
      assert found == [found[0]] + found[1..];
    }
  }

  lemma IngestGone(n: int, s: State, step: Step, ob: Obligation)
    requires Consistent(s) && Enabled(n, s, step) && (step.Register? || step.Receive? || step.Resolve? || step.SendUnrouted?)
    ensures GoneAfter(n, s, step, ob)
  {
    var s' := Apply(n, s, step);
    match step {
      case Register(_) => SameCopies(s, s', ob, {}, {});
      case Receive =>
        SpawnCopies(s, Resolving(s.nextReceipt), ob);
        SameCopies(Spawn(s, Resolving(s.nextReceipt)), s', ob, {}, {});
      case Resolve(t, found) =>
        var receipt := s.tasks[t].receipt;
        BesidesOther(s, t, ob);
        if found == [] {
          var task := EnqueueingUnrouted(Obligation(receipt, None));
          BecomeCopies(s, t, task, ob);
          SameCopies(Become(s, t, task), s', ob, {}, {});
        } else {
          EndCopies(s, t, ob);
          FanOutFacts(End(s, t), receipt, found, ob);
          assert ob in Routed(receipt, found) <==> ob.receipt == receipt && ob.inbox.Some? && ob.inbox.value in found;
        }
      case SendUnrouted(t) =>
        EndCopies(s, t, ob);
        if s.tasks[t].ob == ob {
          assert HeldBy(s, t, ob) && t !in {};
          InQueue(s', ob);
        } else {
          BesidesOther(s, t, ob);
          SameCopies(End(s, t), s', ob, {}, {});
        }
    }
  }

  lemma ConsumeGone(n: int, s: State, taken: Obligation, ob: Obligation)
    requires Consistent(s) && Enabled(n, s, Consume(taken))
    ensures GoneAfter(n, s, Consume(taken), ob)
  {
    var s1, s' := Spawn(s, Consuming(taken)), Apply(n, s, Consume(taken));
    SpawnCopies(s, Consuming(taken), ob);
    if taken == ob {
      InQueue(s, ob);
      assert s.nextTask !in {} && HeldBy(s', s.nextTask, ob);
    } else {
      SameCopies(s1, s', ob, {}, {});
    }
  }

  lemma RefuseGone(n: int, s: State, t: nat, ob: Obligation)
    requires Consistent(s) && Enabled(n, s, InsertThrows(t))
    ensures GoneAfter(n, s, InsertThrows(t), ob)
  {
    EndCopies(s, t, ob);
    SameCopies(End(s, t), Apply(n, s, InsertThrows(t)), ob, {}, {});
    if s.tasks[t].ob == ob {
      assert HeldBy(s, t, ob) && t !in {};
    } else {
      BesidesOther(s, t, ob);
    }
  }

  lemma AckGone(n: int, s: State, t: nat, ob: Obligation)
    requires Consistent(s) && Enabled(n, s, Ack(t))
    ensures GoneAfter(n, s, Ack(t), ob)
  {
    EndCopies(s, t, ob);
    BesidesOther(s, t, ob);
  }

  lemma InsertGone(n: int, s: State, t: nat, data: int, ob: Obligation)
    requires Consistent(s) && Enabled(n, s, Insert(t, data))
    ensures GoneAfter(n, s, Insert(t, data), ob)
  {
    var s' := Apply(n, s, Insert(t, data));
    var task := s.tasks[t];
    var s1 := Become(s, t, Acking(task.ob));
    BecomeCopies(s, t, Acking(task.ob), ob);
    forall u ensures HeldBy(s', u, ob) <==> HeldBy(s1, u, ob) {
    }
    forall r ensures Pending(s', r, ob) <==> if r == s.nextRow then task.ob == ob else Pending(s, r, ob) {
    }
    if task.ob == ob {
      assert HeldBy(s, t, ob) && t !in {};
      assert s.nextRow !in {} && Pending(s', s.nextRow, ob);
    } else {
      BesidesOther(s, t, ob);
    }
  }

  lemma ResendGone(n: int, s: State, step: Step, ob: Obligation)
    requires Consistent(s) && Enabled(n, s, step) && (step.BulkPick? || step.SingleStart? || step.SinglePost?)
    ensures GoneAfter(n, s, step, ob)
  {
    var s' := Apply(n, s, step);
    match step {
      case BulkPick(row) => SpawnCopies(s, Redispatching(row, s.rows[row].ob, LookingUpInbox), ob);
      case SingleStart(row) => SpawnCopies(s, Reposting(row, s.rows[row].ob), ob);
      case SinglePost(t, ok) =>
        BesidesOther(s, t, ob);
        if ok {
          var task := Marking(s.tasks[t].row, s.tasks[t].ob);
          BecomeCopies(s, t, task, ob);
          SameCopies(Become(s, t, task), s', ob, {}, {});
        } else {
          EndCopies(s, t, ob);
        }
    }
  }

  lemma BulkGone(n: int, s: State, step: Step, ob: Obligation)
    requires Consistent(s) && Enabled(n, s, step) && step.BulkAwait?
    ensures GoneAfter(n, s, step, ob)
  {
    var t := step.t;
    var task := s.tasks[t];
    var pc := Next(n, task.pc, step.ev).value;
    BesidesOther(s, t, ob);
    if pc.Done? {
      BecomeCopies(s, t, Marking(task.row, task.ob), ob);
      var s1 := Become(s, t, Marking(task.row, task.ob));
      var s' := Settle(s1, task.ob, pc.fim);
      if pc.fim.DeadLettered? && task.ob == ob {
        InQueue(s', ob);
      } else {
        SameCopies(s1, s', ob, {}, {});
      }
    } else {
      BecomeCopies(s, t, Redispatching(task.row, task.ob, pc), ob);
    }
  }

  lemma MarkGone(n: int, s: State, t: nat, throws: bool, ob: Obligation)
    requires Consistent(s) && Enabled(n, s, MarkReenviado(t, throws))
    ensures GoneAfter(n, s, MarkReenviado(t, throws), ob)
  {
    var row := s.tasks[t].row;
    BesidesOther(s, t, ob);
    EndCopies(s, t, ob);
    if !throws && row in s.rows {
      var s' := Apply(n, s, MarkReenviado(t, throws));
      RowAway(End(s, t), s', row, ob);
      RowBesides(s, t, row, ob);
    }
  }

  /** A row that stops being pending is a copy less. */
  lemma RowAway(s: State, s': State, row: nat, ob: Obligation)
    requires s'.tasks == s.tasks && s'.dlq == s.dlq && !Pending(s', row, ob)
    requires forall r :: r != row ==> (Pending(s', r, ob) <==> Pending(s, r, ob))
    ensures Copied(s', ob) <==> CopyBesides(s, ob, {}, {row})
  {
    forall u ensures HeldBy(s', u, ob) <==> HeldBy(s, u, ob) {
    }
    forall r ensures Pending(s', r, ob) <==> r !in {row} && Pending(s, r, ob) {
    }
  }

  lemma RowBesides(s: State, t: nat, row: nat, ob: Obligation)
    requires !HeldBy(s, t, ob)
    ensures CopyBesides(End(s, t), ob, {}, {row}) <==> CopyBesides(s, ob, {}, {row})
    ensures !Pending(s, row, ob) ==> (CopyBesides(s, ob, {}, {row}) <==> Copied(s, ob))
    ensures Pending(s, row, ob) ==> Copied(s, ob)
  {
    forall u ensures HeldBy(End(s, t), u, ob) <==> HeldBy(s, u, ob) {
    }
    forall r ensures Pending(End(s, t), r, ob) <==> Pending(s, r, ob) {
    }
    if r :| Pending(s, r, ob) && r != row {
      assert r !in {row};
    }
    assert row !in {};
  }

  /** Rows that are removed or deleted settle their message; no other row changes. */
  lemma TableGone(n: int, s: State, step: Step, ob: Obligation)
    requires Consistent(s) && Enabled(n, s, step) && (step.SoftDelete? || step.Purge?)
    ensures GoneAfter(n, s, step, ob)
  {
    var s' := Apply(n, s, step);
    if ob !in s'.purged || ob in s.purged {
      forall u ensures HeldBy(s', u, ob) <==> HeldBy(s, u, ob) {
      }
      forall r ensures ob !in s'.purged ==> (Pending(s', r, ob) <==> Pending(s, r, ob)) {
      }
    }
  }

  lemma VanishGone(n: int, s: State, t: nat, ob: Obligation)
    requires Consistent(s) && Enabled(n, s, Vanish(t))
    ensures GoneAfter(n, s, Vanish(t), ob)
  {
    var s' := Apply(n, s, Vanish(t));
    var task := s.tasks[t];
    EndCopies(s, t, ob);
    if Holds(task) && task.ob == ob {
      assert HeldBy(s, t, ob) && t !in {};
    } else {
      BesidesOther(s, t, ob);
    }
    if (task.Consuming? || task.Acking?) && task.ob == ob {
      InQueue(s', ob);
    } else {
      SameCopies(End(s, t), s', ob, {}, {});
    }
  }

  /**
   * A step makes a message gone exactly when it takes its last copy, and leaves it gone unless it
   * settles it or makes a new copy.
   */
  lemma GoneStep(n: int, s: State, step: Step, ob: Obligation)
    requires Consistent(s) && Enabled(n, s, step)
    ensures Gone(Apply(n, s, step), ob) <==>
      (Gone(s, ob) && !Restores(n, s, step, ob)) || TakesLast(n, s, step, ob)
  {
    assert GoneAfter(n, s, step, ob) by {
      match step {
        case Register(_) => IngestGone(n, s, step, ob);
        case Receive => IngestGone(n, s, step, ob);
        case Resolve(_, _) => IngestGone(n, s, step, ob);
        case SendUnrouted(_) => IngestGone(n, s, step, ob);
        case Await(_, _) => SettleGone(n, s, step, ob);
        case Consume(taken) => ConsumeGone(n, s, taken, ob);
        case Insert(t, data) => InsertGone(n, s, t, data, ob);
        case InsertThrows(t) => RefuseGone(n, s, t, ob);
        case Ack(t) => AckGone(n, s, t, ob);
        case BulkPick(_) => ResendGone(n, s, step, ob);
        case BulkAwait(_, _) => BulkGone(n, s, step, ob);
        case SingleStart(_) => ResendGone(n, s, step, ob);
        case SinglePost(_, _) => ResendGone(n, s, step, ob);
        case MarkReenviado(t, throws) => MarkGone(n, s, t, throws, ob);
        case SoftDelete(_) => TableGone(n, s, step, ob);
        case Purge(_) => TableGone(n, s, step, ob);
        case Vanish(t) => VanishGone(n, s, t, ob);
      }
    }
  }

  // --- Whole runs -----------------------------------------------------------------------------

  /** Step `k` of the run takes the last copy of the message. */
  ghost predicate TookLast(n: int, steps: seq<Step>, k: nat, ob: Obligation)
  {
    && k < |steps| && Exec(n, steps[..k]).Some? && Enabled(n, Exec(n, steps[..k]).value, steps[k])
    && TakesLast(n, Exec(n, steps[..k]).value, steps[k], ob)
  }

  /** No step after `k` settles the message or makes a new copy of it. */
  ghost predicate Unrestored(n: int, steps: seq<Step>, k: nat, ob: Obligation)
  {
    forall m :: k < m < |steps| ==> !RestoredAt(n, steps, m, ob)
  }

  ghost predicate RestoredAt(n: int, steps: seq<Step>, m: nat, ob: Obligation)
  {
    && m < |steps| && Exec(n, steps[..m]).Some? && Enabled(n, Exec(n, steps[..m]).value, steps[m])
    && Restores(n, Exec(n, steps[..m]).value, steps[m], ob)
  }

  ghost predicate TakenForGood(n: int, steps: seq<Step>, ob: Obligation)
  {
    exists k: nat :: TookLast(n, steps, k, ob) && Unrestored(n, steps, k, ob)
  }

  lemma PrefixOf(n: int, steps: seq<Step>, k: nat, ob: Obligation)
    requires k < |steps| - 1
    ensures TookLast(n, steps, k, ob) <==> TookLast(n, steps[..|steps| - 1], k, ob)
    ensures RestoredAt(n, steps, k, ob) <==> RestoredAt(n, steps[..|steps| - 1], k, ob)
  {
    assert steps[..|steps| - 1][..k] == steps[..k];
  }

  lemma TakenForGoodStep(n: int, steps: seq<Step>, ob: Obligation)
    requires steps != []
    ensures var last := |steps| - 1;
      TakenForGood(n, steps, ob) <==>
        (TakenForGood(n, steps[..last], ob) && !RestoredAt(n, steps, last, ob)) || TookLast(n, steps, last, ob)
  {
    var last := |steps| - 1;
    var init := steps[..last];
    forall k: nat | k < last
      ensures TookLast(n, steps, k, ob) <==> TookLast(n, init, k, ob)
      ensures Unrestored(n, steps, k, ob) <==> Unrestored(n, init, k, ob) && !RestoredAt(n, steps, last, ob)
    {
      PrefixOf(n, steps, k, ob);
      forall m: nat | m < last ensures RestoredAt(n, steps, m, ob) <==> RestoredAt(n, init, m, ob) {
        PrefixOf(n, steps, m, ob);
      }
    }
    assert Unrestored(n, steps, last, ob);
  }

  /**
   * A message is gone exactly if some step of the run took its last copy, by dropping it or by
   * marking its row, and no step has settled it or made a copy since.
   */
  lemma {:induction false} GoneExactly(n: int, steps: seq<Step>, ob: Obligation)
    requires Exec(n, steps).Some?
    ensures Gone(Exec(n, steps).value, ob) <==> TakenForGood(n, steps, ob)
  {
    if steps != [] {
      var last := |steps| - 1;
      var init := steps[..last];
      GoneExactly(n, init, ob);
      RunInvariant(n, init);
      GoneStep(n, Exec(n, init).value, steps[last], ob);
      TakenForGoodStep(n, steps, ob);
    }
  }

  /** Step `k` of the run drops the message: a call swallows it, the consumer refuses it, or the process dies with it. */
  ghost predicate DroppedAt(n: int, steps: seq<Step>, k: nat, ob: Obligation)
  {
    && k < |steps| && Exec(n, steps[..k]).Some? && Enabled(n, Exec(n, steps[..k]).value, steps[k])
    && var s := Exec(n, steps[..k]).value;
       Drops(n, s, steps[k]) && s.tasks[steps[k].t].ob == ob
  }

  /** The history set `lost` is what was dropped. */
  lemma {:induction false} LostIsDropped(n: int, steps: seq<Step>, ob: Obligation)
    requires Exec(n, steps).Some?
    ensures ob in Exec(n, steps).value.lost <==> exists k: nat :: DroppedAt(n, steps, k, ob)
  {
    if steps != [] {
      var last := |steps| - 1;
      var init := steps[..last];
      LostIsDropped(n, init, ob);
      forall k: nat | k < last ensures DroppedAt(n, steps, k, ob) <==> DroppedAt(n, init, k, ob) {
        assert init[..k] == steps[..k];
      }
      LostNext(n, Exec(n, init).value, steps[last], ob);
      assert ob in Exec(n, steps).value.lost <==> ob in Exec(n, init).value.lost || DroppedAt(n, steps, last, ob);
      if ob in Exec(n, init).value.lost {
        var k: nat :| DroppedAt(n, init, k, ob);
        assert DroppedAt(n, steps, k, ob);
      } else {
        forall k: nat | k < last ensures !DroppedAt(n, steps, k, ob) {
          assert !DroppedAt(n, init, k, ob);
        }
      }
    }
  }

  lemma LostNext(n: int, s: State, step: Step, ob: Obligation)
    requires Enabled(n, s, step)
    ensures ob in Apply(n, s, step).lost <==> ob in s.lost || (Drops(n, s, step) && s.tasks[step.t].ob == ob)
  {
    match step {
      case Resolve(t, found) => FanOutLost(End(s, t), s.tasks[t].receipt, found);
      case _ =>
    }
  }

  /** Nothing is ever gone that was not dropped: a mark takes a last copy only of a message dropped before. */
  lemma GoneWasDropped(n: int, steps: seq<Step>, ob: Obligation)
    requires Exec(n, steps).Some? && Gone(Exec(n, steps).value, ob)
    ensures exists k: nat :: DroppedAt(n, steps, k, ob)
  {
    RunInvariant(n, steps);
    LostIsDropped(n, steps, ob);
    var s := Exec(n, steps).value;
    assert ob in Settled(s) || Live(s, ob);
    if Live(s, ob) && ob !in s.dlq {
      if t :| t in s.tasks && Holds(s.tasks[t]) && s.tasks[t].ob == ob {
        assert t !in {} && HeldBy(s, t, ob);
      } else {
        var r :| r in s.rows && s.rows[r].ob == ob && LiveRow(s, r);
        assert r !in {} && Pending(s, r, ob);
      }
    }
  }

  /** So with an attempt allowed and no fault outside the gateway no message is ever gone. */
  lemma NothingGoneWithoutFaults(n: int, steps: seq<Step>, ob: Obligation)
    requires n >= 1 && Exec(n, steps).Some? && FaultFree(n, steps)
    ensures !Gone(Exec(n, steps).value, ob)
  {
    FaultFreeIsDropFree(n, steps);
    LostExactly(n, steps);
    if Gone(Exec(n, steps).value, ob) {
      GoneWasDropped(n, steps, ob);
      LostIsDropped(n, steps, ob);
    }
  }
}

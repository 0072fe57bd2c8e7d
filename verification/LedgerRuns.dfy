/** What the delivery ledger guarantees over whole runs, and the two ways it is broken. */
module LedgerRuns {
  import opened Common
  import opened Entities
  import opened Dispatch
  import opened Ledger
  import opened LedgerProofs

  /** The state after the steps, `None` if one of them was not possible. */
  function Exec(maxRetries: int, steps: seq<Step>): Option<State>
  {
    if steps == [] then Some(INIT) else
    var before := Exec(maxRetries, steps[..|steps| - 1]);
    var step := steps[|steps| - 1];
    if before.Some? && Enabled(maxRetries, before.value, step)
    then Some(Apply(maxRetries, before.value, step)) else None
  }

  /** No step of the run is one that drops a message. */
  predicate DropFree(maxRetries: int, steps: seq<Step>)
    requires Exec(maxRetries, steps).Some?
  {
    steps == [] ||
    (var before := steps[..|steps| - 1];
     DropFree(maxRetries, before) && !Drops(maxRetries, Exec(maxRetries, before).value, steps[|steps| - 1]))
  }

  lemma {:induction false} RunInvariant(maxRetries: int, steps: seq<Step>)
    requires Exec(maxRetries, steps).Some?
    ensures Books(Exec(maxRetries, steps).value) && Accounted(Exec(maxRetries, steps).value)
  {
    if steps != [] {
      var before := steps[..|steps| - 1];
      RunInvariant(maxRetries, before);
      BooksStep(maxRetries, Exec(maxRetries, before).value, steps[|steps| - 1]);
      AccountedStep(maxRetries, Exec(maxRetries, before).value, steps[|steps| - 1]);
    }
  }

  lemma {:induction false} FanOutLost(s: State, receipt: nat, found: seq<InboxId>)
    ensures FanOut(s, receipt, found).lost == s.lost
    decreases |found|
  {
    if found != [] {
      var ob := Obligation(receipt, Some(found[0]));
      FanOutLost(Spawn(s, Handling(ob, LookingUpInbox)).(obligations := s.obligations + {ob}), receipt, found[1..]);
    }
  }

  lemma LostStep(maxRetries: int, s: State, step: Step)
    requires Enabled(maxRetries, s, step)
    ensures s.lost <= Apply(maxRetries, s, step).lost
    ensures !Drops(maxRetries, s, step) ==> Apply(maxRetries, s, step).lost == s.lost
    ensures Drops(maxRetries, s, step) ==> Apply(maxRetries, s, step).lost != {}
  {
    var s' := Apply(maxRetries, s, step);
    match step {
      case Resolve(t, found) => FanOutLost(End(s, t), s.tasks[t].receipt, found);
      case Await(t, _) => assert Drops(maxRetries, s, step) ==> s.tasks[t].ob in s'.lost;
      case BulkAwait(t, _) => assert Drops(maxRetries, s, step) ==> s.tasks[t].ob in s'.lost;
      case InsertThrows(t) => assert s.tasks[t].ob in s'.lost;
      case Vanish(t) => assert s.tasks[t].Handling? ==> s.tasks[t].ob in s'.lost;
      case _ =>
    }
  }

  lemma {:induction false} LostExactly(maxRetries: int, steps: seq<Step>)
    requires Exec(maxRetries, steps).Some?
    ensures Exec(maxRetries, steps).value.lost == {} <==> DropFree(maxRetries, steps)
  {
    if steps != [] {
      var before := steps[..|steps| - 1];
      LostExactly(maxRetries, before);
      LostStep(maxRetries, Exec(maxRetries, before).value, steps[|steps| - 1]);
    }
  }

  /** An unmarked row that nobody is about to mark; with an inbox a resend can pick it, without one it is only kept. */
  ghost predicate StoredIn(maxRetries: int, s: State, ob: Obligation, r: nat)
  {
    && r in s.rows && s.rows[r].ob == ob && LiveRow(s, r)
    && (ob.inbox.Some? <==> Enabled(maxRetries, s, SingleStart(r))) && (ob.inbox.Some? <==> Enabled(maxRetries, s, BulkPick(r)))
  }

  ghost predicate Waiting(maxRetries: int, s: State, ob: Obligation)
  {
    || (exists t :: t in s.tasks && Holds(s.tasks[t]) && s.tasks[t].ob == ob)
    || ob in s.dlq
    || (exists r :: StoredIn(maxRetries, s, ob, r))
  }

  /**
   * No loss, over every interleaving of ingestion, retrying handles, queue consumption, bulk and
   * single resends, purges and crashes: if no step dropped a message, each obligation is delivered,
   * was removed by an operator or the cron, was refused to a sender that repeats it, or is still
   * held by a running task, queued, or in an unmarked row. A resend can pick such a row if
   * the obligation has an inbox; a webhook without one is stored, and no resend takes it. Marking a row
   * `reenviado` is one of the steps, so it never takes the last copy. And nothing is delivered,
   * queued or stored that was not owed.
   */
  lemma NoLoss(maxRetries: int, steps: seq<Step>)
    requires Exec(maxRetries, steps).Some?
    ensures var s := Exec(maxRetries, steps).value;
      && (DropFree(maxRetries, steps) ==>
            forall ob :: ob in s.obligations ==> ob in s.delivered + s.purged + s.refused || Waiting(maxRetries, s, ob))
      && s.delivered <= s.obligations
      && (forall ob :: ob in s.dlq ==> ob in s.obligations)
      && (forall r :: r in s.rows ==> s.rows[r].ob in s.obligations)
  {
    RunInvariant(maxRetries, steps);
    LostExactly(maxRetries, steps);
    var s := Exec(maxRetries, steps).value;
    if DropFree(maxRetries, steps) {
      forall ob | ob in s.obligations ensures ob in s.delivered + s.purged + s.refused || Waiting(maxRetries, s, ob) {
        if ob !in s.delivered + s.purged + s.refused {
          assert ob in Settled(s) || Live(s, ob);
          LiveIsWaiting(maxRetries, s, ob);
        }
      }
    }
  }

  lemma LiveIsWaiting(maxRetries: int, s: State, ob: Obligation)
    requires Live(s, ob)
    ensures Waiting(maxRetries, s, ob)
  {
    if r :| r in s.rows && s.rows[r].ob == ob && LiveRow(s, r) {
      assert StoredIn(maxRetries, s, ob, r);
    }
  }

  /** No step of the run is a fault outside the gateway. */
  predicate FaultFree(maxRetries: int, steps: seq<Step>)
    requires Exec(maxRetries, steps).Some?
  {
    steps == [] ||
    (var before := steps[..|steps| - 1];
     FaultFree(maxRetries, before) && !InfraFault(Exec(maxRetries, before).value, steps[|steps| - 1]))
  }

  lemma {:induction false} FaultFreeIsDropFree(maxRetries: int, steps: seq<Step>)
    requires maxRetries >= 1 && Exec(maxRetries, steps).Some? && FaultFree(maxRetries, steps)
    ensures DropFree(maxRetries, steps)
  {
    if steps != [] {
      var before := steps[..|steps| - 1];
      FaultFreeIsDropFree(maxRetries, before);
      DropsExactly(maxRetries, Exec(maxRetries, before).value, steps[|steps| - 1]);
    }
  }

  /** With at least one attempt allowed, and as long as nothing outside the gateway fails, no message is lost. */
  lemma NoLossWithoutFaults(maxRetries: int, steps: seq<Step>)
    requires maxRetries >= 1 && Exec(maxRetries, steps).Some? && FaultFree(maxRetries, steps)
    ensures var s := Exec(maxRetries, steps).value;
      forall ob :: ob in s.obligations ==> ob in s.delivered + s.purged + s.refused || Waiting(maxRetries, s, ob)
  {
    FaultFreeIsDropFree(maxRetries, steps);
    NoLoss(maxRetries, steps);
  }

  /** The insert of a dead letter never violates the foreign key on the inbox. */
  lemma ConsumerIsNeverRejected(maxRetries: int, steps: seq<Step>, t: nat, data: int)
    requires Exec(maxRetries, steps).Some?
    requires t in Exec(maxRetries, steps).value.tasks && Exec(maxRetries, steps).value.tasks[t].Consuming?
    ensures Enabled(maxRetries, Exec(maxRetries, steps).value, Insert(t, data))
  {
    RunInvariant(maxRetries, steps);
  }

  /** A fault outside the gateway: an awaited call throws, the process dies, the insert fails. */
  predicate InfraFault(s: State, step: Step)
  {
    match step
    case Await(_, ev) => ev.Threw?
    case BulkAwait(_, ev) => ev.Threw?
    case InsertThrows(_) => true
    case Vanish(t) => t in s.tasks && s.tasks[t].Handling?
    case _ => false
  }

  /** The call has just obtained an ambiente that is in use. */
  predicate ObtainsAmbiente(s: State, t: nat, ev: Event)
    requires t in s.tasks && (s.tasks[t].Handling? || s.tasks[t].Redispatching?)
  {
    (ev.CacheHit? && !ev.ambiente.del) ||
    (ev.CacheFilled? && s.tasks[t].pc.FillingCache? && !s.tasks[t].pc.ambiente.del)
  }

  /** A step drops a message exactly on an infrastructure fault, or when no attempt is configured. */
  lemma DropsExactly(maxRetries: int, s: State, step: Step)
    requires Enabled(maxRetries, s, step)
    ensures Drops(maxRetries, s, step) <==>
      InfraFault(s, step) ||
      (maxRetries < 1 && (step.Await? || step.BulkAwait?) && ObtainsAmbiente(s, step.t, step.ev))
  {
  }

  // --- The promise fails in exactly these ways ------------------------------------------------

  const OB := Obligation(0, Some("inbox"))

  /** One webhook whose dispatch found its ambiente deleted, up to the bulk resend of its row. */
  const TO_ROW: seq<Step> :=
    [Register("inbox"), Receive, Resolve(0, ["inbox"]), Await(1, InboxFound(1)), Await(1, CacheMiss), Await(1, AmbienteMissing),
     Await(1, Sent), Consume(OB), Insert(2, 0), Ack(2), BulkPick(0), BulkAwait(3, InboxFound(1))]

  /** The states of that run after 3, 7 and 10 steps, and at its end. */
  const AT_DISPATCH := State(map[1 := Handling(OB, LookingUpInbox)], 2, multiset{}, map[], 0, {"inbox"}, 1, {OB}, {}, {}, {}, {})
  const AT_QUEUE := AT_DISPATCH.(tasks := map[], dlq := multiset{OB})
  const AT_TABLE := AT_QUEUE.(nextTask := 3, dlq := multiset{}, rows := map[0 := Row(OB, false, false, 0)], nextRow := 1)
  const AT_RESEND := AT_TABLE.(tasks := map[3 := Redispatching(0, OB, ReadingCache(1))], nextTask := 4)

  lemma ExecAppend(maxRetries: int, steps: seq<Step>, s: State, step: Step, s': State)
    requires Exec(maxRetries, steps) == Some(s) && Enabled(maxRetries, s, step) && Apply(maxRetries, s, step) == s'
    ensures Exec(maxRetries, steps + [step]) == Some(s')
  {
    assert (steps + [step])[..|steps + [step]| - 1] == steps;
  }

  lemma ReachesDispatch(maxRetries: int)
    ensures Exec(maxRetries, TO_ROW[..3]) == Some(AT_DISPATCH)
  {
    var s1 := INIT.(registered := {"inbox"});
    var s2 := s1.(tasks := map[0 := Resolving(0)], nextTask := 1, nextReceipt := 1);
    assert INIT.registered + {"inbox"} == {"inbox"};
    ExecAppend(maxRetries, [], INIT, Register("inbox"), s1);
    assert s1.tasks[0 := Resolving(0)] == s2.tasks;
    ExecAppend(maxRetries, [] + [Register("inbox")], s1, Receive, s2);
    assert TO_ROW[..2] == [] + [Register("inbox")] + [Receive];
    var s3 := Spawn(End(s2, 0), Handling(OB, LookingUpInbox)).(obligations := {} + {OB});
    assert s3 == AT_DISPATCH by {
      assert (s2.tasks - {0})[1 := Handling(OB, LookingUpInbox)] == AT_DISPATCH.tasks;
      assert {} + {OB} == {OB};
    }
    assert FanOut(End(s2, 0), 0, ["inbox"]) == FanOut(s3, 0, ["inbox"][1..]) == s3;
    ExecAppend(maxRetries, TO_ROW[..2], s2, Resolve(0, ["inbox"]), s3);
    assert TO_ROW[..3] == TO_ROW[..2] + [Resolve(0, ["inbox"])];
  }

  /** The webhook's `handle`, waiting for the table. */
  const AT_READ := AT_DISPATCH.(tasks := map[1 := Handling(OB, ReadingTable(1))])

  lemma ReachesRead(maxRetries: int)
    ensures Exec(maxRetries, TO_ROW[..5]) == Some(AT_READ)
  {
    ReachesDispatch(maxRetries);
    var s4 := AT_DISPATCH.(tasks := map[1 := Handling(OB, ReadingCache(1))]);
    assert AT_DISPATCH.tasks[1 := Handling(OB, ReadingCache(1))] == s4.tasks;
    ExecAppend(maxRetries, TO_ROW[..3], AT_DISPATCH, Await(1, InboxFound(1)), s4);
    assert TO_ROW[..4] == TO_ROW[..3] + [Await(1, InboxFound(1))];
    assert s4.tasks[1 := Handling(OB, ReadingTable(1))] == AT_READ.tasks;
    ExecAppend(maxRetries, TO_ROW[..4], s4, Await(1, CacheMiss), AT_READ);
    assert TO_ROW[..5] == TO_ROW[..4] + [Await(1, CacheMiss)];
  }

  const AT_ENQUEUE := AT_DISPATCH.(tasks := map[1 := Handling(OB, Enqueueing(AMBIENTE_INDISPONIVEL))])

  lemma ReachesEnqueue(maxRetries: int)
    ensures Exec(maxRetries, TO_ROW[..6]) == Some(AT_ENQUEUE)
  {
    ReachesRead(maxRetries);
    assert AT_READ.tasks[1 := Handling(OB, Enqueueing(AMBIENTE_INDISPONIVEL))] == AT_ENQUEUE.tasks;
    ExecAppend(maxRetries, TO_ROW[..5], AT_READ, Await(1, AmbienteMissing), AT_ENQUEUE);
    assert TO_ROW[..6] == TO_ROW[..5] + [Await(1, AmbienteMissing)];
  }

  lemma ReachesQueue(maxRetries: int)
    ensures Exec(maxRetries, TO_ROW[..7]) == Some(AT_QUEUE)
  {
    ReachesEnqueue(maxRetries);
    assert AT_ENQUEUE.tasks - {1} == map[];
    ExecAppend(maxRetries, TO_ROW[..6], AT_ENQUEUE, Await(1, Sent), AT_QUEUE);
    assert TO_ROW[..7] == TO_ROW[..6] + [Await(1, Sent)];
  }

  lemma ReachesTable(maxRetries: int)
    ensures Exec(maxRetries, TO_ROW[..10]) == Some(AT_TABLE)
  {
    ReachesQueue(maxRetries);
    var s8 := AT_QUEUE.(tasks := map[2 := Consuming(OB)], nextTask := 3, dlq := multiset{});
    var s9 := s8.(tasks := map[2 := Acking(OB)], rows := AT_TABLE.rows, nextRow := 1);
    assert AT_QUEUE.tasks[2 := Consuming(OB)] == s8.tasks;
    ExecAppend(maxRetries, TO_ROW[..7], AT_QUEUE, Consume(OB), s8);
    assert TO_ROW[..8] == TO_ROW[..7] + [Consume(OB)];
    assert s8.tasks[2 := Acking(OB)] == s9.tasks;
    assert s8.rows[0 := Row(OB, false, false, 0)] == s9.rows;
    ExecAppend(maxRetries, TO_ROW[..8], s8, Insert(2, 0), s9);
    assert TO_ROW[..9] == TO_ROW[..8] + [Insert(2, 0)];
    assert s9.tasks - {2} == map[];
    ExecAppend(maxRetries, TO_ROW[..9], s9, Ack(2), AT_TABLE);
    assert TO_ROW[..10] == TO_ROW[..9] + [Ack(2)];
  }

  lemma ReachesResend(maxRetries: int)
    ensures Exec(maxRetries, TO_ROW) == Some(AT_RESEND)
  {
    ReachesTable(maxRetries);
    var s11 := AT_TABLE.(tasks := map[3 := Redispatching(0, OB, LookingUpInbox)], nextTask := 4);
    assert AT_TABLE.tasks[3 := Redispatching(0, OB, LookingUpInbox)] == s11.tasks;
    ExecAppend(maxRetries, TO_ROW[..10], AT_TABLE, BulkPick(0), s11);
    assert TO_ROW[..11] == TO_ROW[..10] + [BulkPick(0)];
    assert s11.tasks[3 := Redispatching(0, OB, ReadingCache(1))] == AT_RESEND.tasks;
    ExecAppend(maxRetries, TO_ROW[..11], s11, BulkAwait(3, InboxFound(1)), AT_RESEND);
    assert TO_ROW == TO_ROW[..11] + [BulkAwait(3, InboxFound(1))];
  }

  const AT_MARK := AT_RESEND.(tasks := map[3 := Marking(0, OB)], lost := {OB})

  /** The dispatch of the resend swallows an exception, or has no attempt to make. */
  predicate Futile(maxRetries: int, ev: Event)
  {
    ev == Threw || (maxRetries < 1 && ev == CacheHit(Ambiente(1, "", "", false)))
  }

  lemma ReachesMark(maxRetries: int, ev: Event)
    requires Futile(maxRetries, ev)
    ensures Exec(maxRetries, TO_ROW + [BulkAwait(3, ev)]) == Some(AT_MARK)
  {
    ReachesResend(maxRetries);
    assert AT_RESEND.tasks[3 := Marking(0, OB)] == AT_MARK.tasks && {} + {OB} == AT_MARK.lost;
    assert Next(maxRetries, ReadingCache(1), ev).value.Done?;
    ExecAppend(maxRetries, TO_ROW, AT_RESEND, BulkAwait(3, ev), AT_MARK);
  }

  /**
   * A bulk resend marks the row whatever became of the dispatch: after an exception that `handle`
   * swallowed, or with no attempt configured, the row says `reenviado` and the message is nowhere.
   */
  lemma ResendCanLoseAMessage(maxRetries: int, ev: Event) returns (s: State)
    requires Futile(maxRetries, ev)
    ensures Exec(maxRetries, TO_ROW + [BulkAwait(3, ev)] + [MarkReenviado(3, false)]) == Some(s)
    ensures 0 in s.rows && s.rows[0].ob == OB && s.rows[0].reenviado
    ensures OB in s.obligations && OB !in s.delivered + s.purged + s.refused && !Live(s, OB)
  {
    ReachesMark(maxRetries, ev);
    s := AT_MARK.(tasks := map[], rows := map[0 := Row(OB, true, false, 0)]);
    assert AT_MARK.tasks - {3} == s.tasks && AT_MARK.rows[0 := Row(OB, true, false, 0)] == s.rows;
    ExecAppend(maxRetries, TO_ROW + [BulkAwait(3, ev)], AT_MARK, MarkReenviado(3, false), s);
  }
}

/**
 * The delivery ledger: every webhook received, the interleaved tasks that carry it, the dead-letter
 * queue and the dead-letter table, with history variables for what became of each obligation. A
 * step is one await of one task; outcomes, crashes and schedules are adversarial.
 */
module Ledger {
  import opened Common
  import opened Entities
  import opened Dispatch

  /** "Webhook number `receipt` has to reach `inbox`"; without an inbox, it has to be dead-lettered. */
  datatype Obligation = Obligation(receipt: nat, inbox: Option<InboxId>)

  datatype Row = Row(ob: Obligation, reenviado: bool, del: bool, data: int)

  datatype Task =
    | Resolving(receipt: nat)                          // handleIncoming, before its inboxes are known
    | EnqueueingUnrouted(ob: Obligation)               // handleIncoming without an inbox
    | Handling(ob: Obligation, pc: Pc)                 // an un-awaited handle of handleIncoming
    | Redispatching(row: nat, ob: Obligation, pc: Pc)  // the handle a bulk resend awaits for one row
    | Reposting(row: nat, ob: Obligation)              // a single resend, before its POST
    | Marking(row: nat, ob: Obligation)                // either resend, before markReenviado
    | Consuming(ob: Obligation)                        // the queue consumer, before its insert
    | Acking(ob: Obligation)                           // the queue consumer, before its ack

  datatype State = State(
    tasks: map<nat, Task>, nextTask: nat,
    dlq: multiset<Obligation>,
    rows: map<nat, Row>, nextRow: nat,
    registered: set<InboxId>,      // inbox rows, soft-deleted ones included: they are never removed
    nextReceipt: nat,
    // history
    obligations: set<Obligation>,
    delivered: set<Obligation>,
    purged: set<Obligation>,       // rows an operator or the 30-day cron removed
    refused: set<Obligation>,      // webhooks answered with an error, which the sender repeats
    lost: set<Obligation>)

  const INIT := State(map[], 0, multiset{}, map[], 0, {}, 0, {}, {}, {}, {}, {})

  datatype Step =
    | Register(inbox: InboxId)
    | Receive
    | Resolve(t: nat, found: seq<InboxId>)
    | SendUnrouted(t: nat)
    | Await(t: nat, ev: Event)
    | Consume(ob: Obligation)
    | Insert(t: nat, data: int)
    | InsertThrows(t: nat)
    | Ack(t: nat)
    | BulkPick(row: nat)
    | BulkAwait(t: nat, ev: Event)
    | SingleStart(row: nat)
    | SinglePost(t: nat, ok: bool)
    | MarkReenviado(t: nat, throws: bool)
    | SoftDelete(row: nat)
    | Purge(cutoff: int)
    | Vanish(t: nat)               // the process dies while this task is running

  /** The foreign key of the dead-letter table accepts the message. */
  predicate InsertAccepted(s: State, ob: Obligation)
  {
    ob.inbox.None? || ob.inbox.value in s.registered
  }

  predicate Enabled(maxRetries: int, s: State, step: Step)
  {
    match step
    case Register(_) => true
    case Receive => true
    case Resolve(t, found) =>
      t in s.tasks && s.tasks[t].Resolving? && (forall i :: i in found ==> i in s.registered)
    case SendUnrouted(t) => t in s.tasks && s.tasks[t].EnqueueingUnrouted?
    case Await(t, ev) => t in s.tasks && s.tasks[t].Handling? && Next(maxRetries, s.tasks[t].pc, ev).Some?
    case Consume(ob) => ob in s.dlq
    case Insert(t, _) => t in s.tasks && s.tasks[t].Consuming? && InsertAccepted(s, s.tasks[t].ob)
    case InsertThrows(t) => t in s.tasks && s.tasks[t].Consuming?
    case Ack(t) => t in s.tasks && s.tasks[t].Acking?
    case BulkPick(row) => row in s.rows && s.rows[row].ob.inbox.Some?
    case BulkAwait(t, ev) =>
      t in s.tasks && s.tasks[t].Redispatching? && Next(maxRetries, s.tasks[t].pc, ev).Some?
    case SingleStart(row) => row in s.rows && s.rows[row].ob.inbox.Some?
    case SinglePost(t, _) => t in s.tasks && s.tasks[t].Reposting?
    case MarkReenviado(t, _) => t in s.tasks && s.tasks[t].Marking?
    case SoftDelete(row) => row in s.rows
    case Purge(_) => true
    case Vanish(t) => t in s.tasks
  }

  function Spawn(s: State, task: Task): State
  {
    s.(tasks := s.tasks[s.nextTask := task], nextTask := s.nextTask + 1)
  }

  function Become(s: State, t: nat, task: Task): State
  {
    s.(tasks := s.tasks[t := task])
  }

  function End(s: State, t: nat): State
  {
    s.(tasks := s.tasks - {t})
  }

  /** One `handle` per resolved inbox, none of them awaited. */
  function FanOut(s: State, receipt: nat, found: seq<InboxId>): State
    decreases |found|
  {
    if found == [] then s else
    var ob := Obligation(receipt, Some(found[0]));
    FanOut(Spawn(s, Handling(ob, LookingUpInbox)).(obligations := s.obligations + {ob}), receipt, found[1..])
  }

  /** Where a finished `handle` leaves its message. */
  function Settle(s: State, ob: Obligation, fim: Fim): State
  {
    match fim
    case Delivered(_) => s.(delivered := s.delivered + {ob})
    case DeadLettered(_) => s.(dlq := s.dlq + multiset{ob})
    case Dropped(_) => s.(lost := s.lost + {ob})
  }

  function Apply(maxRetries: int, s: State, step: Step): State
    requires Enabled(maxRetries, s, step)
  {
    match step
    case Register(i) => s.(registered := s.registered + {i})
    case Receive => Spawn(s, Resolving(s.nextReceipt)).(nextReceipt := s.nextReceipt + 1)
    case Resolve(t, found) =>
      if found == [] then
        var ob := Obligation(s.tasks[t].receipt, None);
        Become(s, t, EnqueueingUnrouted(ob)).(obligations := s.obligations + {ob})
      else FanOut(End(s, t), s.tasks[t].receipt, found)
    case SendUnrouted(t) => End(s, t).(dlq := s.dlq + multiset{s.tasks[t].ob})
    case Await(t, ev) =>
      var ob, pc := s.tasks[t].ob, Next(maxRetries, s.tasks[t].pc, ev).value;
      if pc.Done? then Settle(End(s, t), ob, pc.fim) else Become(s, t, Handling(ob, pc))
    case Consume(ob) => Spawn(s, Consuming(ob)).(dlq := s.dlq - multiset{ob})
    case Insert(t, data) =>
      var ob := s.tasks[t].ob;
      Become(s, t, Acking(ob)).(rows := s.rows[s.nextRow := Row(ob, false, false, data)], nextRow := s.nextRow + 1)
    // nack without requeue, on a queue that has no dead-letter queue of its own
    case InsertThrows(t) => End(s, t).(lost := s.lost + {s.tasks[t].ob})
    case Ack(t) => End(s, t)
    case BulkPick(row) => Spawn(s, Redispatching(row, s.rows[row].ob, LookingUpInbox))
    case BulkAwait(t, ev) =>
      var row, ob, pc := s.tasks[t].row, s.tasks[t].ob, Next(maxRetries, s.tasks[t].pc, ev).value;
      if pc.Done? then Settle(Become(s, t, Marking(row, ob)), ob, pc.fim)
      else Become(s, t, Redispatching(row, ob, pc))
    case SingleStart(row) => Spawn(s, Reposting(row, s.rows[row].ob))
    case SinglePost(t, ok) =>
      var row, ob := s.tasks[t].row, s.tasks[t].ob;
      if ok then Become(s, t, Marking(row, ob)).(delivered := s.delivered + {ob}) else End(s, t)
    case MarkReenviado(t, throws) =>
      var row := s.tasks[t].row;
      if throws || row !in s.rows then End(s, t)
      else End(s, t).(rows := s.rows[row := s.rows[row].(reenviado := true)])
    case SoftDelete(row) =>
      s.(rows := s.rows[row := s.rows[row].(del := true)], purged := s.purged + {s.rows[row].ob})
    case Purge(cutoff) =>
      s.(rows := map r | r in s.rows && s.rows[r].data >= cutoff :: s.rows[r],
         purged := s.purged + set r | r in s.rows && s.rows[r].data < cutoff :: s.rows[r].ob)
    case Vanish(t) =>
      match s.tasks[t]
      case EnqueueingUnrouted(ob) => End(s, t).(refused := s.refused + {ob})
      case Handling(ob, _) => End(s, t).(lost := s.lost + {ob})
      // The broker redelivers what was not acknowledged.
      case Consuming(ob) => End(s, t).(dlq := s.dlq + multiset{ob})
      case Acking(ob) => End(s, t).(dlq := s.dlq + multiset{ob})
      // An unanswered webhook is sent again; a resend leaves its row as it was.
      case _ => End(s, t)
  }

  /** The steps that may lose a message, seen before they are made. */
  predicate Drops(maxRetries: int, s: State, step: Step)
    requires Enabled(maxRetries, s, step)
  {
    match step
    case Await(t, ev) =>
      var pc := Next(maxRetries, s.tasks[t].pc, ev).value;
      pc.Done? && pc.fim.Dropped?
    case BulkAwait(t, ev) =>
      var pc := Next(maxRetries, s.tasks[t].pc, ev).value;
      pc.Done? && pc.fim.Dropped?
    case InsertThrows(_) => true
    case Vanish(t) => s.tasks[t].Handling?
    case _ => false
  }
}

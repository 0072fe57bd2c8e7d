/**
 * The un-awaited `handle` calls of one webhook, interleaved in any order over one shared cache
 * whose entries may expire at any moment. Tables and per-call outcomes are fixed, among them whether
 * the inbox lookup, the cache read and the queue send throw. The two accesses that only some schedules
 * make, the read of the ambiente table and the fill of the cache, do not throw. Every schedule ends
 * with the same deliveries, dead letters and counters.
 */
module FanOut {
  import opened Common
  import opened Entities
  import opened Retry
  import opened Dispatch
  import opened DispatchService

  /** One call: its inbox, what its posts give, and which of its other accesses throw. */
  datatype Target = Target(inbox: InboxId, http: nat -> Attempt<Thrown>, sendThrows: bool, lookupThrows: bool, cacheThrows: bool)

  datatype Setting = Setting(
    maxRetries: int,
    inboxes: map<InboxId, Inbox>,
    ambientes: map<int, Ambiente>,
    targets: seq<Target>)

  datatype Effect =
    | Arrived(inbox: InboxId, url: string)
    | Dead(inbox: InboxId, status: StatusFalhaMensagem)
    | Counted(call: MetricCall)

  datatype System = System(pcs: seq<Pc>, cache: map<int, Ambiente>, effects: multiset<Effect>)

  datatype Move = Advance(k: nat) | Expire(id: int)

  /** What task `k` sees, given the cache as it is now. */
  function InputsOf(x: Setting, k: nat, cache: map<int, Ambiente>): Inputs
    requires k < |x.targets|
  {
    Inputs(x.inboxes, x.ambientes, cache, x.maxRetries, 0,
           Faults(x.targets[k].lookupThrows, x.targets[k].cacheThrows, false, false, x.targets[k].sendThrows), x.targets[k].http)
  }

  /** What task `k` does to the world when it goes from `pc` to `next`. */
  function Does(x: Setting, k: nat, pc: Pc, next: Pc): multiset<Effect>
    requires k < |x.targets|
  {
    var id := x.targets[k].inbox;
    match (pc, next)
    case (Posting(url, j), Done(Delivered(_))) =>
      multiset{Counted(Contar(SUCESSO, [("id_inbox", id), ("tentativa", Decimal(j))])), Arrived(id, url)}
    case (Posting(_, _), Enqueueing(s)) =>
      multiset{Counted(Contar(FALHA, [("id_inbox", id), ("status_dlq", StatusName(s))])),
               Counted(Contar(ENFILEIRAMENTO, [("status", StatusName(s))]))}
    case (_, Enqueueing(s)) => multiset{Counted(Contar(ENFILEIRAMENTO, [("status", StatusName(s))]))}
    case (Enqueueing(s), Done(DeadLettered(_))) => multiset{Dead(id, s)}
    case _ => multiset{}
  }

  predicate Possible(x: Setting, s: System, m: Move)
  {
    m.Advance? ==> (
      && m.k < |s.pcs| && m.k < |x.targets| && !s.pcs[m.k].Done?
      && Next(x.maxRetries, s.pcs[m.k], Event(x, s, m.k)).Some?)
  }

  function Event(x: Setting, s: System, k: nat): Event
    requires k < |s.pcs| && k < |x.targets| && !s.pcs[k].Done?
  {
    Answer(InputsOf(x, k, s.cache), x.targets[k].inbox, s.pcs[k]).value
  }

  function Make(x: Setting, s: System, m: Move): System
    requires Possible(x, s, m)
  {
    match m
    case Expire(id) => s.(cache := s.cache - {id})
    case Advance(k) =>
      var pc := s.pcs[k];
      var next := Next(x.maxRetries, pc, Event(x, s, k)).value;
      System(s.pcs[k := next],
             if pc.FillingCache? then s.cache[pc.ambiente.id := pc.ambiente] else s.cache,
             s.effects + Does(x, k, pc, next))
  }

  /** All tasks started, none has got past its first await; each has counted its attempt. */
  function Started(x: Setting, cache: map<int, Ambiente>): System
  {
    System(seq(|x.targets|, _ => LookingUpInbox), cache, Union(seq(|x.targets|, k requires 0 <= k < |x.targets| =>
      multiset{Counted(Contar(TENTATIVA, [("id_inbox", x.targets[k].inbox)]))})))
  }

  function Play(x: Setting, s: System, moves: seq<Move>): (r: Option<System>)
    ensures r.Some? ==> |r.value.pcs| == |s.pcs|
  {
    if moves == [] then Some(s) else
    var before := Play(x, s, moves[..|moves| - 1]);
    var m := moves[|moves| - 1];
    if before.Some? && Possible(x, before.value, m) then Some(Make(x, before.value, m)) else None
  }

  // --- Sums of effects ------------------------------------------------------------------------

  function Union<T>(parts: seq<multiset<T>>): multiset<T>
  {
    if parts == [] then multiset{} else parts[0] + Union(parts[1..])
  }

  lemma {:induction false} UnionUpdate<T>(parts: seq<multiset<T>>, k: nat, part: multiset<T>)
    requires k < |parts|
    ensures Union(parts[k := part]) + parts[k] == Union(parts) + part
  {
    if k == 0 {
      assert parts[0 := part][1..] == parts[1..];
      assert Union(parts[0 := part]) == part + Union(parts[1..]);
    } else {
      assert parts[k := part][1..] == parts[1..][k - 1 := part];
      UnionUpdate(parts[1..], k - 1, part);
      var u := Union(parts[1..][k - 1 := part]);
      assert parts[k := part][0] == parts[0];
      assert (parts[0] + u) + parts[k] == parts[0] + (u + parts[k]);
      assert (parts[0] + Union(parts[1..])) + part == parts[0] + (Union(parts[1..]) + part);
    }
  }

  // --- What a task has done by the time it is at `pc` -----------------------------------------

  /** The counters of one call, all of which it has raised when it enqueues or ends. */
  function Counters(i: Inputs, id: InboxId): multiset<Effect>
  {
    multiset{Counted(Contar(TENTATIVA, [("id_inbox", id)]))} +
    match Resolve(i, id)
    case ReadThrew => multiset{}
    case Unusable(s) => multiset{Counted(Contar(ENFILEIRAMENTO, [("status", StatusName(s))]))}
    case UseAmbiente(_) =>
      if i.maxRetries < 1 then multiset{} else
      var j := FirstSuccess(i.http, 1, i.maxRetries);
      if j <= i.maxRetries then multiset{Counted(Contar(SUCESSO, [("id_inbox", id), ("tentativa", Decimal(j))]))}
      else
        var s := Classify(i.http(i.maxRetries).error);
        multiset{Counted(Contar(FALHA, [("id_inbox", id), ("status_dlq", StatusName(s))])),
                 Counted(Contar(ENFILEIRAMENTO, [("status", StatusName(s))]))}
  }

  function CountedIn(calls: seq<MetricCall>): multiset<Effect>
  {
    if calls == [] then multiset{} else
    (if calls[0].Contar? then multiset{Counted(calls[0])} else multiset{}) + CountedIn(calls[1..])
  }

  lemma CountedFirst(call: MetricCall, rest: seq<MetricCall>)
    ensures CountedIn([call] + rest) == (if call.Contar? then multiset{Counted(call)} else multiset{}) + CountedIn(rest)
  {
    assert ([call] + rest)[1..] == rest;
  }

  lemma CountedPair(count: MetricCall, time: MetricCall, rest: seq<MetricCall>)
    requires count.Contar? && !time.Contar?
    ensures CountedIn([count] + ([time] + rest)) == multiset{Counted(count)} + CountedIn(rest)
  {
    CountedFirst(count, [time] + rest);
    CountedFirst(time, rest);
  }

  /** They are the counters that the method `Handle` raises. */
  lemma CountersAreTheCallsOfHandle(i: Inputs, id: InboxId, elapsed: int)
    ensures Counters(i, id) == CountedIn(CallsOf(i, id, elapsed))
  {
    var calls := CallsOf(i, id, elapsed);
    CountedFirst(calls[0], calls[1..]);
    assert calls == [calls[0]] + calls[1..];
    match Resolve(i, id)
    case ReadThrew => assert calls[1..] == [];
    case Unusable(s) =>
      var enq := Contar(ENFILEIRAMENTO, [("status", StatusName(s))]);
      assert calls[1..] == [enq] + [];
      CountedFirst(enq, []);
    case UseAmbiente(_) =>
      assert calls[1..] == LoopCalls(i.maxRetries, i.http, id, elapsed);
      LoopCounters(i, id, elapsed);
  }

  lemma LoopCounters(i: Inputs, id: InboxId, elapsed: int)
    ensures CountedIn(LoopCalls(i.maxRetries, i.http, id, elapsed)) ==
      if i.maxRetries < 1 then multiset{} else
      var j := FirstSuccess(i.http, 1, i.maxRetries);
      if j <= i.maxRetries then multiset{Counted(Contar(SUCESSO, [("id_inbox", id), ("tentativa", Decimal(j))]))}
      else
        var s := Classify(i.http(i.maxRetries).error);
        multiset{Counted(Contar(FALHA, [("id_inbox", id), ("status_dlq", StatusName(s))])),
                 Counted(Contar(ENFILEIRAMENTO, [("status", StatusName(s))]))}
  {
    if i.maxRetries >= 1 {
      var calls := LoopCalls(i.maxRetries, i.http, id, elapsed);
      assert calls[1] == RegistrarDuracao(DURACAO, elapsed, [("id_inbox", id)]);
      if FirstSuccess(i.http, 1, i.maxRetries) <= i.maxRetries {
        assert calls == [calls[0]] + ([calls[1]] + []);
        CountedPair(calls[0], calls[1], []);
      } else {
        assert calls == [calls[0]] + ([calls[1]] + ([calls[2]] + []));
        CountedPair(calls[0], calls[1], [calls[2]] + []);
        CountedFirst(calls[2], []);
      }
    }
  }

  /** Task `k` seen alone, on an empty cache. */
  function Alone(x: Setting, k: nat): Inputs
    requires k < |x.targets|
  {
    InputsOf(x, k, map[])
  }

  function SoFar(x: Setting, k: nat, pc: Pc): multiset<Effect>
    requires k < |x.targets|
  {
    var id := x.targets[k].inbox;
    (if pc.Enqueueing? || pc.Done? then Counters(Alone(x, k), id)
     else multiset{Counted(Contar(TENTATIVA, [("id_inbox", id)]))}) +
    match pc
    case Done(Delivered(_)) =>
      if Resolve(Alone(x, k), id).UseAmbiente? then multiset{Arrived(id, Resolve(Alone(x, k), id).ambiente.url)}
      else multiset{}
    case Done(DeadLettered(s)) => multiset{Dead(id, s)}
    case _ => multiset{}
  }

  function Parts(x: Setting, pcs: seq<Pc>): seq<multiset<Effect>>
    requires |pcs| == |x.targets|
  {
    seq(|pcs|, k requires 0 <= k < |pcs| => SoFar(x, k, pcs[k]))
  }

  // --- The invariant --------------------------------------------------------------------------

  ghost predicate WellFormed(x: Setting)
  {
    forall id :: id in x.ambientes ==> x.ambientes[id].id == id
  }

  ghost predicate Coherent(x: Setting, cache: map<int, Ambiente>)
  {
    forall id :: id in cache ==> FindAmbiente(x.ambientes, id) == Some(cache[id])
  }

  /** Task `k` is on its way to the outcome it would have alone. */
  ghost predicate OnTrack(x: Setting, k: nat, pc: Pc)
    requires k < |x.targets|
  {
    var i, id := Alone(x, k), x.targets[k].inbox;
    match pc
    case LookingUpInbox => true
    case ReadingCache(amb) => !i.faults.lookup && FindInbox(x.inboxes, id).Some? && FindInbox(x.inboxes, id).value.idAmbiente == amb
    case ReadingTable(amb) => !i.faults.lookup && !i.faults.cacheRead && FindInbox(x.inboxes, id).Some? && FindInbox(x.inboxes, id).value.idAmbiente == amb
    case FillingCache(a) => FindAmbiente(x.ambientes, a.id) == Some(a) && Resolve(i, id) == UseAmbiente(a)
    case Posting(url, j) => InLoop(x, k, url, j)
    case Sleeping(url, j) => InLoop(x, k, url, j + 1)
    case Enqueueing(s) =>
      || Resolve(i, id) == Unusable(s)
      || (&& Resolve(i, id).UseAmbiente? && x.maxRetries >= 1
          && FirstSuccess(i.http, 1, x.maxRetries) == x.maxRetries + 1
          && s == Classify(i.http(x.maxRetries).error))
    case Done(fim) => fim == Outcome(i, id)
  }

  /** Attempt `j` is the next one of the loop on `url`: none has succeeded yet. */
  ghost predicate InLoop(x: Setting, k: nat, url: string, j: nat)
    requires k < |x.targets|
  {
    var i := Alone(x, k);
    var r := Resolve(i, x.targets[k].inbox);
    && r.UseAmbiente? && r.ambiente.url == url
    && 1 <= j <= x.maxRetries
    && FirstSuccess(i.http, 1, x.maxRetries) == FirstSuccess(i.http, j, x.maxRetries)
  }

  ghost predicate AllOnTrack(x: Setting, pcs: seq<Pc>)
    requires |pcs| == |x.targets|
  {
    forall k :: 0 <= k < |pcs| ==> OnTrack(x, k, pcs[k])
  }

  ghost predicate Inv(x: Setting, s: System)
  {
    && |s.pcs| == |x.targets|
    && Coherent(x, s.cache)
    && AllOnTrack(x, s.pcs)
    && s.effects == Union(Parts(x, s.pcs))
  }

  /** One await keeps the task on track and adds exactly what it owes by then. */
  ghost predicate GoodAdvance(x: Setting, k: nat, pc: Pc, ev: Event)
    requires k < |x.targets|
  {
    var next := Next(x.maxRetries, pc, ev);
    && next.Some?
    && OnTrack(x, k, next.value)
    && SoFar(x, k, next.value) == SoFar(x, k, pc) + Does(x, k, pc, next.value)
  }

  /** Before the call queues or ends it owes its first counter only. */
  lemma SilentAdvance(x: Setting, k: nat, pc: Pc, next: Pc)
    requires k < |x.targets| && !pc.Enqueueing? && !pc.Done? && !next.Enqueueing? && !next.Done?
    ensures SoFar(x, k, next) == SoFar(x, k, pc) + Does(x, k, pc, next)
  {
  }

  lemma QueueAdvance(x: Setting, k: nat, pc: Pc, status: StatusFalhaMensagem)
    requires k < |x.targets| && !pc.Posting? && !pc.Enqueueing? && !pc.Done?
    requires Resolve(Alone(x, k), x.targets[k].inbox) == Unusable(status)
    ensures SoFar(x, k, Enqueueing(status)) == SoFar(x, k, pc) + Does(x, k, pc, Enqueueing(status))
  {
  }

  lemma ThrowAdvance(x: Setting, k: nat, pc: Pc)
    requires k < |x.targets| && (pc.LookingUpInbox? || pc.ReadingCache?)
    requires Resolve(Alone(x, k), x.targets[k].inbox).ReadThrew?
    ensures var next := Done(Dropped(Exception)); OnTrack(x, k, next) && SoFar(x, k, next) == SoFar(x, k, pc) + Does(x, k, pc, next)
  {
  }

  lemma LoopAdvance(x: Setting, k: nat, pc: Pc, a: Ambiente)
    requires k < |x.targets| && (pc.ReadingCache? || pc.FillingCache?)
    requires Resolve(Alone(x, k), x.targets[k].inbox) == UseAmbiente(a) && !a.del
    ensures OnTrack(x, k, WithAmbiente(x.maxRetries, a))
    ensures var next := WithAmbiente(x.maxRetries, a); SoFar(x, k, next) == SoFar(x, k, pc) + Does(x, k, pc, next)
  {
    if x.maxRetries >= 1 {
      SilentAdvance(x, k, pc, Posting(a.url, 1));
    }
  }

  lemma InboxAdvance(x: Setting, k: nat, pc: Pc, cache: map<int, Ambiente>)
    requires WellFormed(x) && k < |x.targets| && Coherent(x, cache) && OnTrack(x, k, pc) && pc.LookingUpInbox?
    ensures GoodAdvance(x, k, pc, Answer(InputsOf(x, k, cache), x.targets[k].inbox, pc).value)
  {
    var found := FindInbox(x.inboxes, x.targets[k].inbox);
    var ev := Answer(InputsOf(x, k, cache), x.targets[k].inbox, pc).value;
    if x.targets[k].lookupThrows {
      assert ev == Threw;
      ThrowAdvance(x, k, pc);
    } else if found.None? {
      assert ev == InboxMissing;
      QueueAdvance(x, k, pc, NACK_RECEBIDO);
    } else {
      assert ev == InboxFound(found.value.idAmbiente);
      SilentAdvance(x, k, pc, ReadingCache(found.value.idAmbiente));
    }
  }

  lemma CacheAdvance(x: Setting, k: nat, pc: Pc, cache: map<int, Ambiente>)
    requires WellFormed(x) && k < |x.targets| && Coherent(x, cache) && OnTrack(x, k, pc) && pc.ReadingCache?
    ensures GoodAdvance(x, k, pc, Answer(InputsOf(x, k, cache), x.targets[k].inbox, pc).value)
  {
    if x.targets[k].cacheThrows {
      ThrowAdvance(x, k, pc);
    } else if pc.idAmbiente in cache {
      LoopAdvance(x, k, pc, cache[pc.idAmbiente]);
    } else {
      SilentAdvance(x, k, pc, ReadingTable(pc.idAmbiente));
    }
  }

  lemma TableAdvance(x: Setting, k: nat, pc: Pc, cache: map<int, Ambiente>)
    requires WellFormed(x) && k < |x.targets| && Coherent(x, cache) && OnTrack(x, k, pc) && pc.ReadingTable?
    ensures GoodAdvance(x, k, pc, Answer(InputsOf(x, k, cache), x.targets[k].inbox, pc).value)
  {
    var found := FindAmbiente(x.ambientes, pc.idAmbiente);
    if found.None? {
      QueueAdvance(x, k, pc, AMBIENTE_INDISPONIVEL);
    } else {
      SilentAdvance(x, k, pc, FillingCache(found.value));
    }
  }

  lemma FillAdvance(x: Setting, k: nat, pc: Pc, cache: map<int, Ambiente>)
    requires WellFormed(x) && k < |x.targets| && Coherent(x, cache) && OnTrack(x, k, pc) && pc.FillingCache?
    ensures GoodAdvance(x, k, pc, Answer(InputsOf(x, k, cache), x.targets[k].inbox, pc).value)
  {
    LoopAdvance(x, k, pc, pc.ambiente);
  }

  lemma PostDelivers(x: Setting, k: nat, pc: Pc)
    requires k < |x.targets| && OnTrack(x, k, pc) && pc.Posting?
    requires Alone(x, k).http(pc.attempt).Succeeds?
    ensures GoodAdvance(x, k, pc, PostSucceeded)
  {
  }

  lemma PostFailsAgain(x: Setting, k: nat, pc: Pc)
    requires k < |x.targets| && OnTrack(x, k, pc) && pc.Posting?
    requires Alone(x, k).http(pc.attempt).Fails? && pc.attempt < x.maxRetries
    ensures GoodAdvance(x, k, pc, PostFailed(Alone(x, k).http(pc.attempt).error))
  {
  }

  lemma PostFailsForGood(x: Setting, k: nat, pc: Pc)
    requires k < |x.targets| && OnTrack(x, k, pc) && pc.Posting?
    requires Alone(x, k).http(pc.attempt).Fails? && pc.attempt == x.maxRetries
    ensures GoodAdvance(x, k, pc, PostFailed(Alone(x, k).http(pc.attempt).error))
  {
  }

  lemma PostAdvance(x: Setting, k: nat, pc: Pc, cache: map<int, Ambiente>)
    requires WellFormed(x) && k < |x.targets| && Coherent(x, cache) && OnTrack(x, k, pc) && pc.Posting?
    ensures GoodAdvance(x, k, pc, Answer(InputsOf(x, k, cache), x.targets[k].inbox, pc).value)
  {
    if Alone(x, k).http(pc.attempt).Succeeds? {
      PostDelivers(x, k, pc);
    } else if pc.attempt < x.maxRetries {
      PostFailsAgain(x, k, pc);
    } else {
      PostFailsForGood(x, k, pc);
    }
  }

  lemma SleepAdvance(x: Setting, k: nat, pc: Pc, cache: map<int, Ambiente>)
    requires WellFormed(x) && k < |x.targets| && Coherent(x, cache) && OnTrack(x, k, pc) && pc.Sleeping?
    ensures GoodAdvance(x, k, pc, Answer(InputsOf(x, k, cache), x.targets[k].inbox, pc).value)
  {
  }

  lemma EnqueueAdvance(x: Setting, k: nat, pc: Pc, cache: map<int, Ambiente>)
    requires WellFormed(x) && k < |x.targets| && Coherent(x, cache) && OnTrack(x, k, pc) && pc.Enqueueing?
    ensures GoodAdvance(x, k, pc, Answer(InputsOf(x, k, cache), x.targets[k].inbox, pc).value)
  {
    EnqueueOutcome(x, k, pc.status);
  }

  lemma EnqueueOutcome(x: Setting, k: nat, status: StatusFalhaMensagem)
    requires k < |x.targets| && OnTrack(x, k, Enqueueing(status))
    ensures Outcome(Alone(x, k), x.targets[k].inbox) == Enqueue(Alone(x, k), status)
  {
  }

  lemma AdvanceKeeps(x: Setting, k: nat, pc: Pc, cache: map<int, Ambiente>)
    requires WellFormed(x) && k < |x.targets| && Coherent(x, cache) && OnTrack(x, k, pc) && !pc.Done?
    ensures GoodAdvance(x, k, pc, Answer(InputsOf(x, k, cache), x.targets[k].inbox, pc).value)
  {
    match pc
    case LookingUpInbox => InboxAdvance(x, k, pc, cache);
    case ReadingCache(_) => CacheAdvance(x, k, pc, cache);
    case ReadingTable(_) => TableAdvance(x, k, pc, cache);
    case FillingCache(_) => FillAdvance(x, k, pc, cache);
    case Posting(_, _) => PostAdvance(x, k, pc, cache);
    case Sleeping(_, _) => SleepAdvance(x, k, pc, cache);
    case Enqueueing(_) => EnqueueAdvance(x, k, pc, cache);
  }

  lemma EffectsAdvance(x: Setting, pcs: seq<Pc>, k: nat, next: Pc, more: multiset<Effect>)
    requires k < |pcs| == |x.targets|
    requires SoFar(x, k, next) == SoFar(x, k, pcs[k]) + more
    ensures Union(Parts(x, pcs[k := next])) == Union(Parts(x, pcs)) + more
  {
    var parts := Parts(x, pcs);
    assert Parts(x, pcs[k := next]) == parts[k := SoFar(x, k, next)];
    UnionUpdate(parts, k, SoFar(x, k, next));
    AddBack(Union(parts[k := SoFar(x, k, next)]), SoFar(x, k, pcs[k]), Union(parts), more);
  }

  lemma MoveKeepsInv(x: Setting, s: System, m: Move)
    requires WellFormed(x) && Inv(x, s) && Possible(x, s, m)
    ensures Inv(x, Make(x, s, m))
  {
    if m.Advance? {
      var k, pc := m.k, s.pcs[m.k];
      assert OnTrack(x, k, pc);
      AdvanceKeeps(x, k, pc, s.cache);
      var next := Next(x.maxRetries, pc, Event(x, s, k)).value;
      EffectsAdvance(x, s.pcs, k, next, Does(x, k, pc, next));
    }
  }

  lemma AddBack<T>(u: multiset<T>, part: multiset<T>, v: multiset<T>, more: multiset<T>)
    requires u + part == v + (part + more)
    ensures u == v + more
  {
    forall e ensures u[e] == (v + more)[e] {
      assert (u + part)[e] == (v + (part + more))[e];
    }
  }

  lemma StartedInv(x: Setting, cache: map<int, Ambiente>)
    requires Coherent(x, cache)
    ensures Inv(x, Started(x, cache))
  {
    var s := Started(x, cache);
    forall k | 0 <= k < |x.targets|
      ensures SoFar(x, k, LookingUpInbox) == multiset{Counted(Contar(TENTATIVA, [("id_inbox", x.targets[k].inbox)]))}
    {
    }
    assert Parts(x, s.pcs) == seq(|x.targets|, k requires 0 <= k < |x.targets| =>
      multiset{Counted(Contar(TENTATIVA, [("id_inbox", x.targets[k].inbox)]))});
  }

  lemma {:induction false} PlayInv(x: Setting, cache: map<int, Ambiente>, moves: seq<Move>)
    requires WellFormed(x) && Coherent(x, cache) && Play(x, Started(x, cache), moves).Some?
    ensures Inv(x, Play(x, Started(x, cache), moves).value)
  {
    if moves == [] {
      StartedInv(x, cache);
    } else {
      PlayInv(x, cache, moves[..|moves| - 1]);
      MoveKeepsInv(x, Play(x, Started(x, cache), moves[..|moves| - 1]).value, moves[|moves| - 1]);
    }
  }

  // --- The results ----------------------------------------------------------------------------

  /** Every task ends as it would alone. */
  function Ends(x: Setting): seq<Pc>
  {
    seq(|x.targets|, k requires 0 <= k < |x.targets| => Done(Outcome(Alone(x, k), x.targets[k].inbox)))
  }

  ghost predicate Finished(s: System)
  {
    forall k :: 0 <= k < |s.pcs| ==> s.pcs[k].Done?
  }

  /**
   * Confluence: any complete schedule, from any coherent cache, ends each task as it would end
   * alone and adds up to the effects of running the tasks one after another.
   */
  lemma Confluence(x: Setting, cache: map<int, Ambiente>, moves: seq<Move>)
    requires WellFormed(x) && Coherent(x, cache)
    requires Play(x, Started(x, cache), moves).Some? && Finished(Play(x, Started(x, cache), moves).value)
    ensures Play(x, Started(x, cache), moves).value.pcs == Ends(x)
    ensures Play(x, Started(x, cache), moves).value.effects == Union(Parts(x, Ends(x)))
  {
    PlayInv(x, cache, moves);
    var s := Play(x, Started(x, cache), moves).value;
    forall k | 0 <= k < |s.pcs| ensures s.pcs[k] == Ends(x)[k] {
      assert OnTrack(x, k, s.pcs[k]);
    }
  }

  /** No task ever waits for another: whatever the others do, a task that has not ended can go on. */
  lemma NeverStuck(x: Setting, cache: map<int, Ambiente>, moves: seq<Move>, k: nat)
    requires WellFormed(x) && Coherent(x, cache) && Play(x, Started(x, cache), moves).Some?
    requires k < |x.targets|
    ensures var s := Play(x, Started(x, cache), moves).value;
      k < |s.pcs| && (s.pcs[k].Done? || Possible(x, s, Advance(k)))
  {
    PlayInv(x, cache, moves);
    var s := Play(x, Started(x, cache), moves).value;
    assert OnTrack(x, k, s.pcs[k]);
    if !s.pcs[k].Done? {
      AdvanceKeeps(x, k, s.pcs[k], s.cache);
    }
  }

  /** What a move adds to what task `k` has done. */
  function MoveOf(x: Setting, s: System, m: Move, k: nat): multiset<Effect>
    requires k < |x.targets| && Possible(x, s, m)
  {
    if m == Advance(k) then Does(x, k, s.pcs[k], Next(x.maxRetries, s.pcs[k], Event(x, s, k)).value) else multiset{}
  }

  /** What task `k` has done in a play: its attempt is counted at the start, the rest as it advances. */
  function Contributed(x: Setting, cache: map<int, Ambiente>, moves: seq<Move>, k: nat): multiset<Effect>
    requires k < |x.targets| && Play(x, Started(x, cache), moves).Some?
  {
    if moves == [] then multiset{Counted(Contar(TENTATIVA, [("id_inbox", x.targets[k].inbox)]))} else
    var init := moves[..|moves| - 1];
    Contributed(x, cache, init, k) + MoveOf(x, Play(x, Started(x, cache), init).value, moves[|moves| - 1], k)
  }

  lemma SoFarNext(x: Setting, s: System, m: Move, k: nat)
    requires WellFormed(x) && Inv(x, s) && Possible(x, s, m) && k < |x.targets|
    ensures |Make(x, s, m).pcs| == |x.targets|
    ensures SoFar(x, k, Make(x, s, m).pcs[k]) == SoFar(x, k, s.pcs[k]) + MoveOf(x, s, m, k)
  {
    if m == Advance(k) {
      assert OnTrack(x, k, s.pcs[k]);
      AdvanceKeeps(x, k, s.pcs[k], s.cache);
    } else {
      assert Make(x, s, m).pcs[k] == s.pcs[k];
    }
  }

  lemma {:induction false} ContributedSoFar(x: Setting, cache: map<int, Ambiente>, moves: seq<Move>, k: nat)
    requires WellFormed(x) && Coherent(x, cache) && k < |x.targets| && Play(x, Started(x, cache), moves).Some?
    ensures Contributed(x, cache, moves, k) == SoFar(x, k, Play(x, Started(x, cache), moves).value.pcs[k])
  {
    if moves != [] {
      var init := moves[..|moves| - 1];
      ContributedSoFar(x, cache, init, k);
      PlayInv(x, cache, init);
      SoFarNext(x, Play(x, Started(x, cache), init).value, moves[|moves| - 1], k);
    }
  }

  /** What a whole call does: its counters, and its one delivery or dead letter. */
  ghost predicate Leaves(i: Inputs, id: InboxId, effects: multiset<Effect>)
  {
    match Outcome(i, id)
    case Delivered(_) => exists a :: Serves(i, id, a) && effects == Counters(i, id) + multiset{Arrived(id, a.url)}
    case DeadLettered(s) => effects == Counters(i, id) + multiset{Dead(id, s)}
    case Dropped(_) => effects == Counters(i, id)
  }

  lemma LeavesSoFar(x: Setting, k: nat)
    requires k < |x.targets|
    ensures Leaves(Alone(x, k), x.targets[k].inbox, SoFar(x, k, Done(Outcome(Alone(x, k), x.targets[k].inbox))))
  {
    var i, id := Alone(x, k), x.targets[k].inbox;
    if Resolve(i, id).UseAmbiente? {
      ServesExactly(i, id, Resolve(i, id).ambiente);
    }
  }

  /** However a task was scheduled, once it has ended it has ended and contributed as if alone. */
  lemma EndsAsAlone(x: Setting, cache: map<int, Ambiente>, moves: seq<Move>, k: nat)
    requires WellFormed(x) && Coherent(x, cache) && k < |x.targets| && Play(x, Started(x, cache), moves).Some?
    requires Play(x, Started(x, cache), moves).value.pcs[k].Done?
    ensures Play(x, Started(x, cache), moves).value.pcs[k] == Done(Outcome(Alone(x, k), x.targets[k].inbox))
    ensures Contributed(x, cache, moves, k) == SoFar(x, k, Done(Outcome(Alone(x, k), x.targets[k].inbox)))
    ensures var t := x.targets[k];
      var i := Inputs(x.inboxes, x.ambientes, map[], x.maxRetries, 0,
                      Faults(t.lookupThrows, t.cacheThrows, false, false, t.sendThrows), t.http);
      && Play(x, Started(x, cache), moves).value.pcs[k] == Done(Outcome(i, t.inbox))
      && Leaves(i, t.inbox, Contributed(x, cache, moves, k))
  {
    LeavesSoFar(x, k);
    PlayInv(x, cache, moves);
    ContributedSoFar(x, cache, moves, k);
    assert OnTrack(x, k, Play(x, Started(x, cache), moves).value.pcs[k]);
  }

  /**
   * Isolation: in any two plays that have ended task `k`, with other targets, another schedule and
   * another coherent cache at the start, the task has ended and contributed the same.
   */
  lemma Isolation(x: Setting, y: Setting, cx: map<int, Ambiente>, cy: map<int, Ambiente>, mx: seq<Move>, my: seq<Move>, k: nat)
    requires x.(targets := []) == y.(targets := []) && WellFormed(x) && Coherent(x, cx) && Coherent(y, cy)
    requires k < |x.targets| && k < |y.targets| && x.targets[k] == y.targets[k]
    requires Play(x, Started(x, cx), mx).Some? && Play(y, Started(y, cy), my).Some?
    requires Play(x, Started(x, cx), mx).value.pcs[k].Done? && Play(y, Started(y, cy), my).value.pcs[k].Done?
    ensures Play(x, Started(x, cx), mx).value.pcs[k] == Play(y, Started(y, cy), my).value.pcs[k]
    ensures Contributed(x, cx, mx, k) == Contributed(y, cy, my, k)
  {
    assert WellFormed(y);
    EndsAsAlone(x, cx, mx, k);
    EndsAsAlone(y, cy, my, k);
    assert Alone(x, k) == Alone(y, k);
  }
}

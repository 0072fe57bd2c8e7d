/** `DispatchHandlerService` as an object: `handle` and its cache-aside `getAmbiente`. */
module DispatchService {
  import opened Common
  import opened Json
  import opened Entities
  import opened Retry
  import opened Dispatch

  /** The calls of the attempt loop on the metrics service. */
  function LoopCalls(maxRetries: int, http: nat -> Attempt<Thrown>, inboxId: InboxId, elapsed: int): seq<MetricCall>
  {
    if maxRetries < 1 then [] else
    var k := FirstSuccess(http, 1, maxRetries);
    if k <= maxRetries then
      [Contar(SUCESSO, [("id_inbox", inboxId), ("tentativa", Decimal(k))]),
       RegistrarDuracao(DURACAO, elapsed, [("id_inbox", inboxId)])]
    else
      var status := StatusName(Classify(http(maxRetries).error));
      [Contar(FALHA, [("id_inbox", inboxId), ("status_dlq", status)]),
       RegistrarDuracao(DURACAO, elapsed, [("id_inbox", inboxId)]),
       Contar(ENFILEIRAMENTO, [("status", status)])]
  }

  /** Every call `handle` makes on the metrics service, in order. */
  function CallsOf(i: Inputs, inboxId: InboxId, elapsed: int): seq<MetricCall>
  {
    [Contar(TENTATIVA, [("id_inbox", inboxId)])] +
    match Resolve(i, inboxId)
    case ReadThrew => []
    case Unusable(status) => [Contar(ENFILEIRAMENTO, [("status", StatusName(status))])]
    case UseAmbiente(_) => LoopCalls(i.maxRetries, i.http, inboxId, elapsed)
  }

  /** The cache after a call: whatever `getAmbiente` returned is in it. */
  function CacheAfter(i: Inputs, inboxId: InboxId): map<int, Ambiente>
  {
    var inbox := FindInbox(i.inboxes, inboxId);
    if i.faults.lookup || inbox.None? then i.cache else
    match GetAmbiente(i, inbox.value.idAmbiente)
    case FetchedOk(Some(a)) => i.cache[inbox.value.idAmbiente := a]
    case _ => i.cache
  }

  class DispatchHandler {
    var inboxes: map<InboxId, Inbox>
    var ambientes: map<int, Ambiente>
    var cache: map<int, Ambiente>
    var posts: seq<(string, Json)>
    var sleeps: seq<int>
    var dlq: seq<DlqMessage>
    var calls: seq<MetricCall>
    var redirected: seq<Json>

    ghost function In(maxRetries: int, baseMs: int, faults: Faults, http: nat -> Attempt<Thrown>): Inputs
      reads this
    {
      Inputs(inboxes, ambientes, cache, maxRetries, baseMs, faults, http)
    }

    method GetAmbienteCached(id: int, faults: Faults, ghost i: Inputs) returns (r: Fetched)
      requires i == In(i.maxRetries, i.baseMs, faults, i.http)
      modifies `cache
      ensures r == GetAmbiente(i, id)
      ensures cache == old(cache) + if r.FetchedOk? && r.ambiente.Some? then map[id := r.ambiente.value] else map[]
    {
      if faults.cacheRead {
        return FetchThrew;
      }
      if id in cache {
        return FetchedOk(Some(cache[id]));
      }
      if faults.tableRead {
        return FetchThrew;
      }
      var found := FindAmbiente(ambientes, id);
      if found.Some? {
        if faults.cacheFill {
          return FetchThrew;
        }
        cache := cache[id := found.value];
      }
      return FetchedOk(found);
    }

    method EnviarParaDlq(message: DlqMessage, faults: Faults) returns (fim: Fim)
      modifies `dlq, `calls
      ensures calls == old(calls) + [Contar(ENFILEIRAMENTO, [("status", StatusName(message.status))])]
      ensures fim == if faults.send then Dropped(Exception) else DeadLettered(message.status)
      ensures dlq == old(dlq) + if faults.send then [] else [message]
    {
      calls := calls + [Contar(ENFILEIRAMENTO, [("status", StatusName(message.status))])];
      if faults.send {
        return Dropped(Exception);
      }
      dlq := dlq + [message];
      return DeadLettered(message.status);
    }

    /** The reads of `handle`, up to the ambiente to post to. */
    method ResolveAmbiente(inboxId: InboxId, faults: Faults, ghost i: Inputs) returns (r: Resolution)
      requires i == In(i.maxRetries, i.baseMs, faults, i.http)
      modifies `cache
      ensures r == Resolve(i, inboxId)
      ensures cache == CacheAfter(i, inboxId)
    {
      if faults.lookup {
        return ReadThrew;
      }
      var inbox := FindInbox(inboxes, inboxId);
      if inbox.None? {
        return Unusable(NACK_RECEBIDO);
      }
      var fetched := GetAmbienteCached(inbox.value.idAmbiente, faults, i);
      if fetched.FetchThrew? {
        return ReadThrew;
      }
      if fetched.ambiente.None? || fetched.ambiente.value.del {
        return Unusable(AMBIENTE_INDISPONIVEL);
      }
      return UseAmbiente(fetched.ambiente.value);
    }

    /**
     * The message ends as `Outcome` says; at most one dead letter is added, for this inbox and
     * with the payload as it came; and the posts obey the retry specification.
     */
    method Handle(inboxId: InboxId, payload: Json, maxRetries: int, baseMs: int, faults: Faults,
                  http: nat -> Attempt<Thrown>, elapsed: int)
      returns (fim: Fim, ghost t: Trace)
      modifies this
      ensures fim == Outcome(old(In(maxRetries, baseMs, faults, http)), inboxId)
      ensures dlq == old(dlq) + if fim.DeadLettered? then [DlqMessage(payload, Some(inboxId), fim.status)] else []
      ensures inboxes == old(inboxes) && ambientes == old(ambientes)
      ensures cache == CacheAfter(old(In(maxRetries, baseMs, faults, http)), inboxId)
      ensures redirected == old(redirected) + [payload]
      ensures calls == old(calls) + CallsOf(old(In(maxRetries, baseMs, faults, http)), inboxId, elapsed)
      ensures t.delivered == fim.Delivered?
      ensures sleeps == old(sleeps) + t.sleeps
      ensures match Resolve(old(In(maxRetries, baseMs, faults, http)), inboxId)
        case UseAmbiente(a) => RetrySpec(http, maxRetries, baseMs, t) && posts == old(posts) + Times((a.url, payload), t.posts)
        case _ => t == Trace(0, [], false) && posts == old(posts)
      ensures forall a :: Serves(old(In(maxRetries, baseMs, faults, http)), inboxId, a) ==>
        RetrySpec(http, maxRetries, baseMs, t) && posts == old(posts) + Times((a.url, payload), t.posts)
      ensures (forall a :: !Serves(old(In(maxRetries, baseMs, faults, http)), inboxId, a)) ==> posts == old(posts)
      ensures !faults.lookup && (inboxId !in old(inboxes) || old(inboxes)[inboxId].del) ==>
        posts == old(posts) && fim == if faults.send then Dropped(Exception) else DeadLettered(NACK_RECEBIDO)
    {
      ghost var i := In(maxRetries, baseMs, faults, http);
      forall a ensures Resolve(i, inboxId) == UseAmbiente(a) <==> Serves(i, inboxId, a) {
        ServesExactly(i, inboxId, a);
      }
      calls := calls + [Contar(TENTATIVA, [("id_inbox", inboxId)])];
      redirected := redirected + [payload];
      var r := ResolveAmbiente(inboxId, faults, i);
      fim, t := Attend(r, inboxId, payload, maxRetries, baseMs, faults, http, elapsed, i);
    }

    /** What `handle` does once it knows the ambiente, or knows that there is none. */
    method Attend(r: Resolution, inboxId: InboxId, payload: Json, maxRetries: int, baseMs: int, faults: Faults,
                  http: nat -> Attempt<Thrown>, elapsed: int, ghost i: Inputs)
      returns (fim: Fim, ghost t: Trace)
      requires r == Resolve(i, inboxId)
      requires i.maxRetries == maxRetries && i.baseMs == baseMs && i.faults == faults && i.http == http
      modifies `posts, `sleeps, `calls, `dlq
      ensures fim == Outcome(i, inboxId) && t.delivered == fim.Delivered?
      ensures dlq == old(dlq) + if fim.DeadLettered? then [DlqMessage(payload, Some(inboxId), fim.status)] else []
      ensures old(calls) <= calls
      ensures [Contar(TENTATIVA, [("id_inbox", inboxId)])] + calls[|old(calls)|..] == CallsOf(i, inboxId, elapsed)
      ensures sleeps == old(sleeps) + t.sleeps
      ensures match r
        case UseAmbiente(a) => RetrySpec(http, maxRetries, baseMs, t) && posts == old(posts) + Times((a.url, payload), t.posts)
        case _ => t == Trace(0, [], false) && posts == old(posts)
    {
      match r {
        case ReadThrew =>
          fim, t := Dropped(Exception), Trace(0, [], false);
        case Unusable(status) =>
          fim := EnviarParaDlq(DlqMessage(payload, Some(inboxId), status), faults);
          t := Trace(0, [], false);
        case UseAmbiente(a) =>
          fim, t := PostUntilDelivered(inboxId, payload, a.url, maxRetries, baseMs, faults, http, elapsed);
      }
    }

    /** The attempt loop of `handle`. */
    method PostUntilDelivered(inboxId: InboxId, payload: Json, url: string, maxRetries: int, baseMs: int,
                              faults: Faults, http: nat -> Attempt<Thrown>, elapsed: int)
      returns (fim: Fim, ghost t: Trace)
      modifies `posts, `sleeps, `calls, `dlq
      ensures RetrySpec(http, maxRetries, baseMs, t)
      ensures fim ==
        if maxRetries < 1 then Dropped(NoAttemptAllowed)
        else if t.delivered then Delivered(FirstSuccess(http, 1, maxRetries))
        else if faults.send then Dropped(Exception)
        else DeadLettered(Classify(http(maxRetries).error))
      ensures posts == old(posts) + Times((url, payload), t.posts)
      ensures sleeps == old(sleeps) + t.sleeps
      ensures dlq == old(dlq) + if fim.DeadLettered? then [DlqMessage(payload, Some(inboxId), fim.status)] else []
      ensures calls == old(calls) + LoopCalls(maxRetries, http, inboxId, elapsed)
    {
      fim, t := Dropped(NoAttemptAllowed), Trace(0, [], false);
      var attempt: nat := 1;
      while attempt <= maxRetries
        invariant 1 <= attempt && (attempt <= maxRetries || (maxRetries < 1 && attempt == 1))
        invariant forall k: nat :: 1 <= k < attempt ==> http(k).Fails?
        invariant posts == old(posts) + Times((url, payload), attempt - 1)
        invariant sleeps == old(sleeps) + Backoff(baseMs, attempt - 1)
        invariant dlq == old(dlq) && calls == old(calls)
        decreases maxRetries - attempt
      {
        posts := posts + [(url, payload)];
        TimesNext((url, payload), attempt - 1);
        match http(attempt) {
          case Succeeds =>
            calls := calls + [Contar(SUCESSO, [("id_inbox", inboxId), ("tentativa", Decimal(attempt))])];
            calls := calls + [RegistrarDuracao(DURACAO, elapsed, [("id_inbox", inboxId)])];
            FirstSuccessIs(http, 1, attempt, maxRetries);
            return Delivered(attempt), Trace(attempt, Backoff(baseMs, attempt - 1), true);
          case Fails(err) =>
            if attempt < maxRetries {
              sleeps := sleeps + [baseMs * Pow2(attempt - 1)];
              BackoffNext(baseMs, attempt - 1);
              attempt := attempt + 1;
            } else {
              var status := Classify(err);
              calls := calls + [Contar(FALHA, [("id_inbox", inboxId), ("status_dlq", StatusName(status))])];
              calls := calls + [RegistrarDuracao(DURACAO, elapsed, [("id_inbox", inboxId)])];
              FirstSuccessIs(http, 1, attempt + 1, maxRetries);
              fim := EnviarParaDlq(DlqMessage(payload, Some(inboxId), status), faults);
              t := Trace(attempt, Backoff(baseMs, attempt - 1), false);
              return;
            }
        }
      }
    }
  }

  /** The least success is the one before which everything failed. */
  lemma {:induction false} FirstSuccessIs(http: nat -> Attempt<Thrown>, from: nat, k: nat, n: nat)
    requires from <= k <= n + 1
    requires forall j: nat :: from <= j < k ==> http(j).Fails?
    requires k <= n ==> http(k).Succeeds?
    ensures FirstSuccess(http, from, n) == k
    decreases k - from
  {
    if from < k {
      FirstSuccessIs(http, from + 1, k, n);
    }
  }
}

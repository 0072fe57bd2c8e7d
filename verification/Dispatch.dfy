/**
 * `DispatchHandlerService.handle`: one message to one inbox. The module gives it twice: as an
 * automaton whose steps are the awaits of the source (used for interleavings) and as an
 * imperative method, and ties both to one function of the inputs.
 */
module Dispatch {
  import opened Common
  import opened Entities
  import opened Retry

  // --- Failure classification -----------------------------------------------------------------

  /** What a `catch (err: unknown)` receives, as far as the classifiers look at it. */
  datatype Thrown = Plain | WithResponse(response: ResponseField)
  datatype ResponseField = UndefinedField | NullField | Scalar(truthy: bool) | Record(status: Option<StatusField>)
  datatype StatusField = UndefinedStatus | StatusCode(code: int)

  /** `'response' in err && err.response` is truthy. */
  function Classify(err: Thrown): StatusFalhaMensagem
  {
    if err.WithResponse? && (err.response.Record? || (err.response.Scalar? && err.response.truthy))
    then FALHA_ENVIO else AMBIENTE_INDISPONIVEL
  }

  // --- The automaton --------------------------------------------------------------------------

  datatype Cause = Exception | NoAttemptAllowed

  datatype Fim =
    | Delivered(attempt: nat)
    | DeadLettered(status: StatusFalhaMensagem)
    | Dropped(cause: Cause)

  /** Where a running `handle` is: each value is one await of the source. */
  datatype Pc =
    | LookingUpInbox
    | ReadingCache(idAmbiente: int)
    | ReadingTable(idAmbiente: int)
    | FillingCache(ambiente: Ambiente)
    | Posting(url: string, attempt: nat)
    | Sleeping(url: string, attempt: nat)
    | Enqueueing(status: StatusFalhaMensagem)
    | Done(fim: Fim)

  /** What the awaited call gave. */
  datatype Event =
    | InboxFound(idAmbiente: int)
    | InboxMissing
    | CacheHit(ambiente: Ambiente)
    | CacheMiss
    | AmbienteFound(ambiente: Ambiente)
    | AmbienteMissing
    | CacheFilled
    | PostSucceeded
    | PostFailed(error: Thrown)
    | Woke
    | Sent
    | Threw

  /** After `getAmbiente` returned `a`: an unusable ambiente is dead-lettered, else the loop starts. */
  function WithAmbiente(maxRetries: int, a: Ambiente): Pc
  {
    if a.del then Enqueueing(AMBIENTE_INDISPONIVEL)
    else if maxRetries < 1 then Done(Dropped(NoAttemptAllowed))
    else Posting(a.url, 1)
  }

  /** The step a `handle` makes on an event, `None` where the event cannot occur. */
  function Next(maxRetries: int, pc: Pc, ev: Event): Option<Pc>
  {
    match (pc, ev)
    case (LookingUpInbox, InboxFound(amb)) => Some(ReadingCache(amb))
    case (LookingUpInbox, InboxMissing) => Some(Enqueueing(NACK_RECEBIDO))
    case (ReadingCache(_), CacheHit(a)) => Some(WithAmbiente(maxRetries, a))
    case (ReadingCache(amb), CacheMiss) => Some(ReadingTable(amb))
    case (ReadingTable(_), AmbienteFound(a)) => Some(FillingCache(a))
    case (ReadingTable(_), AmbienteMissing) => Some(Enqueueing(AMBIENTE_INDISPONIVEL))
    case (FillingCache(a), CacheFilled) => Some(WithAmbiente(maxRetries, a))
    case (Posting(_, k), PostSucceeded) => Some(Done(Delivered(k)))
    case (Posting(url, k), PostFailed(err)) =>
      Some(if k < maxRetries then Sleeping(url, k) else Enqueueing(Classify(err)))
    case (Sleeping(url, k), Woke) => Some(Posting(url, k + 1))
    case (Enqueueing(status), Sent) => Some(Done(DeadLettered(status)))
    // The outer catch logs and returns: the message goes nowhere.
    case (LookingUpInbox, Threw) => Some(Done(Dropped(Exception)))
    case (ReadingCache(_), Threw) => Some(Done(Dropped(Exception)))
    case (ReadingTable(_), Threw) => Some(Done(Dropped(Exception)))
    case (FillingCache(_), Threw) => Some(Done(Dropped(Exception)))
    case (Enqueueing(_), Threw) => Some(Done(Dropped(Exception)))
    case _ => None
  }

  function Run(maxRetries: int, pc: Pc, evs: seq<Event>): Option<Pc>
  {
    if evs == [] then Some(pc) else
    var before := Run(maxRetries, pc, evs[..|evs| - 1]);
    if before.None? then None else Next(maxRetries, before.value, evs[|evs| - 1])
  }

  /** An upper bound on the events still to come; attempts beyond `maxRetries` count for nothing. */
  function Measure(maxRetries: int, pc: Pc): nat
  {
    var n := if maxRetries < 1 then 0 else maxRetries;
    match pc
    case LookingUpInbox => if n == 0 then 5 else 2 * n + 4
    case ReadingCache(_) => if n == 0 then 4 else 2 * n + 3
    case ReadingTable(_) => if n == 0 then 3 else 2 * n + 2
    case FillingCache(_) => if n == 0 then 2 else 2 * n + 1
    case Posting(_, k) => if k <= n then 2 * (n - k) + 2 else 2
    case Sleeping(_, k) => if k < n then 2 * (n - k) + 1 else 3
    case Enqueueing(_) => 1
    case Done(_) => 0
  }

  /** Every `handle` ends, on any events: after at most 2n + 4 awaits with n >= 1 attempts allowed, after 5 with none. */
  lemma {:induction false} HandleTerminates(maxRetries: int, evs: seq<Event>)
    requires Run(maxRetries, LookingUpInbox, evs).Some?
    ensures |evs| <= if maxRetries < 1 then 5 else 2 * maxRetries + 4
    ensures |evs| + Measure(maxRetries, Run(maxRetries, LookingUpInbox, evs).value)
         <= Measure(maxRetries, LookingUpInbox)
    ensures SaneAttempt(maxRetries, Run(maxRetries, LookingUpInbox, evs).value)
  {
    if evs != [] {
      HandleTerminates(maxRetries, evs[..|evs| - 1]);
    }
  }

  /** Some calls take as many. */
  lemma BoundIsReached(maxRetries: int) returns (evs: seq<Event>)
    ensures Run(maxRetries, LookingUpInbox, evs).Some? && Run(maxRetries, LookingUpInbox, evs).value.Done?
    ensures |evs| == if maxRetries < 1 then 5 else 2 * maxRetries + 4
  {
    evs := FourReads(maxRetries, Ambiente(1, "", "", maxRetries < 1));
    if maxRetries >= 1 {
      evs := FailUntil(maxRetries, "", evs, maxRetries);
      evs := RunOn(maxRetries, LookingUpInbox, evs, PostFailed(Plain));
    }
    evs := RunOn(maxRetries, LookingUpInbox, evs, Sent);
  }

  lemma FourReads(maxRetries: int, a: Ambiente) returns (evs: seq<Event>)
    ensures |evs| == 4 && Run(maxRetries, LookingUpInbox, evs) == Some(WithAmbiente(maxRetries, a))
  {
    assert Run(maxRetries, LookingUpInbox, []) == Some(LookingUpInbox);
    evs := RunOn(maxRetries, LookingUpInbox, [], InboxFound(1));
    assert Run(maxRetries, LookingUpInbox, evs) == Some(ReadingCache(1));
    evs := RunOn(maxRetries, LookingUpInbox, evs, CacheMiss);
    assert Run(maxRetries, LookingUpInbox, evs) == Some(ReadingTable(1));
    evs := RunOn(maxRetries, LookingUpInbox, evs, AmbienteFound(a));
    assert Run(maxRetries, LookingUpInbox, evs) == Some(FillingCache(a));
    evs := RunOn(maxRetries, LookingUpInbox, evs, CacheFilled);
  }

  lemma RunOn(maxRetries: int, pc: Pc, evs: seq<Event>, ev: Event) returns (longer: seq<Event>)
    requires Run(maxRetries, pc, evs).Some? && Next(maxRetries, Run(maxRetries, pc, evs).value, ev).Some?
    ensures longer == evs + [ev] && Run(maxRetries, pc, longer) == Next(maxRetries, Run(maxRetries, pc, evs).value, ev)
  {
    longer := evs + [ev];
    assert longer[..|longer| - 1] == evs;
  }

  /** Failures and sleeps up to attempt `k`. */
  lemma {:induction false} FailUntil(maxRetries: int, url: string, evs: seq<Event>, k: nat) returns (longer: seq<Event>)
    requires 1 <= k <= maxRetries && Run(maxRetries, LookingUpInbox, evs) == Some(Posting(url, 1))
    ensures Run(maxRetries, LookingUpInbox, longer) == Some(Posting(url, k)) && |longer| == |evs| + 2 * (k - 1)
  {
    longer := evs;
    if k > 1 {
      longer := FailUntil(maxRetries, url, evs, k - 1);
      longer := RunOn(maxRetries, LookingUpInbox, longer, PostFailed(Plain));
      longer := RunOn(maxRetries, LookingUpInbox, longer, Woke);
    }
  }

  /** The loop counter stays in its range. */
  predicate SaneAttempt(maxRetries: int, pc: Pc)
  {
    match pc
    case Posting(_, k) => 1 <= k <= maxRetries
    case Sleeping(_, k) => 1 <= k < maxRetries
    case Done(Delivered(k)) => 1 <= k <= maxRetries
    case _ => true
  }

  // --- The inputs of one call and what it ends with -------------------------------------------

  /** Which awaited calls throw, should they be reached. */
  datatype Faults = Faults(lookup: bool, cacheRead: bool, tableRead: bool, cacheFill: bool, send: bool)

  datatype Inputs = Inputs(
    inboxes: map<InboxId, Inbox>,
    ambientes: map<int, Ambiente>,
    cache: map<int, Ambiente>,      // the live entries
    maxRetries: int,                // NaN is any value below 1
    baseMs: int,
    faults: Faults,
    http: nat -> Attempt<Thrown>)

  datatype Fetched = FetchThrew | FetchedOk(ambiente: Option<Ambiente>)

  /** The cache-aside `getAmbiente`. */
  function GetAmbiente(i: Inputs, id: int): Fetched
  {
    if i.faults.cacheRead then FetchThrew
    else if id in i.cache then FetchedOk(Some(i.cache[id]))
    else if i.faults.tableRead then FetchThrew
    else
      var found := FindAmbiente(i.ambientes, id);
      if found.Some? && i.faults.cacheFill then FetchThrew else FetchedOk(found)
  }

  /** The least attempt from `k` on that succeeds, `n + 1` if none does. */
  function FirstSuccess(http: nat -> Attempt<Thrown>, k: nat, n: nat): (r: nat)
    requires k <= n + 1
    ensures k <= r <= n + 1
    ensures forall j: nat :: k <= j < r ==> http(j).Fails?
    ensures r <= n ==> http(r).Succeeds?
    decreases n + 1 - k
  {
    if k == n + 1 || http(k).Succeeds? then k else FirstSuccess(http, k + 1, n)
  }

  function Enqueue(i: Inputs, status: StatusFalhaMensagem): Fim
  {
    if i.faults.send then Dropped(Exception) else DeadLettered(status)
  }

  function AttemptAll(i: Inputs): Fim
  {
    if i.maxRetries < 1 then Dropped(NoAttemptAllowed) else
    var k := FirstSuccess(i.http, 1, i.maxRetries);
    if k <= i.maxRetries then Delivered(k) else Enqueue(i, Classify(i.http(i.maxRetries).error))
  }

  /** What the reads before the attempt loop lead to. */
  datatype Resolution = ReadThrew | Unusable(status: StatusFalhaMensagem) | UseAmbiente(ambiente: Ambiente)

  function Resolve(i: Inputs, inboxId: InboxId): Resolution
  {
    if i.faults.lookup then ReadThrew else
    var inbox := FindInbox(i.inboxes, inboxId);
    if inbox.None? then Unusable(NACK_RECEBIDO) else
    match GetAmbiente(i, inbox.value.idAmbiente)
    case FetchThrew => ReadThrew
    case FetchedOk(None) => Unusable(AMBIENTE_INDISPONIVEL)
    case FetchedOk(Some(a)) => if a.del then Unusable(AMBIENTE_INDISPONIVEL) else UseAmbiente(a)
  }

  /** How a call of `handle` ends. */
  function Outcome(i: Inputs, inboxId: InboxId): Fim
  {
    match Resolve(i, inboxId)
    case ReadThrew => Dropped(Exception)
    case Unusable(status) => Enqueue(i, status)
    case UseAmbiente(_) => AttemptAll(i)
  }

  /**
   * The promise that any failure ends in the dead letters holds exactly when no read throws, at
   * least one attempt is allowed where one is due, and the queue takes the message where it is
   * needed: nothing else can lose a message.
   */
  lemma DroppedExactly(i: Inputs, inboxId: InboxId)
    ensures Outcome(i, inboxId).Dropped? <==>
      || Resolve(i, inboxId).ReadThrew?
      || (Resolve(i, inboxId).UseAmbiente? && i.maxRetries < 1)
      || (i.faults.send
          && (Resolve(i, inboxId).UseAmbiente? ==> forall k: nat :: 1 <= k <= i.maxRetries ==> i.http(k).Fails?))
  {
    if i.maxRetries >= 1 {
      var k := FirstSuccess(i.http, 1, i.maxRetries);
      assert k <= i.maxRetries ==> i.http(k).Succeeds?;
    }
  }

  // --- The same in terms of the rows ----------------------------------------------------------

  /** There is no such inbox, or it is soft-deleted. */
  predicate NoInbox(inboxes: map<InboxId, Inbox>, inboxId: InboxId)
  {
    inboxId in inboxes ==> inboxes[inboxId].del
  }

  /** The inbox is active and `a` is its ambiente, as a live cache entry or else the table has it; every read of it succeeds. */
  predicate Serves(i: Inputs, inboxId: InboxId, a: Ambiente)
  {
    && !i.faults.lookup && !NoInbox(i.inboxes, inboxId) && !i.faults.cacheRead && !a.del
    && var id := i.inboxes[inboxId].idAmbiente;
       if id in i.cache then i.cache[id] == a
       else !i.faults.tableRead && !i.faults.cacheFill && id in i.ambientes && i.ambientes[id] == a
  }

  lemma ServesExactly(i: Inputs, inboxId: InboxId, a: Ambiente)
    ensures Resolve(i, inboxId) == UseAmbiente(a) <==> Serves(i, inboxId, a)
  {
  }

  /** A call delivers at attempt `k` exactly if an active ambiente serves its active inbox and `k` is the first success. */
  lemma DeliveredExactly(i: Inputs, inboxId: InboxId, k: nat)
    ensures Outcome(i, inboxId) == Delivered(k) <==>
      && (exists a :: Serves(i, inboxId, a))
      && 1 <= k <= i.maxRetries && i.http(k).Succeeds? && forall j: nat :: 1 <= j < k ==> i.http(j).Fails?
  {
    if Resolve(i, inboxId).UseAmbiente? {
      ServesExactly(i, inboxId, Resolve(i, inboxId).ambiente);
      if i.maxRetries >= 1 {
        var first := FirstSuccess(i.http, 1, i.maxRetries);
        assert first <= i.maxRetries ==> i.http(first).Succeeds?;
      }
    }
    if a :| Serves(i, inboxId, a) {
      ServesExactly(i, inboxId, a);
    }
  }

  /** A missing or soft-deleted inbox, and nothing else, is answered with NACK_RECEBIDO. */
  lemma RefusedExactly(i: Inputs, inboxId: InboxId)
    requires !i.faults.lookup && !i.faults.send
    ensures NoInbox(i.inboxes, inboxId) <==> Outcome(i, inboxId) == DeadLettered(NACK_RECEBIDO)
    ensures NoInbox(i.inboxes, inboxId) ==> forall a :: !Serves(i, inboxId, a)
  {
  }

  /** The status in the queue tells the last thing that went wrong, and nothing else. */
  lemma StatusExactly(i: Inputs, inboxId: InboxId)
    requires Outcome(i, inboxId).DeadLettered?
    ensures Outcome(i, inboxId).status ==
      if inboxId !in i.inboxes || i.inboxes[inboxId].del then NACK_RECEBIDO else
      var id := i.inboxes[inboxId].idAmbiente;
      if (if id in i.cache then i.cache[id].del else id !in i.ambientes || i.ambientes[id].del) then AMBIENTE_INDISPONIVEL
      else match i.http(i.maxRetries).error
           case WithResponse(Record(_)) => FALHA_ENVIO
           case WithResponse(Scalar(true)) => FALHA_ENVIO
           case _ => AMBIENTE_INDISPONIVEL
  {
  }

  // --- The automaton computes the same outcome ------------------------------------------------

  /** What the inputs give to the await at `pc`. */
  function Answer(i: Inputs, inboxId: InboxId, pc: Pc): Option<Event>
  {
    match pc
    case LookingUpInbox =>
      var inbox := FindInbox(i.inboxes, inboxId);
      Some(if i.faults.lookup then Threw else if inbox.None? then InboxMissing else InboxFound(inbox.value.idAmbiente))
    case ReadingCache(id) =>
      Some(if i.faults.cacheRead then Threw else if id in i.cache then CacheHit(i.cache[id]) else CacheMiss)
    case ReadingTable(id) =>
      var found := FindAmbiente(i.ambientes, id);
      Some(if i.faults.tableRead then Threw else if found.None? then AmbienteMissing else AmbienteFound(found.value))
    case FillingCache(_) => Some(if i.faults.cacheFill then Threw else CacheFilled)
    case Posting(_, k) =>
      Some(match i.http(k) case Succeeds => PostSucceeded case Fails(err) => PostFailed(err))
    case Sleeping(_, _) => Some(Woke)
    case Enqueueing(_) => Some(if i.faults.send then Threw else Sent)
    case Done(_) => None
  }

  function AttemptFrom(i: Inputs, k: nat): Fim
    requires 1 <= k <= i.maxRetries
  {
    var first := FirstSuccess(i.http, k, i.maxRetries);
    if first <= i.maxRetries then Delivered(first) else Enqueue(i, Classify(i.http(i.maxRetries).error))
  }

  function Usable(i: Inputs, a: Ambiente): Fim
  {
    if a.del then Enqueue(i, AMBIENTE_INDISPONIVEL) else AttemptAll(i)
  }

  /** What a call that has got to `pc` will end with. */
  function Remaining(i: Inputs, inboxId: InboxId, pc: Pc): Fim
    requires SaneAttempt(i.maxRetries, pc)
  {
    match pc
    case LookingUpInbox => Outcome(i, inboxId)
    case ReadingCache(id) =>
      (match GetAmbiente(i, id)
       case FetchThrew => Dropped(Exception)
       case FetchedOk(None) => Enqueue(i, AMBIENTE_INDISPONIVEL)
       case FetchedOk(Some(a)) => Usable(i, a))
    case ReadingTable(id) =>
      var found := FindAmbiente(i.ambientes, id);
      if i.faults.tableRead then Dropped(Exception)
      else if found.None? then Enqueue(i, AMBIENTE_INDISPONIVEL)
      else if i.faults.cacheFill then Dropped(Exception)
      else Usable(i, found.value)
    case FillingCache(a) => if i.faults.cacheFill then Dropped(Exception) else Usable(i, a)
    case Posting(_, k) => AttemptFrom(i, k)
    case Sleeping(_, k) => AttemptFrom(i, k + 1)
    case Enqueueing(status) => Enqueue(i, status)
    case Done(fim) => fim
  }

  lemma StepKeepsRemaining(i: Inputs, inboxId: InboxId, pc: Pc, ev: Event)
    requires SaneAttempt(i.maxRetries, pc) && Answer(i, inboxId, pc) == Some(ev)
    ensures Next(i.maxRetries, pc, ev).Some?
    ensures SaneAttempt(i.maxRetries, Next(i.maxRetries, pc, ev).value)
    ensures Remaining(i, inboxId, Next(i.maxRetries, pc, ev).value) == Remaining(i, inboxId, pc)
  {
  }

  /** The awaits of one call, each answered by the inputs. */
  ghost predicate Answered(i: Inputs, inboxId: InboxId, evs: seq<Event>)
  {
    forall n :: 0 <= n < |evs| ==>
      Run(i.maxRetries, LookingUpInbox, evs[..n]).Some?
      && Answer(i, inboxId, Run(i.maxRetries, LookingUpInbox, evs[..n]).value) == Some(evs[n])
  }

  /**
   * Await by await, the automaton never gets stuck on the answers of the inputs, and it can only
   * end with the outcome of the call.
   */
  lemma {:induction false} AutomatonRefinesOutcome(i: Inputs, inboxId: InboxId, evs: seq<Event>)
    requires Answered(i, inboxId, evs)
    ensures Run(i.maxRetries, LookingUpInbox, evs).Some?
    ensures var pc := Run(i.maxRetries, LookingUpInbox, evs).value;
      && SaneAttempt(i.maxRetries, pc)
      && Remaining(i, inboxId, pc) == Outcome(i, inboxId)
      && (pc.Done? ==> pc.fim == Outcome(i, inboxId))
      && (!pc.Done? ==> Answer(i, inboxId, pc).Some?)
  {
    if evs != [] {
      var n := |evs| - 1;
      assert Answered(i, inboxId, evs[..n]) by {
        forall m | 0 <= m < n
          ensures Run(i.maxRetries, LookingUpInbox, evs[..n][..m]).Some?
          ensures Answer(i, inboxId, Run(i.maxRetries, LookingUpInbox, evs[..n][..m]).value) == Some(evs[..n][m])
        {
          assert evs[..n][..m] == evs[..m];
        }
      }
      AutomatonRefinesOutcome(i, inboxId, evs[..n]);
      StepKeepsRemaining(i, inboxId, Run(i.maxRetries, LookingUpInbox, evs[..n]).value, evs[n]);
    }
  }

  // --- Metrics --------------------------------------------------------------------------------

  datatype MetricCall =
    | Contar(nome: string, atributos: seq<(string, string)>)
    | RegistrarDuracao(nome: string, duracaoMs: int, atributos: seq<(string, string)>)

  const TENTATIVA := "gateway.despacho.tentativa"
  const SUCESSO := "gateway.despacho.sucesso"
  const FALHA := "gateway.despacho.falha"
  const DURACAO := "gateway.despacho.duracao"
  const ENFILEIRAMENTO := "gateway.dlq.enfileiramento"

  function Decimal(n: nat): string
  {
    if n < 10 then [(n as char + '0')] else Decimal(n / 10) + [((n % 10) as char + '0')]
  }

  /** The value of a text of decimal digits. */
  function Value(s: string): int
  {
    if s == "" then 0 else 10 * Value(s[..|s| - 1]) + (s[|s| - 1] as int - '0' as int)
  }

  /** `String(n)`: digits only, none in vain in front, and of this value. */
  lemma {:induction false} DecimalReads(n: nat)
    ensures Value(Decimal(n)) == n && Decimal(n) != "" && (Decimal(n)[0] == '0' <==> n == 0)
    ensures forall i :: 0 <= i < |Decimal(n)| ==> '0' <= Decimal(n)[i] <= '9'
  {
    var s := Decimal(n);
    if n < 10 {
      assert s[..|s| - 1] == "";
    } else {
      DecimalReads(n / 10);
      assert s[..|s| - 1] == Decimal(n / 10);
    }
  }

  function StatusName(s: StatusFalhaMensagem): string
  {
    match s
    case INBOX_NAO_REGISTRADA => "INBOX_NAO_REGISTRADA"
    case FALHA_ENFILEIRAMENTO => "FALHA_ENFILEIRAMENTO"
    case NACK_RECEBIDO => "NACK_RECEBIDO"
    case FALHA_ENVIO => "FALHA_ENVIO"
    case AMBIENTE_INDISPONIVEL => "AMBIENTE_INDISPONIVEL"
    case ASSINATURA_INVALIDA => "ASSINATURA_INVALIDA"
  }
}

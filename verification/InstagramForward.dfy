/**
 * `InstagramWebhookForwarderService.forward`: the raw body of one webhook to one ambiente. It is a
 * second, independently written copy of the dispatch: same reads, same retries, another classifier.
 */
module InstagramForward {
  import opened Common
  import opened Json
  import opened Entities
  import opened Retry
  import opened Dispatch
  import DispatchService

  datatype Post = Post(url: string, body: string, signature: string)

  /** The request that is forwarded; `parse` is `JSON.parse`, `None` where it throws. */
  datatype Request = Request(subPath: string, rawBody: string, signature: Option<string>, parse: string -> Option<Json>)

  /** FALHA_ENVIO where `extractHttpStatus` finds a status. */
  function ClassifyForward(err: Thrown): StatusFalhaMensagem
  {
    if err.WithResponse? && err.response.Record? && err.response.status.Some? && err.response.status.value.StatusCode?
    then FALHA_ENVIO else AMBIENTE_INDISPONIVEL
  }

  /** A truthy response without a status. */
  predicate ResponseWithoutStatus(err: Thrown)
  {
    && err.WithResponse?
    && match err.response
       case Scalar(truthy) => truthy
       case Record(status) => status.None? || status.value.UndefinedStatus?
       case _ => false
  }

  /** The two classifiers part ways exactly on a truthy response that carries no status. */
  lemma ClassifiersAgreeExactly(err: Thrown)
    ensures Classify(err) == ClassifyForward(err) <==> !ResponseWithoutStatus(err)
    ensures ResponseWithoutStatus(err) ==> Classify(err) == FALHA_ENVIO
  {
  }

  /** How a call ends; `Dropped(Exception)` is the exception it throws to its caller. */
  function ForwardOutcome(i: Inputs, idAmbiente: int): Fim
  {
    match GetAmbiente(i, idAmbiente)
    case FetchThrew => Dropped(Exception)
    case FetchedOk(None) => Enqueue(i, AMBIENTE_INDISPONIVEL)
    case FetchedOk(Some(a)) => if a.del then Enqueue(i, AMBIENTE_INDISPONIVEL) else ForwardAll(i)
  }

  function ForwardAll(i: Inputs): Fim
  {
    if i.maxRetries < 1 then Dropped(NoAttemptAllowed) else
    var k := FirstSuccess(i.http, 1, i.maxRetries);
    if k <= i.maxRetries then Delivered(k) else Enqueue(i, ClassifyForward(i.http(i.maxRetries).error))
  }

  /**
   * On the same inputs the two copies end alike, unless the last of n failed attempts had a
   * response without a status and the dead letter got through to say so.
   */
  lemma CopiesAgreeExactly(i: Inputs, inboxId: InboxId)
    requires !i.faults.lookup && FindInbox(i.inboxes, inboxId).Some?
    ensures var amb := FindInbox(i.inboxes, inboxId).value.idAmbiente;
      ForwardOutcome(i, amb) == Outcome(i, inboxId) <==>
        !(&& Resolve(i, inboxId).UseAmbiente? && i.maxRetries >= 1 && !i.faults.send
          && (forall k: nat :: 1 <= k <= i.maxRetries ==> i.http(k).Fails?)
          && ResponseWithoutStatus(i.http(i.maxRetries).error))
  {
    if i.maxRetries >= 1 {
      var k := FirstSuccess(i.http, 1, i.maxRetries);
      if k <= i.maxRetries {
        assert i.http(k).Succeeds?;
      } else {
        ClassifiersAgreeExactly(i.http(i.maxRetries).error);
      }
    }
  }

  /** The status of a forward's dead letter, in terms of the rows and of what the last attempt threw. */
  lemma ForwardStatusExactly(i: Inputs, idAmbiente: int)
    requires ForwardOutcome(i, idAmbiente).DeadLettered?
    ensures ForwardOutcome(i, idAmbiente).status ==
      if (if idAmbiente in i.cache then i.cache[idAmbiente].del else idAmbiente !in i.ambientes || i.ambientes[idAmbiente].del)
      then AMBIENTE_INDISPONIVEL
      else match i.http(i.maxRetries).error
           case WithResponse(Record(Some(StatusCode(_)))) => FALHA_ENVIO
           case _ => AMBIENTE_INDISPONIVEL
  {
  }

  // --- The target -----------------------------------------------------------------------------

  function Slashes(n: nat): string
  {
    seq(n, _ => '/')
  }

  /** `url.replace(/\/+$/, '')`: `url` without its trailing slashes, all of them. */
  function WithoutTrailingSlashes(url: string): (base: string)
    ensures base == "" || base[|base| - 1] != '/'
    ensures exists n: nat :: url == base + Slashes(n)
  {
    if url == "" || url[|url| - 1] != '/' then
      assert url == url + Slashes(0);
      url
    else
      var base := WithoutTrailingSlashes(url[..|url| - 1]);
      assert exists n: nat :: url == base + Slashes(n) by {
        var n: nat :| url[..|url| - 1] == base + Slashes(n);
        assert url == url[..|url| - 1] + ['/'] == base + (Slashes(n) + ['/']);
        assert Slashes(n + 1) == Slashes(n) + ['/'];
      }
      base
  }

  function Target(url: string, request: Request): string
  {
    WithoutTrailingSlashes(url) + request.subPath
  }

  /** Where the body goes: the ambiente's url without its trailing slashes, then the path of the surface. */
  lemma {:induction false} TargetExactly(base: string, n: nat, request: Request)
    requires base == "" || base[|base| - 1] != '/'
    ensures Target(base + Slashes(n), request) == base + request.subPath
  {
    SlashesDoNotMatter(base, n, request);
  }

  /** However many slashes an ambiente's url was registered with, the target is the same. */
  lemma {:induction false} SlashesDoNotMatter(url: string, n: nat, request: Request)
    ensures Target(url + Slashes(n), request) == Target(url, request)
  {
    if n == 0 {
      assert url + Slashes(0) == url;
    } else {
      SlashesDoNotMatter(url, n - 1, request);
      assert (url + Slashes(n))[..|url + Slashes(n)| - 1] == url + Slashes(n - 1);
    }
  }

  // --- What a call does -----------------------------------------------------------------------

  /** The parsed body, or the raw text where it is no JSON. */
  function PayloadForDlq(request: Request): Json
  {
    var parsed := request.parse(request.rawBody);
    if parsed.Some? then parsed.value else Str(request.rawBody)
  }

  /** The attempt loop of a call, empty where it is not reached. */
  function LoopOf(i: Inputs, idAmbiente: int): Trace
  {
    var found := GetAmbiente(i, idAmbiente);
    if found.FetchThrew? || found.ambiente.None? || found.ambiente.value.del || i.maxRetries < 1 then Trace(0, [], false) else
    var k := FirstSuccess(i.http, 1, i.maxRetries);
    var posts := if k <= i.maxRetries then k else i.maxRetries;
    Trace(posts, Backoff(i.baseMs, posts - 1), k <= i.maxRetries)
  }

  function PostsOf(i: Inputs, idAmbiente: int, request: Request): seq<Post>
  {
    var found := GetAmbiente(i, idAmbiente);
    if found.FetchThrew? || found.ambiente.None? then [] else
    var post := Post(Target(found.ambiente.value.url, request), request.rawBody,
                     if request.signature.Some? then request.signature.value else "");
    Times(post, LoopOf(i, idAmbiente).posts)
  }

  function DeadLettersOf(i: Inputs, inboxId: InboxId, idAmbiente: int, request: Request): seq<DlqMessage>
  {
    var fim := ForwardOutcome(i, idAmbiente);
    if fim.DeadLettered? then [DlqMessage(PayloadForDlq(request), Some(inboxId), fim.status)] else []
  }

  /** The loop obeys the shared retry specification, and delivers exactly when the call does. */
  lemma LoopObeysRetrySpec(i: Inputs, idAmbiente: int)
    requires var found := GetAmbiente(i, idAmbiente);
      found.FetchedOk? && found.ambiente.Some? && !found.ambiente.value.del
    ensures RetrySpec(i.http, i.maxRetries, i.baseMs, LoopOf(i, idAmbiente))
    ensures LoopOf(i, idAmbiente).delivered <==> ForwardOutcome(i, idAmbiente).Delivered?
  {
    if i.maxRetries >= 1 {
      var k := FirstSuccess(i.http, 1, i.maxRetries);
      assert k <= i.maxRetries ==> i.http(k).Succeeds?;
    }
  }

  predicate SameEntry(c: map<int, Ambiente>, d: map<int, Ambiente>, a: int)
  {
    (a in c <==> a in d) && (a in c ==> c[a] == d[a])
  }

  /** Of the cache only the entry of its own ambiente matters to a call. */
  lemma OwnEntryOnly(i: Inputs, j: Inputs, idAmbiente: int, inboxId: InboxId, request: Request)
    requires j == i.(cache := j.cache)
    requires SameEntry(i.cache, j.cache, idAmbiente)
    ensures ForwardOutcome(i, idAmbiente) == ForwardOutcome(j, idAmbiente)
    ensures LoopOf(i, idAmbiente) == LoopOf(j, idAmbiente)
    ensures PostsOf(i, idAmbiente, request) == PostsOf(j, idAmbiente, request)
    ensures DeadLettersOf(i, inboxId, idAmbiente, request) == DeadLettersOf(j, inboxId, idAmbiente, request)
  {
  }

  /** What the outside gives to one call. */
  datatype World = World(maxRetries: int, baseMs: int, faults: Faults, http: nat -> Attempt<Thrown>)

  class InstagramForwarder {
    var ambientes: map<int, Ambiente>
    var cache: map<int, Ambiente>
    var posts: seq<Post>
    var sleeps: seq<int>
    var dlq: seq<DlqMessage>

    ghost function In(world: World): Inputs
      reads this
    {
      Inputs(map[], ambientes, cache, world.maxRetries, world.baseMs, world.faults, world.http)
    }

    method GetAmbienteCached(id: int, world: World) returns (r: Fetched)
      modifies `cache
      ensures r == GetAmbiente(old(In(world)), id)
      ensures cache == old(cache) + if r.FetchedOk? && r.ambiente.Some? then map[id := r.ambiente.value] else map[]
    {
      if world.faults.cacheRead {
        return FetchThrew;
      }
      if id in cache {
        return FetchedOk(Some(cache[id]));
      }
      if world.faults.tableRead {
        return FetchThrew;
      }
      var found := FindAmbiente(ambientes, id);
      if found.Some? {
        if world.faults.cacheFill {
          return FetchThrew;
        }
        cache := cache[id := found.value];
      }
      return FetchedOk(found);
    }

    method SendToQueue(message: DlqMessage, throws: bool) returns (fim: Fim)
      modifies `dlq
      ensures fim == if throws then Dropped(Exception) else DeadLettered(message.status)
      ensures dlq == old(dlq) + if throws then [] else [message]
    {
      if throws {
        return Dropped(Exception);
      }
      dlq := dlq + [message];
      return DeadLettered(message.status);
    }

    /** The body goes out byte for byte, as often as the retry specification says; a dead letter is for this inbox. */
    method Forward(inboxId: InboxId, idAmbiente: int, request: Request, world: World) returns (fim: Fim)
      modifies this
      ensures ambientes == old(ambientes)
      ensures fim == ForwardOutcome(old(In(world)), idAmbiente)
      ensures posts == old(posts) + PostsOf(old(In(world)), idAmbiente, request)
      ensures sleeps == old(sleeps) + LoopOf(old(In(world)), idAmbiente).sleeps
      ensures dlq == old(dlq) + DeadLettersOf(old(In(world)), inboxId, idAmbiente, request)
      ensures cache == old(cache) +
        var found := GetAmbiente(old(In(world)), idAmbiente);
        if found.FetchedOk? && found.ambiente.Some? then map[idAmbiente := found.ambiente.value] else map[]
      ensures forall a :: a != idAmbiente ==> SameEntry(old(cache), cache, a)
    {
      ghost var i := In(world);
      var found := GetAmbienteCached(idAmbiente, world);
      if found.FetchThrew? {
        return Dropped(Exception);
      }
      if found.ambiente.None? || found.ambiente.value.del {
        fim := SendToQueue(DlqMessage(PayloadForDlq(request), Some(inboxId), AMBIENTE_INDISPONIVEL), world.faults.send);
        return;
      }
      fim := PostUntilDelivered(inboxId, idAmbiente, found.ambiente.value.url, request, world, i);
    }

    /** The attempt loop of `forward`. */
    method PostUntilDelivered(inboxId: InboxId, ghost idAmbiente: int, url: string, request: Request, world: World, ghost i: Inputs)
      returns (fim: Fim)
      requires i.http == world.http && i.maxRetries == world.maxRetries && i.baseMs == world.baseMs && i.faults == world.faults
      requires exists a: Ambiente :: GetAmbiente(i, idAmbiente) == FetchedOk(Some(a)) && !a.del && a.url == url
      modifies `posts, `sleeps, `dlq
      ensures fim == ForwardOutcome(i, idAmbiente)
      ensures posts == old(posts) + PostsOf(i, idAmbiente, request)
      ensures sleeps == old(sleeps) + LoopOf(i, idAmbiente).sleeps
      ensures dlq == old(dlq) + DeadLettersOf(i, inboxId, idAmbiente, request)
    {
      var post := Post(Target(url, request), request.rawBody,
                       if request.signature.Some? then request.signature.value else "");
      fim := Dropped(NoAttemptAllowed);
      var attempt: nat := 1;
      while attempt <= world.maxRetries
        invariant 1 <= attempt && (attempt <= world.maxRetries || (world.maxRetries < 1 && attempt == 1))
        invariant forall k: nat :: 1 <= k < attempt ==> world.http(k).Fails?
        invariant posts == old(posts) + Times(post, attempt - 1)
        invariant sleeps == old(sleeps) + Backoff(world.baseMs, attempt - 1)
        invariant dlq == old(dlq) && fim == Dropped(NoAttemptAllowed)
        decreases world.maxRetries - attempt
      {
        posts := posts + [post];
        TimesNext(post, attempt - 1);
        match world.http(attempt) {
          case Succeeds =>
            DispatchService.FirstSuccessIs(world.http, 1, attempt, world.maxRetries);
            return Delivered(attempt);
          case Fails(err) =>
            if attempt < world.maxRetries {
              sleeps := sleeps + [world.baseMs * Pow2(attempt - 1)];
              BackoffNext(world.baseMs, attempt - 1);
              attempt := attempt + 1;
            } else {
              DispatchService.FirstSuccessIs(world.http, 1, attempt + 1, world.maxRetries);
              fim := SendToQueue(DlqMessage(PayloadForDlq(request), Some(inboxId), ClassifyForward(err)), world.faults.send);
              return;
            }
        }
      }
    }
  }
}

/** `InstagramWebhookService.handleIncoming`: one forward after the other, none stopping the next. */
module InstagramWebhook {
  import opened Common
  import opened Json
  import opened Entities
  import opened Payload
  import opened Registry
  import opened Ingestion
  import opened Dispatch
  import opened InstagramForward

  datatype Surface = Instagram | InstagramLogin | Messenger

  function SubPath(surface: Surface): string
  {
    match surface
    case Instagram => "/webhooks/instagram"
    case InstagramLogin => "/webhooks/instagram-login"
    case Messenger => "/webhooks/messenger"
  }

  /** What the forward to `inboxId` would work on, did it run alone from the given tables and cache. */
  function Alone(ambientes: map<int, Ambiente>, cache: map<int, Ambiente>, world: InboxId -> World, inboxId: InboxId): Inputs
  {
    var w := world(inboxId);
    Inputs(map[], ambientes, cache, w.maxRetries, w.baseMs, w.faults, w.http)
  }

  /**
   * A body that has a pid is an object, so the dead letter of its forward is never stored as `null`:
   * it is that object, or the raw text where the text does not parse.
   */
  lemma DeadLetterIsNeverNull(request: Request, body: Json)
    requires InstagramExtractPid(body).Some?
    requires request.parse(request.rawBody) == None || request.parse(request.rawBody) == Some(body)
    ensures PayloadForDlq(request) == if request.parse(request.rawBody).Some? then body else Str(request.rawBody)
    ensures PayloadForDlq(request) != Null
  {
  }

  /** One forward of the loop. */
  datatype Job = Job(inboxId: InboxId, idAmbiente: int, inputs: Inputs)

  function Jobs(inboxes: map<InboxId, Inbox>, routed: seq<InboxId>, ambientes: map<int, Ambiente>, cache: map<int, Ambiente>,
                world: InboxId -> World): (jobs: seq<Job>)
    requires Elements(routed) <= inboxes.Keys
    ensures |jobs| == |routed|
  {
    seq(|routed|, n requires 0 <= n < |routed| =>
      Job(routed[n], Ambs(inboxes, routed)[n], Alone(ambientes, cache, world, routed[n])))
  }

  /** The posts of the first `n` jobs, one job after the other. */
  function AllPosts(jobs: seq<Job>, n: nat, request: Request): seq<Post>
    requires n <= |jobs|
  {
    if n == 0 then [] else
    AllPosts(jobs, n - 1, request) + PostsOf(jobs[n - 1].inputs, jobs[n - 1].idAmbiente, request)
  }

  function AllDeadLetters(jobs: seq<Job>, n: nat, request: Request): seq<DlqMessage>
    requires n <= |jobs|
  {
    if n == 0 then [] else
    var last := jobs[n - 1];
    AllDeadLetters(jobs, n - 1, request) + DeadLettersOf(last.inputs, last.inboxId, last.idAmbiente, request)
  }

  /** The inboxes a body is for: active rows with the pid that the body has at its place. */
  function Rows(inboxes: map<InboxId, Inbox>, body: Json): set<InboxId>
  {
    set id | id in inboxes && !inboxes[id].del && inboxes[id].pid != "" && At(body, WABA_PATH) == Some(Str(inboxes[id].pid))
  }

  lemma RowsAreThoseOfThePid(inboxes: map<InboxId, Inbox>, body: Json)
    ensures var pid := InstagramExtractPid(body);
      Rows(inboxes, body) == if pid.Some? then PidRows(inboxes, pid.value) else {}
  {
    if !body.Null? {
      ReadersFollowTheirPaths(body);
    }
  }

  /** The lookup throws, or gives one inbox for each ambiente of the pid. */
  ghost predicate Routed(inboxes: map<InboxId, Inbox>, body: Json, findThrows: bool, routed: seq<InboxId>)
  {
    if InstagramExtractPid(body).Some? && findThrows then routed == []
    else OnePerAmbiente(inboxes, Rows(inboxes, body), routed)
  }

  /** What the call adds to the queue. */
  function Queued(jobs: seq<Job>, request: Request, body: Json, findThrows: bool, sendThrows: bool): seq<DlqMessage>
  {
    if jobs != [] then AllDeadLetters(jobs, |jobs|, request)
    else if (InstagramExtractPid(body).Some? && findThrows) || sendThrows then []
    else [DlqMessage(body, None, INBOX_NAO_REGISTRADA)]
  }

  /** A forward is neither delivered nor queued. */
  predicate ForwardLost(job: Job, request: Request)
  {
    !ForwardOutcome(job.inputs, job.idAmbiente).Delivered?
    && DeadLettersOf(job.inputs, job.inboxId, job.idAmbiente, request) == []
  }

  /**
   * What the loop and the outer `catch` swallow: a webhook leaves nothing behind exactly if its lookup
   * throws, or it has no inbox and its dead letter cannot be sent; one of its forwards is lost exactly
   * if a read throws, no attempt is allowed where one is due, or its dead letter is due and cannot be sent.
   */
  lemma LostExactly(inboxes: map<InboxId, Inbox>, body: Json, findThrows: bool, sendThrows: bool, routed: seq<InboxId>,
                    jobs: seq<Job>, request: Request)
    requires Routed(inboxes, body, findThrows, routed) && |jobs| == |routed|
    ensures (jobs == [] && Queued(jobs, request, body, findThrows, sendThrows) == []) <==>
      if InstagramExtractPid(body).Some? && findThrows then true else Rows(inboxes, body) == {} && sendThrows
    ensures forall n :: 0 <= n < |jobs| ==> (ForwardLost(jobs[n], request) <==>
      var i, found := jobs[n].inputs, GetAmbiente(jobs[n].inputs, jobs[n].idAmbiente);
      var usable := found.FetchedOk? && found.ambiente.Some? && !found.ambiente.value.del;
      || found.FetchThrew?
      || (usable && i.maxRetries < 1)
      || (i.faults.send && (usable ==> forall k: nat :: 1 <= k <= i.maxRetries ==> i.http(k).Fails?)))
  {
    if !(InstagramExtractPid(body).Some? && findThrows) {
      OnePerAmbienteCount(inboxes, Rows(inboxes, body), routed);
    }
    forall n | 0 <= n < |jobs| && jobs[n].inputs.maxRetries >= 1
      ensures FirstSuccess(jobs[n].inputs.http, 1, jobs[n].inputs.maxRetries) <= jobs[n].inputs.maxRetries <==>
        !forall k: nat :: 1 <= k <= jobs[n].inputs.maxRetries ==> jobs[n].inputs.http(k).Fails?
    {
      var i := jobs[n].inputs;
      var k := FirstSuccess(i.http, 1, i.maxRetries);
      assert k <= i.maxRetries ==> i.http(k).Succeeds?;
    }
  }

  ghost predicate DistinctAmbientes(jobs: seq<Job>)
  {
    forall n, m :: 0 <= n < m < |jobs| ==> jobs[n].idAmbiente != jobs[m].idAmbiente
  }

  /** For the jobs from `n` on the caches `c` and `d` are the same. */
  ghost predicate Untouched(c: map<int, Ambiente>, d: map<int, Ambiente>, jobs: seq<Job>, n: nat)
  {
    forall m :: n <= m < |jobs| ==> SameEntry(c, d, jobs[m].idAmbiente)
  }

  lemma UntouchedNext(c: map<int, Ambiente>, d: map<int, Ambiente>, e: map<int, Ambiente>, jobs: seq<Job>, n: nat)
    requires n < |jobs| && DistinctAmbientes(jobs) && Untouched(c, d, jobs, n)
    requires forall a :: a != jobs[n].idAmbiente ==> SameEntry(d, e, a)
    ensures Untouched(c, e, jobs, n + 1)
  {
  }

  class InstagramWebhookService {
    const forwarder: InstagramForwarder
    const repo: InboxRepository

    constructor (forwarder: InstagramForwarder, repo: InboxRepository)
      ensures this.forwarder == forwarder && this.repo == repo
    {
      this.forwarder := forwarder;
      this.repo := repo;
    }

    /**
     * Every inbox of the pid gets its forward, and each forward ends, posts and dead-letters as if
     * it had been the only one: a failure or an exception of one changes nothing for the others.
     * Without an inbox the parsed body is queued once as INBOX_NAO_REGISTRADA. Nothing is thrown.
     */
    method HandleIncoming(surface: Surface, rawBody: string, signature: Option<string>, body: Json,
                          parse: string -> Option<Json>, findThrows: bool, sendThrows: bool, world: InboxId -> World)
      returns (ghost routed: seq<InboxId>, fims: seq<Fim>)
      requires Unique(repo.inboxes)
      modifies forwarder
      ensures Routed(repo.inboxes, body, findThrows, routed)
      ensures var path := match surface
          case Instagram => "/webhooks/instagram"
          case InstagramLogin => "/webhooks/instagram-login"
          case Messenger => "/webhooks/messenger";
        var request := Request(path, rawBody, signature, parse);
        var jobs := Jobs(repo.inboxes, routed, old(forwarder.ambientes), old(forwarder.cache), world);
        && |fims| == |jobs|
        && (forall n :: 0 <= n < |jobs| ==> fims[n] == ForwardOutcome(jobs[n].inputs, jobs[n].idAmbiente))
        && forwarder.posts == old(forwarder.posts) + AllPosts(jobs, |jobs|, request)
        && forwarder.dlq == old(forwarder.dlq) + Queued(jobs, request, body, findThrows, sendThrows)
    {
      routed, fims := [], [];
      RowsAreThoseOfThePid(repo.inboxes, body);
      var pid := InstagramExtractPid(body);
      var res: seq<InboxId> := [];
      if pid.Some? {
        if findThrows {
          return;
        }
        res := repo.FindAllByPid(pid.value);
      }
      routed := res;
      if |res| == 0 {
        if !sendThrows {
          forwarder.dlq := forwarder.dlq + [DlqMessage(body, None, INBOX_NAO_REGISTRADA)];
        }
      } else {
        ghost var jobs := Jobs(repo.inboxes, res, forwarder.ambientes, forwarder.cache, world);
        fims := ForwardAll(res, Request(SubPath(surface), rawBody, signature, parse), world, jobs);
      }
    }

    /** The loop over the inboxes, whose `catch` keeps an exception from the next one. */
    method ForwardAll(res: seq<InboxId>, request: Request, world: InboxId -> World, ghost jobs: seq<Job>) returns (fims: seq<Fim>)
      requires |res| == |jobs| && forall n :: 0 <= n < |res| ==> res[n] in repo.inboxes
      requires forall n :: 0 <= n < |res| ==> jobs[n].inboxId == res[n] && jobs[n].idAmbiente == repo.inboxes[res[n]].idAmbiente
      requires forall n :: 0 <= n < |res| ==> jobs[n].inputs == Alone(forwarder.ambientes, forwarder.cache, world, res[n])
      requires DistinctAmbientes(jobs)
      modifies forwarder
      ensures |fims| == |jobs|
      ensures forall n :: 0 <= n < |jobs| ==> fims[n] == ForwardOutcome(jobs[n].inputs, jobs[n].idAmbiente)
      ensures forwarder.posts == old(forwarder.posts) + AllPosts(jobs, |jobs|, request)
      ensures forwarder.dlq == old(forwarder.dlq) + AllDeadLetters(jobs, |jobs|, request)
    {
      fims := [];
      for n := 0 to |res|
        invariant forwarder.ambientes == old(forwarder.ambientes)
        invariant Untouched(old(forwarder.cache), forwarder.cache, jobs, n)
        invariant |fims| == n && forall k :: 0 <= k < n ==> fims[k] == ForwardOutcome(jobs[k].inputs, jobs[k].idAmbiente)
        invariant forwarder.posts == old(forwarder.posts) + AllPosts(jobs, n, request)
        invariant forwarder.dlq == old(forwarder.dlq) + AllDeadLetters(jobs, n, request)
      {
        var inboxId := res[n];
        ghost var cache := forwarder.cache;
        var fim := ForwardJob(inboxId, repo.inboxes[inboxId].idAmbiente, request, world(inboxId), jobs, n,
                              old(forwarder.posts), old(forwarder.dlq));
        UntouchedNext(old(forwarder.cache), cache, forwarder.cache, jobs, n);
        fims := fims + [fim];
      }
    }

    /** A forward whose ambiente no earlier one had does what it would have done alone. */
    method ForwardJob(inboxId: InboxId, idAmbiente: int, request: Request, world: World, ghost jobs: seq<Job>, ghost n: nat,
                      ghost posts: seq<Post>, ghost dlq: seq<DlqMessage>)
      returns (fim: Fim)
      requires n < |jobs| && jobs[n] == Job(inboxId, idAmbiente, jobs[n].inputs)
      requires forwarder.In(world) == jobs[n].inputs.(cache := forwarder.cache)
      requires SameEntry(jobs[n].inputs.cache, forwarder.cache, idAmbiente)
      requires forwarder.posts == posts + AllPosts(jobs, n, request)
      requires forwarder.dlq == dlq + AllDeadLetters(jobs, n, request)
      modifies forwarder
      ensures forwarder.ambientes == old(forwarder.ambientes)
      ensures forall a :: a != idAmbiente ==> SameEntry(old(forwarder.cache), forwarder.cache, a)
      ensures fim == ForwardOutcome(jobs[n].inputs, idAmbiente)
      ensures forwarder.posts == posts + AllPosts(jobs, n + 1, request)
      ensures forwarder.dlq == dlq + AllDeadLetters(jobs, n + 1, request)
    {
      OwnEntryOnly(jobs[n].inputs, forwarder.In(world), idAmbiente, inboxId, request);
      fim := forwarder.Forward(inboxId, idAmbiente, request, world);
    }
  }
}

/** `RedirecionamentosWebhooksService`: copies of a webhook to the redirects of its ambientes. */
module Redirects {
  import opened Common
  import opened Json
  import opened Entities
  import opened Payload
  import opened Retry
  import opened Registry
  import opened Ingestion

  type Uid = string

  /** Without an ambiente a redirect is global; without an expiry it stays. */
  datatype Redirect = Redirect(url: string, idAmbiente: Option<int>, expira: Option<int>, del: bool)

  const MAX_RETRIES: nat := 5

  predicate Active(r: Redirect, now: int)
  {
    !r.del && (r.expira.None? || r.expira.value > now)
  }

  function ActiveFor(table: map<Uid, Redirect>, idAmbiente: int, now: int): set<Uid>
  {
    set u | u in table && Active(table[u], now) && (table[u].idAmbiente.None? || table[u].idAmbiente == Some(idAmbiente))
  }

  function Flatten(lists: seq<seq<Uid>>): seq<Uid>
  {
    if lists == [] then [] else Flatten(lists[..|lists| - 1]) + lists[|lists| - 1]
  }

  /** One list per ambiente: its active redirects and the global ones, each once, in any order. */
  ghost predicate ListsOf(table: map<Uid, Redirect>, ambientes: seq<int>, now: int, lists: seq<seq<Uid>>)
  {
    && |lists| == |ambientes|
    && forall n :: 0 <= n < |lists| ==> Elements(lists[n]) == ActiveFor(table, ambientes[n], now) && Distinct(lists[n])
  }

  /** The ambientes that have an active inbox of the payload's pid. */
  function AmbientesFor(inboxes: map<InboxId, Inbox>, payload: Json): set<int>
  {
    set id | id in inboxes && IsForPid(inboxes, payload, id) :: inboxes[id].idAmbiente
  }

  lemma AmbientesForExactly(inboxes: map<InboxId, Inbox>, payload: Json)
    requires !payload.Null?
    ensures var pid := ExtractPid(payload);
      AmbientesFor(inboxes, payload) == if pid.Some? then AmbientesOf(inboxes, PidRows(inboxes, pid.value)) else {}
  {
    ReadersFollowTheirPaths(payload);
    var pid := ExtractPid(payload);
    forall id | id in inboxes ensures IsForPid(inboxes, payload, id) <==> pid.Some? && id in PidRows(inboxes, pid.value) {
    }
  }

  /** What one `dispatch` may post to. */
  ghost predicate IsTargets(table: map<Uid, Redirect>, ambientes: set<int>, now: int, targets: seq<Uid>)
  {
    exists order: seq<int>, lists: seq<seq<Uid>> ::
      Distinct(order) && Elements(order) == ambientes && ListsOf(table, order, now, lists) && targets == Flatten(lists)
  }

  /** How often a redirect is among the targets, by what it is. */
  function Copies(table: map<Uid, Redirect>, ambientes: set<int>, now: int, u: Uid): nat
  {
    if u !in table || table[u].del || (table[u].expira.Some? && table[u].expira.value <= now) then 0
    else if table[u].idAmbiente.None? then |ambientes|
    else if table[u].idAmbiente.value in ambientes then 1
    else 0
  }

  /**
   * The targets are the active redirects of the ambientes, once each, and the active global ones,
   * once for every ambiente.
   */
  lemma TargetsExactly(table: map<Uid, Redirect>, ambientes: set<int>, now: int, targets: seq<Uid>, u: Uid)
    requires IsTargets(table, ambientes, now, targets)
    ensures multiset(targets)[u] == Copies(table, ambientes, now, u)
  {
    var order: seq<int>, lists: seq<seq<Uid>> :|
      Distinct(order) && Elements(order) == ambientes && ListsOf(table, order, now, lists) && targets == Flatten(lists);
    CopiesInLists(table, order, now, lists, u);
    DistinctSize(order);
  }

  lemma {:induction false} CopiesInLists(table: map<Uid, Redirect>, order: seq<int>, now: int, lists: seq<seq<Uid>>, u: Uid)
    requires Distinct(order) && ListsOf(table, order, now, lists)
    ensures multiset(Flatten(lists))[u] ==
      if u !in table || !Active(table[u], now) then 0
      else if table[u].idAmbiente.None? then |order|
      else if table[u].idAmbiente.value in order then 1
      else 0
  {
    if lists != [] {
      var n := |lists| - 1;
      CopiesInLists(table, order[..n], now, lists[..n], u);
      DistinctOnce(lists[n], u);
      assert u in lists[n] <==> u in ActiveFor(table, order[n], now) by {
        assert u in lists[n] <==> u in Elements(lists[n]);
      }
      assert order == order[..n] + [order[n]];
    }
  }

  lemma {:induction false} DistinctOnce(s: seq<Uid>, u: Uid)
    requires Distinct(s)
    ensures multiset(s)[u] == if u in s then 1 else 0
  {
    if s != [] {
      var n := |s| - 1;
      DistinctOnce(s[..n], u);
      assert s == s[..n] + [s[n]];
    }
  }

  /** A redirect is posted to exactly once per dispatch unless it is global and there are several ambientes. */
  lemma OnceExactly(table: map<Uid, Redirect>, ambientes: set<int>, now: int, targets: seq<Uid>, u: Uid)
    requires IsTargets(table, ambientes, now, targets) && u in targets
    ensures u in table && (multiset(targets)[u] == 1 <==> table[u].idAmbiente.Some? || |ambientes| == 1)
  {
    TargetsExactly(table, ambientes, now, targets, u);
  }

  /** The targets of the dispatches that one webhook sets off. */
  function Together(dispatches: seq<seq<Uid>>): multiset<Uid>
  {
    if dispatches == [] then multiset{} else Together(dispatches[..|dispatches| - 1]) + multiset(dispatches[|dispatches| - 1])
  }

  lemma {:induction false} TogetherOf(dispatches: seq<seq<Uid>>, u: Uid, c: nat)
    requires forall n :: 0 <= n < |dispatches| ==> multiset(dispatches[n])[u] == c
    ensures Together(dispatches)[u] == |dispatches| * c
  {
    if dispatches != [] {
      var n := |dispatches| - 1;
      TogetherOf(dispatches[..n], u, c);
      assert Together(dispatches)[u] == Together(dispatches[..n])[u] + multiset(dispatches[n])[u];
      MulNext(n, c);
    }
  }

  lemma MulNext(n: nat, c: nat)
    ensures n * c + c == (n + 1) * c
  {
  }

  /**
   * Each of the k `handle` calls of a webhook makes a whole dispatch of its own. So a webhook routed
   * by its pid to k ambientes starts k `sendWithRetry` calls to a redirect of one of them and k * k
   * to a global one that stay active: one only if k is 1.
   */
  lemma CopiesPerWebhook(table: map<Uid, Redirect>, inboxes: map<InboxId, Inbox>, payload: Json, routed: seq<InboxId>,
                         times: seq<int>, dispatches: seq<seq<Uid>>, u: Uid)
    requires !payload.Null? && AmbientesFor(inboxes, payload) != {}
    requires OnePerAmbiente(inboxes, Addressed(inboxes, payload), routed)
    requires |dispatches| == |times| == |routed|
    requires forall n :: 0 <= n < |dispatches| ==> IsTargets(table, AmbientesFor(inboxes, payload), times[n], dispatches[n])
    requires u in table && !table[u].del && forall n :: 0 <= n < |times| ==> table[u].expira.None? || times[n] < table[u].expira.value
    requires table[u].idAmbiente.Some? ==> table[u].idAmbiente.value in AmbientesFor(inboxes, payload)
    ensures Together(dispatches)[u] == if table[u].idAmbiente.None? then |routed| * |routed| else |routed|
    ensures Together(dispatches)[u] == 1 <==> |routed| == 1
  {
    var ambientes := AmbientesFor(inboxes, payload);
    RoutedByPid(inboxes, payload, routed);
    CopiesOverCalls(table, ambientes, times, dispatches, u);
    SquareOrOnce(|routed|, table[u].idAmbiente.None?, Together(dispatches)[u]);
  }

  lemma SquareOrOnce(k: nat, global: bool, copies: nat)
    requires k > 0 && copies == k * if global then k else 1
    ensures copies == if global then k * k else k
    ensures copies == 1 <==> k == 1
  {
    if k > 1 {
      assert k * k > k;
    }
  }

  lemma RoutedByPid(inboxes: map<InboxId, Inbox>, payload: Json, routed: seq<InboxId>)
    requires !payload.Null? && AmbientesFor(inboxes, payload) != {}
    requires OnePerAmbiente(inboxes, Addressed(inboxes, payload), routed)
    ensures |routed| == |AmbientesFor(inboxes, payload)| && routed != []
  {
    AmbientesForExactly(inboxes, payload);
    OnePerAmbienteCount(inboxes, Addressed(inboxes, payload), routed);
  }

  lemma CopiesOverCalls(table: map<Uid, Redirect>, ambientes: set<int>, times: seq<int>, dispatches: seq<seq<Uid>>, u: Uid)
    requires |dispatches| == |times|
    requires forall n :: 0 <= n < |dispatches| ==> IsTargets(table, ambientes, times[n], dispatches[n])
    requires u in table && !table[u].del && forall n :: 0 <= n < |times| ==> table[u].expira.None? || times[n] < table[u].expira.value
    requires table[u].idAmbiente.Some? ==> table[u].idAmbiente.value in ambientes
    ensures Together(dispatches)[u] == |dispatches| * if table[u].idAmbiente.None? then |ambientes| else 1
  {
    var c: nat := if table[u].idAmbiente.None? then |ambientes| else 1;
    forall n | 0 <= n < |dispatches| ensures multiset(dispatches[n])[u] == c {
      TargetsExactly(table, ambientes, times[n], dispatches[n], u);
    }
    TogetherOf(dispatches, u, c);
  }

  // --- The service ----------------------------------------------------------------------------

  /** Every target got its posts, as often as the retry specification says for its outcomes. */
  ghost predicate AllSent(table: map<Uid, Redirect>, targets: seq<Uid>, payload: Json, traces: seq<Trace>, sent: seq<seq<(string, Json)>>,
                          http: nat -> nat -> Attempt<()>, baseMs: int)
  {
    && |traces| == |targets| && |sent| == |targets|
    && forall n: nat :: n < |targets| ==>
         && targets[n] in table
         && RetrySpec(http(n), 5, baseMs, traces[n])
         && sent[n] == Times((table[targets[n]].url, payload), traces[n].posts)
  }

  class RedirecionamentosService {
    const repo: InboxRepository
    var table: map<Uid, Redirect>
    /** The posts, one list per `sendWithRetry` call; the calls run side by side. */
    var sent: seq<seq<(string, Json)>>

    constructor (repo: InboxRepository)
      ensures this.repo == repo && table == map[] && sent == []
    {
      this.repo := repo;
      table := map[];
      sent := [];
    }

    method FindActiveByAmbiente(idAmbiente: int, now: int) returns (res: seq<Uid>)
      ensures Elements(res) == ActiveFor(table, idAmbiente, now) && Distinct(res)
    {
      res := [];
      var rest := ActiveFor(table, idAmbiente, now);
      while rest != {}
        invariant rest <= ActiveFor(table, idAmbiente, now)
        invariant Elements(res) == ActiveFor(table, idAmbiente, now) - rest && Distinct(res)
        decreases |rest|
      {
        ghost var w := AnElement(rest);
        var u: Uid :| u in rest;
        assert u !in Elements(res);
        assert Elements(res + [u]) == Elements(res) + {u};
        res := res + [u];
        rest := rest - {u};
      }
    }

    /** `new Set(...)` in the order of first occurrence, then one query per ambiente. */
    method FindTargets(inboxes: seq<InboxId>, now: int) returns (targets: seq<Uid>)
      requires Elements(inboxes) <= repo.inboxes.Keys
      ensures IsTargets(table, AmbientesOf(repo.inboxes, Elements(inboxes)), now, targets)
      ensures forall u :: u in targets ==> u in table
    {
      var order: seq<int> := [];
      for n := 0 to |inboxes|
        invariant Distinct(order) && Elements(inboxes[..n]) <= repo.inboxes.Keys
        invariant Elements(order) == AmbientesOf(repo.inboxes, Elements(inboxes[..n]))
      {
        assert inboxes[n] in Elements(inboxes);
        var a := repo.inboxes[inboxes[n]].idAmbiente;
        assert inboxes[..n + 1] == inboxes[..n] + [inboxes[n]];
        assert Elements(inboxes[..n + 1]) == Elements(inboxes[..n]) + {inboxes[n]};
        assert Elements(order + [a]) == Elements(order) + {a};
        if a !in order {
          order := order + [a];
        }
      }
      assert inboxes[..|inboxes|] == inboxes;
      ghost var lists: seq<seq<Uid>> := [];
      targets := [];
      for n := 0 to |order|
        invariant ListsOf(table, order[..n], now, lists) && targets == Flatten(lists)
      {
        var list := FindActiveByAmbiente(order[n], now);
        assert (lists + [list])[..n] == lists;
        lists := lists + [list];
        targets := targets + list;
      }
      assert order[..|order|] == order;
      forall u | u in targets ensures u in table {
        TargetsExactly(table, AmbientesOf(repo.inboxes, Elements(inboxes)), now, targets, u);
      }
    }

    /**
     * Without inboxes for the pid nothing is sent; else every active redirect of their ambientes gets
     * its own retries, whatever becomes of the others.
     */
    method Dispatch(payload: Json, now: int, baseMs: int, http: nat -> nat -> Attempt<()>)
      returns (dispatched: nat, ghost targets: seq<Uid>, ghost traces: seq<Trace>)
      requires !payload.Null? && Unique(repo.inboxes)
      modifies `sent
      ensures IsTargets(table, AmbientesFor(repo.inboxes, payload), now, targets)
      ensures dispatched == |targets|
      ensures |sent| == |old(sent)| + |targets| && sent[..|old(sent)|] == old(sent)
      ensures AllSent(table, targets, payload, traces, sent[|old(sent)|..], http, baseMs)
    {
      dispatched, targets, traces := 0, [], [];
      ReadersFollowTheirPaths(payload);
      AmbientesForExactly(repo.inboxes, payload);
      var pid := RedirectExtractPid(payload);
      if pid.None? {
        NoTargets(table, now);
        return;
      }
      var inboxes := repo.FindAllByPid(pid.value);
      OnePerAmbienteCount(repo.inboxes, PidRows(repo.inboxes, pid.value), inboxes);
      if |inboxes| == 0 {
        NoTargets(table, now);
        return;
      }
      AmbsOfElements(repo.inboxes, inboxes);
      var redirects := FindTargets(inboxes, now);
      targets := redirects;
      traces := SendAll(redirects, payload, baseMs, http);
      dispatched := |redirects|;
    }

    method SendAll(targets: seq<Uid>, payload: Json, baseMs: int, http: nat -> nat -> Attempt<()>)
      returns (ghost traces: seq<Trace>)
      modifies `sent
      requires forall u :: u in targets ==> u in table
      ensures |sent| == |old(sent)| + |targets| && sent[..|old(sent)|] == old(sent)
      ensures AllSent(table, targets, payload, traces, sent[|old(sent)|..], http, baseMs)
    {
      traces := [];
      for n := 0 to |targets|
        invariant |sent| == |old(sent)| + n && sent[..|old(sent)|] == old(sent)
        invariant AllSent(table, targets[..n], payload, traces, sent[|old(sent)|..], http, baseMs)
      {
        var posts, t := SendWithRetry(table[targets[n]].url, payload, baseMs, http(n));
        sent := sent + [posts];
        traces := traces + [t];
      }
      assert targets[..|targets|] == targets;
    }

    method SendWithRetry(url: string, payload: Json, baseMs: int, http: nat -> Attempt<()>)
      returns (posts: seq<(string, Json)>, t: Trace)
      ensures RetrySpec(http, 5, baseMs, t)
      ensures posts == Times((url, payload), t.posts)
    {
      posts := [];
      var sleeps: seq<int> := [];
      var attempt: nat := 1;
      while attempt <= MAX_RETRIES
        invariant 1 <= attempt <= MAX_RETRIES + 1
        invariant forall k: nat :: 1 <= k < attempt ==> http(k).Fails?
        invariant posts == Times((url, payload), attempt - 1)
        invariant sleeps == Backoff(baseMs, if attempt <= MAX_RETRIES then attempt - 1 else MAX_RETRIES - 1)
      {
        posts := posts + [(url, payload)];
        TimesNext((url, payload), attempt - 1);
        if http(attempt).Succeeds? {
          return posts, Trace(attempt, sleeps, true);
        }
        if attempt < MAX_RETRIES {
          sleeps := sleeps + [baseMs * Pow2(attempt - 1)];
          BackoffNext(baseMs, attempt - 1);
        }
        attempt := attempt + 1;
      }
      t := Trace(MAX_RETRIES, sleeps, false);
    }
  }

  lemma NoTargets(table: map<Uid, Redirect>, now: int)
    ensures IsTargets(table, {}, now, [])
  {
    var order: seq<int>, lists: seq<seq<Uid>> := [], [];
    assert Elements(order) == {} && ListsOf(table, order, now, lists) && Flatten(lists) == [];
  }
}

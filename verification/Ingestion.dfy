/**
 * Routing of a webhook: the two registry queries, the one-inbox-per-ambiente selection of the
 * WABA path and `WebhookService.handleIncoming`.
 */
module Ingestion {
  import opened Common
  import opened Json
  import opened Entities
  import opened Payload
  import opened Registry

  // --- The queries ----------------------------------------------------------------------------

  predicate MatchesPid(row: Inbox, pid: string)
  {
    row.pid == pid && !row.del
  }

  predicate MatchesWaba(row: Inbox, waba: string)
  {
    row.wabaId == Some(waba) && !row.del
  }

  /** `ORDER BY id_ambiente, data`. */
  predicate Before(a: Inbox, b: Inbox)
  {
    a.idAmbiente < b.idAmbiente || (a.idAmbiente == b.idAmbiente && a.data <= b.data)
  }

  /** The rows `ids`, each once, in an order the ORDER BY allows. */
  ghost predicate Selects(inboxes: map<InboxId, Inbox>, ids: set<InboxId>, res: seq<InboxId>)
    requires ids <= inboxes.Keys
  {
    && Elements(res) == ids
    && Distinct(res)
    && (forall i, j :: 0 <= i < j < |res| ==>
          res[i] in inboxes && res[j] in inboxes && Before(inboxes[res[i]], inboxes[res[j]]))
  }

  lemma SelectsAppend(inboxes: map<InboxId, Inbox>, ids: set<InboxId>, res: seq<InboxId>, next: InboxId)
    requires ids <= inboxes.Keys && Selects(inboxes, ids, res)
    requires next in inboxes && next !in ids && forall o :: o in ids ==> Before(inboxes[o], inboxes[next])
    ensures Selects(inboxes, ids + {next}, res + [next])
  {
    assert forall i :: 0 <= i < |res| ==> res[i] in Elements(res);
    assert Elements(res + [next]) == Elements(res) + {next};
  }

  function PidRows(inboxes: map<InboxId, Inbox>, pid: string): set<InboxId>
  {
    set id | id in inboxes && MatchesPid(inboxes[id], pid)
  }

  function WabaRows(inboxes: map<InboxId, Inbox>, waba: string): set<InboxId>
  {
    set id | id in inboxes && MatchesWaba(inboxes[id], waba)
  }

  lemma {:induction false} FirstExists(inboxes: map<InboxId, Inbox>, ids: set<InboxId>) returns (first: InboxId)
    requires ids != {} && ids <= inboxes.Keys
    ensures first in ids && forall o :: o in ids ==> Before(inboxes[first], inboxes[o])
    decreases |ids|
  {
    var some :| some in ids;
    var rest := ids - {some};
    assert ids == rest + {some};
    if rest == {} {
      first := some;
    } else {
      first := FirstExists(inboxes, rest);
      if !Before(inboxes[first], inboxes[some]) {
        first := some;
      }
    }
  }

  // --- Routing --------------------------------------------------------------------------------

  function AmbientesOf(inboxes: map<InboxId, Inbox>, ids: set<InboxId>): set<int>
    requires ids <= inboxes.Keys
  {
    set id | id in ids :: inboxes[id].idAmbiente
  }

  /** The rows a payload addresses: those of its pid, or, if there are none, those of its WABA. */
  function Addressed(inboxes: map<InboxId, Inbox>, payload: Json): set<InboxId>
    requires !payload.Null?
  {
    var pid, waba := ExtractPid(payload), ExtractWabaId(payload);
    if pid.Some? && PidRows(inboxes, pid.value) != {} then PidRows(inboxes, pid.value)
    else if waba.Some? then WabaRows(inboxes, waba.value) else {}
  }

  function Ambs(inboxes: map<InboxId, Inbox>, res: seq<InboxId>): (ambs: seq<int>)
    requires Elements(res) <= inboxes.Keys
    ensures |ambs| == |res| && forall i :: 0 <= i < |res| ==> res[i] in inboxes && ambs[i] == inboxes[res[i]].idAmbiente
  {
    seq(|res|, i requires 0 <= i < |res| => (assert res[i] in Elements(res); inboxes[res[i]].idAmbiente))
  }

  ghost predicate Increasing(s: seq<int>)
  {
    forall i, j :: 0 <= i < j < |s| ==> s[i] < s[j]
  }

  /**
   * Exactly the ambientes of `ids`, in increasing order and so each once, and for each of them the
   * inbox registered first.
   */
  ghost predicate OnePerAmbiente(inboxes: map<InboxId, Inbox>, ids: set<InboxId>, res: seq<InboxId>)
    requires ids <= inboxes.Keys
  {
    && Elements(res) <= ids
    && Increasing(Ambs(inboxes, res))
    && Elements(Ambs(inboxes, res)) == AmbientesOf(inboxes, ids)
    && (forall r, id :: r in Elements(res) && id in ids && inboxes[r].idAmbiente == inboxes[id].idAmbiente ==>
          inboxes[r].data <= inboxes[id].data)
  }

  /** One dispatch per ambiente, and none exactly when nothing is addressed. */
  lemma OnePerAmbienteCount(inboxes: map<InboxId, Inbox>, ids: set<InboxId>, res: seq<InboxId>)
    requires ids <= inboxes.Keys && OnePerAmbiente(inboxes, ids, res)
    ensures |res| == |AmbientesOf(inboxes, ids)|
    ensures res == [] <==> ids == {}
  {
    DistinctSize(Ambs(inboxes, res));
    if ids != {} {
      var id :| id in ids;
      assert inboxes[id].idAmbiente in AmbientesOf(inboxes, ids);
    }
    if res != [] {
      assert res[0] in Elements(res);
    }
  }

  /** Under the registry's uniqueness the pid query already is one inbox per ambiente. */
  lemma PidQueryIsOnePerAmbiente(inboxes: map<InboxId, Inbox>, pid: string, res: seq<InboxId>)
    requires Unique(inboxes) && Selects(inboxes, PidRows(inboxes, pid), res)
    ensures OnePerAmbiente(inboxes, PidRows(inboxes, pid), res)
  {
    var ids := PidRows(inboxes, pid);
    assert forall i :: 0 <= i < |res| ==> res[i] in Elements(res);
    forall i, j | 0 <= i < j < |res|
      ensures Ambs(inboxes, res)[i] < Ambs(inboxes, res)[j]
    {
      assert Before(inboxes[res[i]], inboxes[res[j]]);
      assert OnPair(inboxes[res[i]], inboxes[res[j]].pid, inboxes[res[i]].idAmbiente);
      assert res[i] != res[j];
    }
    AmbsOfElements(inboxes, res);
    forall r, id | r in ids && id in ids && inboxes[r].idAmbiente == inboxes[id].idAmbiente ensures r == id {
      assert OnPair(inboxes[r], inboxes[id].pid, inboxes[id].idAmbiente);
    }
  }

  lemma AmbsOfElements(inboxes: map<InboxId, Inbox>, res: seq<InboxId>)
    requires Elements(res) <= inboxes.Keys
    ensures Elements(Ambs(inboxes, res)) == AmbientesOf(inboxes, Elements(res))
  {
    var ambs := Ambs(inboxes, res);
    forall a | a in AmbientesOf(inboxes, Elements(res)) ensures a in Elements(ambs) {
      var id :| id in Elements(res) && inboxes[id].idAmbiente == a;
      var i :| 0 <= i < |res| && res[i] == id;
      assert ambs[i] == a;
    }
    forall a | a in Elements(ambs) ensures a in AmbientesOf(inboxes, Elements(res)) {
      var i :| 0 <= i < |ambs| && ambs[i] == a;
      assert res[i] in Elements(res);
    }
  }

  /** The first record of an ambiente is its earliest one. */
  lemma TakeRecord(inboxes: map<InboxId, Inbox>, ids: set<InboxId>, res: seq<InboxId>, r: InboxId)
    requires ids <= inboxes.Keys && r in inboxes && OnePerAmbiente(inboxes, ids, res)
    requires forall o :: o in ids ==> Before(inboxes[o], inboxes[r])
    requires inboxes[r].idAmbiente !in Elements(Ambs(inboxes, res))
    ensures OnePerAmbiente(inboxes, ids + {r}, res + [r])
  {
    var amb := inboxes[r].idAmbiente;
    assert Elements(res + [r]) == Elements(res) + {r};
    assert Ambs(inboxes, res + [r]) == Ambs(inboxes, res) + [amb];
    assert AmbientesOf(inboxes, ids + {r}) == AmbientesOf(inboxes, ids) + {amb};
    assert Elements(Ambs(inboxes, res) + [amb]) == Elements(Ambs(inboxes, res)) + {amb};
    forall o | o in ids ensures inboxes[o].idAmbiente < amb {
      assert inboxes[o].idAmbiente in AmbientesOf(inboxes, ids);
    }
    forall i | 0 <= i < |res| ensures Ambs(inboxes, res)[i] < amb {
      assert res[i] in Elements(res);
    }
  }

  /** The `Map` of the WABA path: of each ambiente the first record. */
  function KeepFirst(inboxes: map<InboxId, Inbox>, records: seq<InboxId>): seq<InboxId>
  {
    if records == [] then [] else
    var n := |records| - 1;
    var kept := KeepFirst(inboxes, records[..n]);
    if exists b :: b in kept && b in inboxes && records[n] in inboxes && inboxes[b].idAmbiente == inboxes[records[n]].idAmbiente
    then kept else kept + [records[n]]
  }

  lemma SelectsPrefix(inboxes: map<InboxId, Inbox>, init: seq<InboxId>, r: InboxId)
    requires Elements(init + [r]) <= inboxes.Keys && Selects(inboxes, Elements(init + [r]), init + [r])
    ensures Elements(init + [r]) == Elements(init) + {r} && r in inboxes
    ensures Selects(inboxes, Elements(init), init)
    ensures forall o :: o in Elements(init) ==> Before(inboxes[o], inboxes[r])
  {
    var all := init + [r];
    assert all[|init|] == r && forall i :: 0 <= i < |init| ==> all[i] == init[i];
  }

  lemma {:induction false} KeepFirstIsOnePerAmbiente(inboxes: map<InboxId, Inbox>, records: seq<InboxId>)
    requires Elements(records) <= inboxes.Keys && Selects(inboxes, Elements(records), records)
    ensures OnePerAmbiente(inboxes, Elements(records), KeepFirst(inboxes, records))
  {
    if records != [] {
      var n := |records| - 1;
      var init, r := records[..n], records[n];
      assert records == init + [r];
      SelectsPrefix(inboxes, init, r);
      KeepFirstIsOnePerAmbiente(inboxes, init);
      KeepFirstNext(inboxes, init, r);
    }
  }

  lemma KeepFirstNext(inboxes: map<InboxId, Inbox>, init: seq<InboxId>, r: InboxId)
    requires Elements(init) <= inboxes.Keys && r in inboxes && OnePerAmbiente(inboxes, Elements(init), KeepFirst(inboxes, init))
    requires forall o :: o in Elements(init) ==> Before(inboxes[o], inboxes[r])
    ensures OnePerAmbiente(inboxes, Elements(init) + {r}, KeepFirst(inboxes, init + [r]))
  {
    var kept := KeepFirst(inboxes, init);
    assert (init + [r])[..|init|] == init;
    AmbsOfElements(inboxes, kept);
    if inboxes[r].idAmbiente in Elements(Ambs(inboxes, kept)) {
      assert AmbientesOf(inboxes, Elements(init) + {r}) == AmbientesOf(inboxes, Elements(init)) + {inboxes[r].idAmbiente};
    } else {
      TakeRecord(inboxes, Elements(init), kept, r);
    }
  }

  // --- The same in terms of the rows and the payload's texts ----------------------------------

  /** A row that is not deleted, with the pid that the payload has at its place. */
  predicate IsForPid(inboxes: map<InboxId, Inbox>, payload: Json, id: InboxId)
  {
    id in inboxes && !inboxes[id].del && inboxes[id].pid != "" && At(payload, PID_PATH) == Some(Str(inboxes[id].pid))
  }

  predicate IsForWaba(inboxes: map<InboxId, Inbox>, payload: Json, id: InboxId)
  {
    && id in inboxes && !inboxes[id].del && inboxes[id].wabaId.Some? && inboxes[id].wabaId.value != ""
    && At(payload, WABA_PATH) == Some(Str(inboxes[id].wabaId.value))
  }

  ghost predicate IsFor(inboxes: map<InboxId, Inbox>, payload: Json, id: InboxId)
  {
    IsForPid(inboxes, payload, id) || (IsForWaba(inboxes, payload, id) && forall o :: !IsForPid(inboxes, payload, o))
  }

  lemma AddressedExactly(inboxes: map<InboxId, Inbox>, payload: Json, id: InboxId)
    requires !payload.Null?
    ensures id in Addressed(inboxes, payload) <==> IsFor(inboxes, payload, id)
  {
    ReadersFollowTheirPaths(payload);
    var pid := ExtractPid(payload);
    forall o ensures IsForPid(inboxes, payload, o) <==> pid.Some? && o in PidRows(inboxes, pid.value) {
    }
    if pid.Some? && PidRows(inboxes, pid.value) != {} {
      var o :| o in PidRows(inboxes, pid.value);
      assert IsForPid(inboxes, payload, o);
    }
  }

  /**
   * `routed` are active rows that the payload is for, in strictly increasing order of their ambientes,
   * and each row that it is for has its ambiente among them, by a row at least as old.
   */
  ghost predicate RoutedRight(inboxes: map<InboxId, Inbox>, payload: Json, routed: seq<InboxId>)
  {
    && (forall id :: id in routed ==> id in inboxes && !inboxes[id].del && IsFor(inboxes, payload, id))
    && (forall i, j :: 0 <= i < j < |routed| ==>
          routed[i] in inboxes && routed[j] in inboxes && inboxes[routed[i]].idAmbiente < inboxes[routed[j]].idAmbiente)
    && (forall id :: IsFor(inboxes, payload, id) ==> Covered(inboxes, routed, id))
  }

  predicate Covered(inboxes: map<InboxId, Inbox>, routed: seq<InboxId>, id: InboxId)
  {
    id in inboxes && exists r :: r in routed && r in inboxes
                                 && inboxes[r].idAmbiente == inboxes[id].idAmbiente && inboxes[r].data <= inboxes[id].data
  }

  lemma OnePerAmbienteCovers(inboxes: map<InboxId, Inbox>, ids: set<InboxId>, res: seq<InboxId>, id: InboxId)
    requires ids <= inboxes.Keys && OnePerAmbiente(inboxes, ids, res) && id in ids
    ensures Covered(inboxes, res, id)
  {
    var ambs := Ambs(inboxes, res);
    assert inboxes[id].idAmbiente in Elements(ambs);
    var i :| 0 <= i < |ambs| && ambs[i] == inboxes[id].idAmbiente;
    assert res[i] in Elements(res);
  }

  /** Rows of `ids`, their ambientes in strictly increasing order, and each row of `ids` covered. */
  ghost predicate Chosen(inboxes: map<InboxId, Inbox>, ids: set<InboxId>, res: seq<InboxId>)
  {
    && (forall id :: id in res ==> id in ids)
    && (forall i, j :: 0 <= i < j < |res| ==>
          res[i] in inboxes && res[j] in inboxes && inboxes[res[i]].idAmbiente < inboxes[res[j]].idAmbiente)
    && (forall id :: id in ids ==> Covered(inboxes, res, id))
  }

  lemma OnePerAmbienteChooses(inboxes: map<InboxId, Inbox>, ids: set<InboxId>, res: seq<InboxId>)
    requires ids <= inboxes.Keys && OnePerAmbiente(inboxes, ids, res)
    ensures Chosen(inboxes, ids, res)
  {
    forall id | id in res ensures id in ids {
      assert id in Elements(res);
    }
    var ambs := Ambs(inboxes, res);
    assert forall i, j :: 0 <= i < j < |res| ==> ambs[i] < ambs[j];
    forall id | id in ids ensures Covered(inboxes, res, id) {
      OnePerAmbienteCovers(inboxes, ids, res, id);
    }
  }

  lemma ChosenIsRight(inboxes: map<InboxId, Inbox>, payload: Json, ids: set<InboxId>, res: seq<InboxId>)
    requires Chosen(inboxes, ids, res) && ids <= inboxes.Keys
    requires forall id :: id in ids <==> IsFor(inboxes, payload, id)
    ensures RoutedRight(inboxes, payload, res)
  {
  }

  lemma RoutedRightIs(inboxes: map<InboxId, Inbox>, payload: Json, routed: seq<InboxId>)
    requires !payload.Null? && OnePerAmbiente(inboxes, Addressed(inboxes, payload), routed)
    ensures RoutedRight(inboxes, payload, routed)
    ensures routed == [] <==> forall id :: !IsFor(inboxes, payload, id)
  {
    var ids := Addressed(inboxes, payload);
    forall id ensures id in ids <==> IsFor(inboxes, payload, id) {
      AddressedExactly(inboxes, payload, id);
    }
    OnePerAmbienteChooses(inboxes, ids, routed);
    ChosenIsRight(inboxes, payload, ids, routed);
    OnePerAmbienteCount(inboxes, ids, routed);
  }

  /** What `resolverInboxes` makes of the rows that its two queries answer. */
  function Resolved(inboxes: map<InboxId, Inbox>, payload: Json, pidRows: seq<InboxId>, wabaRows: seq<InboxId>): seq<InboxId>
    requires !payload.Null?
  {
    if ExtractPid(payload).Some? && pidRows != [] then pidRows
    else if ExtractWabaId(payload).Some? then KeepFirst(inboxes, wabaRows) else []
  }

  /** Answers that the database may give to the queries that `resolverInboxes` makes. */
  ghost predicate Answers(inboxes: map<InboxId, Inbox>, payload: Json, pidRows: seq<InboxId>, wabaRows: seq<InboxId>)
    requires !payload.Null?
  {
    var pid, waba := ExtractPid(payload), ExtractWabaId(payload);
    && (pid.Some? ==> Selects(inboxes, PidRows(inboxes, pid.value), pidRows))
    && (waba.Some? && (pid.Some? ==> pidRows == []) ==> Selects(inboxes, WabaRows(inboxes, waba.value), wabaRows))
  }

  /** The two queries of `InboxPrismaRepository` that route webhooks. */
  class InboxRepository {
    var inboxes: map<InboxId, Inbox>

    constructor (inboxes: map<InboxId, Inbox>)
      ensures this.inboxes == inboxes
    {
      this.inboxes := inboxes;
    }

    /** A `findMany` over the chosen rows: any order the ORDER BY allows. */
    method FindMany(ids: set<InboxId>) returns (res: seq<InboxId>)
      requires ids <= inboxes.Keys
      ensures Selects(inboxes, ids, res)
    {
      res := [];
      var rest := ids;
      while rest != {}
        invariant rest <= ids && Selects(inboxes, ids - rest, res)
        invariant forall o, p :: o in ids - rest && p in rest ==> Before(inboxes[o], inboxes[p])
        decreases |rest|
      {
        ghost var w := FirstExists(inboxes, rest);
        var next :| next in rest && forall o :: o in rest ==> Before(inboxes[next], inboxes[o]);
        SelectsAppend(inboxes, ids - rest, res, next);
        assert ids - rest + {next} == ids - (rest - {next});
        res := res + [next];
        rest := rest - {next};
      }
      assert ids - rest == ids;
    }

    method FindAllByPid(pid: string) returns (res: seq<InboxId>)
      requires Unique(inboxes)
      ensures Selects(inboxes, PidRows(inboxes, pid), res)
      ensures OnePerAmbiente(inboxes, PidRows(inboxes, pid), res)
    {
      res := FindMany(PidRows(inboxes, pid));
      PidQueryIsOnePerAmbiente(inboxes, pid, res);
    }

    /** The `Map` that keeps the first record of each ambiente. */
    method FindAllByWabaId(waba: string) returns (res: seq<InboxId>, ghost found: seq<InboxId>)
      ensures Selects(inboxes, WabaRows(inboxes, waba), found) && res == KeepFirst(inboxes, found)
      ensures OnePerAmbiente(inboxes, WabaRows(inboxes, waba), res)
    {
      var records := FindMany(WabaRows(inboxes, waba));
      found := records;
      var porAmbiente: set<int> := {};
      res := [];
      for n := 0 to |records|
        invariant res == KeepFirst(inboxes, records[..n])
        invariant porAmbiente == set b | b in res && b in inboxes :: inboxes[b].idAmbiente
      {
        var r := records[n];
        assert r in Elements(records) && records[..n + 1][..n] == records[..n];
        if inboxes[r].idAmbiente !in porAmbiente {
          porAmbiente := porAmbiente + {inboxes[r].idAmbiente};
          res := res + [r];
        }
      }
      assert records[..|records|] == records;
      KeepFirstIsOnePerAmbiente(inboxes, records);
    }
  }

  class WebhookService {
    const repo: InboxRepository
    var dispatched: seq<InboxId>
    var dlq: seq<DlqMessage>

    constructor (repo: InboxRepository)
      ensures this.repo == repo && dispatched == [] && dlq == []
    {
      this.repo := repo;
      dispatched := [];
      dlq := [];
    }

    ghost predicate Valid()
      reads repo
    {
      Unique(repo.inboxes)
    }

    method ResolverInboxes(payload: Json) returns (res: seq<InboxId>, ghost pidRows: seq<InboxId>, ghost wabaRows: seq<InboxId>)
      requires Valid() && !payload.Null?
      ensures Answers(repo.inboxes, payload, pidRows, wabaRows) && res == Resolved(repo.inboxes, payload, pidRows, wabaRows)
      ensures OnePerAmbiente(repo.inboxes, Addressed(repo.inboxes, payload), res)
    {
      pidRows, wabaRows := [], [];
      var pid := ExtractPid(payload);
      if pid.Some? {
        res := repo.FindAllByPid(pid.value);
        pidRows := res;
        OnePerAmbienteCount(repo.inboxes, PidRows(repo.inboxes, pid.value), res);
        if |res| > 0 {
          return;
        }
      }
      var waba := ExtractWabaId(payload);
      if waba.Some? {
        res, wabaRows := repo.FindAllByWabaId(waba.value);
        OnePerAmbienteCount(repo.inboxes, WabaRows(repo.inboxes, waba.value), res);
        if |res| > 0 {
          return;
        }
      }
      return [], pidRows, wabaRows;
    }

    /**
     * Each ambiente that has an addressed inbox gets exactly one dispatch, to its earliest one;
     * exactly when there is none the payload is queued once as INBOX_NAO_REGISTRADA.
     */
    method HandleIncoming(payload: Json) returns (ghost routed: seq<InboxId>)
      requires Valid() && !payload.Null?
      modifies `dispatched, `dlq
      ensures dispatched == old(dispatched) + routed
      ensures RoutedRight(repo.inboxes, payload, routed)
      ensures dlq == old(dlq) +
        if exists id :: IsFor(repo.inboxes, payload, id) then [] else [DlqMessage(payload, None, INBOX_NAO_REGISTRADA)]
    {
      var resolved, pidRows, wabaRows := ResolverInboxes(payload);
      RoutedRightIs(repo.inboxes, payload, resolved);
      routed := resolved;
      if |resolved| == 0 {
        dlq := dlq + [DlqMessage(payload, None, INBOX_NAO_REGISTRADA)];
      } else {
        DispatchAll(resolved);
      }
    }

    /** One un-awaited `handle` per resolved inbox. */
    method DispatchAll(resolved: seq<InboxId>)
      modifies `dispatched
      ensures dispatched == old(dispatched) + resolved
    {
      for n := 0 to |resolved|
        invariant dispatched == old(dispatched) + resolved[..n]
      {
        dispatched := dispatched + [resolved[n]];
      }
      assert resolved[..|resolved|] == resolved;
    }
  }

  /**
   * In every registry that a run of registry operations produces, whatever order the database answers
   * in: each addressed ambiente once, its earliest inbox, and nothing exactly if none is addressed.
   */
  lemma RoutingOverEveryRun(run: seq<Tables>, payload: Json, pidRows: seq<InboxId>, wabaRows: seq<InboxId>)
    requires |run| > 0 && run[0].inboxes == map[]
    requires forall k :: 0 <= k < |run| - 1 ==> RegistryStep(run[k], run[k + 1])
    requires !payload.Null? && Answers(run[|run| - 1].inboxes, payload, pidRows, wabaRows)
    ensures var inboxes := run[|run| - 1].inboxes;
      var res := Resolved(inboxes, payload, pidRows, wabaRows);
      && RoutedRight(inboxes, payload, res)
      && |res| == |AmbientesOf(inboxes, Addressed(inboxes, payload))|
      && (res == [] <==> forall id :: !IsFor(inboxes, payload, id))
  {
    RunKeepsUnique(run);
    var inboxes := run[|run| - 1].inboxes;
    var pid, waba := ExtractPid(payload), ExtractWabaId(payload);
    if pid.Some? {
      PidQueryIsOnePerAmbiente(inboxes, pid.value, pidRows);
      OnePerAmbienteCount(inboxes, PidRows(inboxes, pid.value), pidRows);
    }
    if waba.Some? && (pid.Some? ==> pidRows == []) {
      KeepFirstIsOnePerAmbiente(inboxes, wabaRows);
    }
    var res := Resolved(inboxes, payload, pidRows, wabaRows);
    OnePerAmbienteCount(inboxes, Addressed(inboxes, payload), res);
    RoutedRightIs(inboxes, payload, res);
  }

  /** A deleted inbox gets no webhook, in any later registry, until a create revives it. */
  lemma DeletedIsNotRouted(run: seq<Tables>, id: InboxId, payload: Json, routed: seq<InboxId>)
    requires |run| > 0 && Unique(run[0].inboxes) && id in run[0].inboxes && run[0].inboxes[id].del
    requires forall k :: 0 <= k < |run| - 1 ==> RegistryStep(run[k], run[k + 1]) && !Revives(run[k], id, run[k + 1])
    requires RoutedRight(run[|run| - 1].inboxes, payload, routed)
    ensures id !in routed
  {
    StaysDeleted(run, id, |run| - 1);
  }
}

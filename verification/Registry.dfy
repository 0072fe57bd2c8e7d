/**
 * The inbox registry: `InboxService` over `InboxPrismaRepository`. A pair (pid, id_ambiente) is
 * held by at most one row, soft-deleted rows included; re-creating a deleted pair revives its row.
 */
module Registry {
  import opened Common
  import opened Entities

  datatype CreateDto = CreateDto(idAmbiente: int, pid: string, nome: string, wabaId: Option<string>)

  /** An omitted field keeps its value; `null` clears the WABA. */
  datatype WabaChange = KeepWaba | ClearWaba | SetWaba(id: string)
  datatype UpdateDto = UpdateDto(nome: Option<string>, idAmbiente: Option<int>, waba: WabaChange)

  datatype Answer =
    | Ok(id: InboxId)
    | Conflict
    | BadRequest
    | NotFound
    | UniqueViolation      // P2002
    | ForeignKeyViolation  // P2003

  datatype Tables = Tables(inboxes: map<InboxId, Inbox>, ambientes: map<int, Ambiente>)

  predicate OnPair(row: Inbox, pid: string, idAmbiente: int)
  {
    row.pid == pid && row.idAmbiente == idAmbiente
  }

  ghost predicate Unique(inboxes: map<InboxId, Inbox>)
  {
    forall a, b :: a in inboxes && b in inboxes && OnPair(inboxes[a], inboxes[b].pid, inboxes[b].idAmbiente) ==> a == b
  }

  ghost predicate Holds(t: Tables, pid: string, idAmbiente: int, del: bool)
  {
    exists id :: id in t.inboxes && OnPair(t.inboxes[id], pid, idAmbiente) && t.inboxes[id].del == del
  }

  /** The revived row: same id, ambiente, pid and date; name and WABA only if they were given. */
  function Revived(row: Inbox, dto: CreateDto): Inbox
  {
    row.(del := false,
         nome := if dto.nome != "" then dto.nome else row.nome,
         wabaId := if dto.wabaId.Some? && dto.wabaId.value != "" then dto.wabaId else row.wabaId)
  }

  function Inserted(dto: CreateDto, now: int): Inbox
  {
    Inbox(dto.idAmbiente, dto.pid, dto.nome, false, now, dto.wabaId)
  }

  function Updated(row: Inbox, dto: UpdateDto): Inbox
  {
    row.(nome := if dto.nome.Some? then dto.nome.value else row.nome,
         idAmbiente := if dto.idAmbiente.Some? then dto.idAmbiente.value else row.idAmbiente,
         wabaId := match dto.waba case KeepWaba => row.wabaId case ClearWaba => None case SetWaba(w) => Some(w))
  }

  /**
   * After a create the row is active and of the pair it was asked for. A new one has the name and WABA
   * that were given and is dated now; a row that was there keeps its date, and its own where none was given.
   */
  ghost predicate Created(was: map<InboxId, Inbox>, dto: CreateDto, now: int, id: InboxId, inboxes: map<InboxId, Inbox>)
  {
    && inboxes.Keys == was.Keys + {id}
    && (forall o :: o in was && o != id ==> inboxes[o] == was[o])
    && inboxes[id].pid == dto.pid && inboxes[id].idAmbiente == dto.idAmbiente && !inboxes[id].del
    && inboxes[id].nome == (if dto.nome != "" || id !in was then dto.nome else was[id].nome)
    && inboxes[id].wabaId == (if id !in was || dto.wabaId !in {None, Some("")} then dto.wabaId else was[id].wabaId)
    && inboxes[id].data == (if id in was then was[id].data else now)
  }

  /** What `create` may answer and leave behind; `newId` is the UUID the database would draw. */
  ghost predicate CreateSpec(t: Tables, dto: CreateDto, newId: InboxId, now: int, t': Tables, a: Answer)
  {
    t'.ambientes == t.ambientes &&
    match a
    case Conflict => t' == t && Holds(t, dto.pid, dto.idAmbiente, false)
    case BadRequest =>
      t' == t && !Holds(t, dto.pid, dto.idAmbiente, false) && FindAmbiente(t.ambientes, dto.idAmbiente).None?
    case Ok(id) =>
      && !Holds(t, dto.pid, dto.idAmbiente, false) && FindAmbiente(t.ambientes, dto.idAmbiente).Some?
      && if Holds(t, dto.pid, dto.idAmbiente, true) then
           id in t.inboxes && OnPair(t.inboxes[id], dto.pid, dto.idAmbiente)
           && t'.inboxes == t.inboxes[id := Revived(t.inboxes[id], dto)]
         else id == newId && t'.inboxes == t.inboxes[newId := Inserted(dto, now)]
    case _ => false
  }

  ghost predicate UpdateSpec(t: Tables, id: InboxId, dto: UpdateDto, t': Tables, a: Answer)
  {
    t'.ambientes == t.ambientes &&
    var row := FindInbox(t.inboxes, id);
    match a
    case NotFound => t' == t && row.None?
    case UniqueViolation =>
      t' == t && row.Some? &&
      exists o :: o in t.inboxes && o != id && OnPair(t.inboxes[o], row.value.pid, Updated(row.value, dto).idAmbiente)
    case ForeignKeyViolation =>
      t' == t && row.Some? && Updated(row.value, dto).idAmbiente !in t.ambientes
    case Ok(i) =>
      && i == id && row.Some? && t'.inboxes == t.inboxes[id := Updated(row.value, dto)]
      && (forall o :: o in t.inboxes && o != id ==>
            !OnPair(t.inboxes[o], row.value.pid, Updated(row.value, dto).idAmbiente))
    case _ => false
  }

  ghost predicate SoftDeleteSpec(t: Tables, id: InboxId, t': Tables, a: Answer)
  {
    var row := FindInbox(t.inboxes, id);
    if row.None? then a == NotFound && t' == t
    else a == Ok(id) && t' == t.(inboxes := t.inboxes[id := row.value.(del := true)])
  }

  class InboxService {
    var inboxes: map<InboxId, Inbox>
    var ambientes: map<int, Ambiente>

    ghost function T(): Tables
      reads this
    {
      Tables(inboxes, ambientes)
    }

    ghost predicate Valid()
      reads this
    {
      Unique(inboxes) && forall id :: id in inboxes ==> inboxes[id].idAmbiente in ambientes
    }

    /** `findFirst({ pid, id_ambiente, del })`. */
    method FindPair(pid: string, idAmbiente: int, del: bool) returns (id: Option<InboxId>)
      ensures id.None? <==> !Holds(T(), pid, idAmbiente, del)
      ensures id.Some? ==> id.value in inboxes && OnPair(inboxes[id.value], pid, idAmbiente) && inboxes[id.value].del == del
    {
      if found :| found in inboxes && OnPair(inboxes[found], pid, idAmbiente) && inboxes[found].del == del {
        return Some(found);
      }
      return None;
    }

    /** `repo.create`: the ambiente must be active, and the database enforces the unique pair. */
    method InsertRow(dto: CreateDto, newId: InboxId, now: int) returns (a: Answer)
      requires newId !in inboxes
      modifies `inboxes
      ensures a.BadRequest? <==> FindAmbiente(ambientes, dto.idAmbiente).None?
      ensures !a.BadRequest? ==>
        (a.UniqueViolation? <==> old(Holds(T(), dto.pid, dto.idAmbiente, false) || Holds(T(), dto.pid, dto.idAmbiente, true)))
      ensures a == Ok(newId) || a.BadRequest? || a.UniqueViolation?
      ensures inboxes == if a.Ok? then old(inboxes)[newId := Inserted(dto, now)] else old(inboxes)
    {
      if FindAmbiente(ambientes, dto.idAmbiente).None? {
        return BadRequest;
      }
      var live := FindPair(dto.pid, dto.idAmbiente, false);
      var dead := FindPair(dto.pid, dto.idAmbiente, true);
      if live.Some? || dead.Some? {
        return UniqueViolation;
      }
      inboxes := inboxes[newId := Inserted(dto, now)];
      return Ok(newId);
    }

    /** Conflict, revive or insert; the insert is never reached with the pair occupied. */
    method Create(dto: CreateDto, newId: InboxId, now: int) returns (a: Answer)
      requires Valid() && newId !in inboxes
      modifies `inboxes
      ensures Valid()
      ensures CreateSpec(old(T()), dto, newId, now, T(), a)
      ensures a.Ok? ==> Holds(T(), dto.pid, dto.idAmbiente, false) && Created(old(inboxes), dto, now, a.id, inboxes)
    {
      var existing := FindPair(dto.pid, dto.idAmbiente, false);
      if existing.Some? {
        return Conflict;
      }
      var deleted := FindPair(dto.pid, dto.idAmbiente, true);
      if deleted.Some? {
        if FindAmbiente(ambientes, dto.idAmbiente).None? {
          return BadRequest;
        }
        inboxes := inboxes[deleted.value := Revived(inboxes[deleted.value], dto)];
        assert OnPair(inboxes[deleted.value], dto.pid, dto.idAmbiente);
        return Ok(deleted.value);
      }
      a := InsertRow(dto, newId, now);
      assert a.Ok? ==> OnPair(inboxes[newId], dto.pid, dto.idAmbiente);
    }

    method Update(id: InboxId, dto: UpdateDto) returns (a: Answer)
      requires Valid()
      modifies `inboxes
      ensures Valid()
      ensures UpdateSpec(old(T()), id, dto, T(), a)
      ensures a.NotFound? <==> id !in old(inboxes) || old(inboxes)[id].del
      ensures a.Ok? ==> var row := old(inboxes)[id];
        inboxes == old(inboxes)[id := Inbox(
          if dto.idAmbiente.Some? then dto.idAmbiente.value else row.idAmbiente, row.pid,
          if dto.nome.Some? then dto.nome.value else row.nome, false, row.data,
          if dto.waba == KeepWaba then row.wabaId else if dto.waba == ClearWaba then None else Some(dto.waba.id))]
    {
      var row := FindInbox(inboxes, id);
      if row.None? {
        return NotFound;
      }
      var updated := Updated(row.value, dto);
      if other :| other in inboxes && other != id && OnPair(inboxes[other], updated.pid, updated.idAmbiente) {
        return UniqueViolation;
      }
      if updated.idAmbiente !in ambientes {
        return ForeignKeyViolation;
      }
      inboxes := inboxes[id := updated];
      return Ok(id);
    }

    method SoftDelete(id: InboxId) returns (a: Answer)
      requires Valid()
      modifies `inboxes
      ensures Valid()
      ensures SoftDeleteSpec(old(T()), id, T(), a)
      ensures a.NotFound? <==> id !in old(inboxes) || old(inboxes)[id].del
      ensures !a.NotFound? ==> id in inboxes && inboxes == old(inboxes)[id := old(inboxes)[id].(del := true)]
    {
      var row := FindInbox(inboxes, id);
      if row.None? {
        return NotFound;
      }
      inboxes := inboxes[id := row.value.(del := true)];
      return Ok(id);
    }
  }

  // --- Every reachable registry ---------------------------------------------------------------

  ghost predicate RegistryStep(t: Tables, t': Tables)
  {
    || (t'.inboxes == t.inboxes && t.ambientes.Keys <= t'.ambientes.Keys)   // ambientes come and go softly
    || (exists dto, newId, now, a :: newId !in t.inboxes && CreateSpec(t, dto, newId, now, t', a))
    || (exists id, dto, a :: UpdateSpec(t, id, dto, t', a))
    || (exists id, a :: SoftDeleteSpec(t, id, t', a))
  }

  /** No row is lost and none changes its pid. */
  ghost predicate Extends(inboxes: map<InboxId, Inbox>, inboxes': map<InboxId, Inbox>)
  {
    forall id :: id in inboxes ==> id in inboxes' && inboxes'[id].pid == inboxes[id].pid
  }

  lemma CreateKeepsUnique(t: Tables, dto: CreateDto, newId: InboxId, now: int, t': Tables, a: Answer)
    requires Unique(t.inboxes) && newId !in t.inboxes && CreateSpec(t, dto, newId, now, t', a)
    ensures Unique(t'.inboxes) && Extends(t.inboxes, t'.inboxes)
  {
    // A row that is not deleted holds its pair as live, any other as deleted.
    forall id | id in t.inboxes
      ensures Holds(t, t.inboxes[id].pid, t.inboxes[id].idAmbiente, t.inboxes[id].del)
    {
      assert OnPair(t.inboxes[id], t.inboxes[id].pid, t.inboxes[id].idAmbiente);
    }
  }

  lemma StepKeepsUnique(t: Tables, t': Tables)
    requires Unique(t.inboxes) && RegistryStep(t, t')
    ensures Unique(t'.inboxes) && Extends(t.inboxes, t'.inboxes)
  {
    if dto, newId, now, a :| newId !in t.inboxes && CreateSpec(t, dto, newId, now, t', a) {
      CreateKeepsUnique(t, dto, newId, now, t', a);
    } else if id, dto, a :| UpdateSpec(t, id, dto, t', a) {
    }
  }

  /** Over every run: one row per pair, and rows neither disappear nor change their pid. */
  lemma RunKeepsUnique(run: seq<Tables>)
    requires |run| > 0 && Unique(run[0].inboxes)
    requires forall k :: 0 <= k < |run| - 1 ==> RegistryStep(run[k], run[k + 1])
    ensures Unique(run[|run| - 1].inboxes)
    ensures Extends(run[0].inboxes, run[|run| - 1].inboxes)
  {
    StatesKeepUnique(run, |run| - 1);
  }

  lemma {:induction false} StatesKeepUnique(run: seq<Tables>, n: nat)
    requires n < |run| && Unique(run[0].inboxes)
    requires forall k :: 0 <= k < |run| - 1 ==> RegistryStep(run[k], run[k + 1])
    ensures Unique(run[n].inboxes) && Extends(run[0].inboxes, run[n].inboxes)
  {
    if n > 0 {
      StatesKeepUnique(run, n - 1);
      assert RegistryStep(run[n - 1], run[n - 1 + 1]);
      StepKeepsUnique(run[n - 1], run[n]);
    }
  }

  /** A create that answers the id of a deleted row. */
  ghost predicate Revives(t: Tables, id: InboxId, t': Tables)
  {
    id in t.inboxes && t.inboxes[id].del && exists dto, newId, now :: newId !in t.inboxes && CreateSpec(t, dto, newId, now, t', Ok(id))
  }

  lemma OnlyCreateRevives(t: Tables, id: InboxId, t': Tables)
    requires Unique(t.inboxes) && RegistryStep(t, t') && id in t.inboxes && t.inboxes[id].del && !Revives(t, id, t')
    ensures id in t'.inboxes && t'.inboxes[id].del
  {
    if dto, newId, now, a :| newId !in t.inboxes && CreateSpec(t, dto, newId, now, t', a) {
    }
  }

  lemma {:induction false} StaysDeleted(run: seq<Tables>, id: InboxId, n: nat)
    requires n < |run| && Unique(run[0].inboxes) && id in run[0].inboxes && run[0].inboxes[id].del
    requires forall k :: 0 <= k < |run| - 1 ==> RegistryStep(run[k], run[k + 1]) && !Revives(run[k], id, run[k + 1])
    ensures id in run[n].inboxes && run[n].inboxes[id].del
  {
    if n > 0 {
      StaysDeleted(run, id, n - 1);
      StatesKeepUnique(run, n - 1);
      assert RegistryStep(run[n - 1], run[n - 1 + 1]) && !Revives(run[n - 1], id, run[n - 1 + 1]);
      OnlyCreateRevives(run[n - 1], id, run[n]);
    }
  }

  /** Once created, the pair is taken: another create of it is a conflict and changes nothing. */
  lemma SecondCreateConflicts(t: Tables, dto: CreateDto, newId: InboxId, now: int, t1: Tables, id: InboxId,
                              again: CreateDto, otherId: InboxId, later: int, t2: Tables, b: Answer)
    requires newId !in t.inboxes && CreateSpec(t, dto, newId, now, t1, Ok(id))
    requires again.pid == dto.pid && again.idAmbiente == dto.idAmbiente && CreateSpec(t1, again, otherId, later, t2, b)
    ensures b == Conflict && t2 == t1
  {
    assert OnPair(t1.inboxes[id], dto.pid, dto.idAmbiente);
  }

  /**
   * Re-onboarding: after a soft delete, creating the same pair gives back the very same row, in
   * the same ambiente, whatever id the database would have drawn.
   */
  lemma DeleteThenCreateRevives(t: Tables, id: InboxId, t1: Tables, a: Answer, dto: CreateDto, newId: InboxId, now: int,
                                t2: Tables, b: Answer)
    requires Unique(t.inboxes) && FindInbox(t.inboxes, id).Some? && newId !in t.inboxes
    requires SoftDeleteSpec(t, id, t1, a)
    requires OnPair(t.inboxes[id], dto.pid, dto.idAmbiente) && FindAmbiente(t.ambientes, dto.idAmbiente).Some?
    requires CreateSpec(t1, dto, newId, now, t2, b)
    ensures b == Ok(id) && Created(t.inboxes, dto, now, id, t2.inboxes)
    ensures id in t2.inboxes && !t2.inboxes[id].del && t2.inboxes[id].data == t.inboxes[id].data
    ensures dto.nome == "" && dto.wabaId in {None, Some("")} ==> t2 == t
  {
    assert t1.inboxes[id] == t.inboxes[id].(del := true);
    assert Holds(t1, dto.pid, dto.idAmbiente, true);
    assert forall o :: o in t1.inboxes && OnPair(t1.inboxes[o], dto.pid, dto.idAmbiente) ==> o == id;
  }
}

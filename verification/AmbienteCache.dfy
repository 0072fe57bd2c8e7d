/**
 * The ambiente cache used sequentially: `AmbienteService` writes the table and then the Redis entry,
 * the two cache-aside readers fill what they miss, and entries expire.
 */
module AmbienteCache {
  import opened Common
  import opened Entities

  /** Seconds an entry lives. */
  const CACHE_TTL := 3600

  datatype Entry = Entry(value: Ambiente, expires: int)

  datatype Answer = Ok(ambiente: Ambiente) | Done | Conflict | NotFound | UniqueViolation

  function ActiveIds(table: map<int, Ambiente>): set<int>
  {
    set id | id in table && !table[id].del
  }

  /** `warm` has entries for the rows `ids`, and is `redis` elsewhere. */
  ghost predicate Warmed(redis: map<int, Entry>, warm: map<int, Entry>, table: map<int, Ambiente>, ids: set<int>, expires: int)
  {
    forall id :: Refreshed(redis, warm, table, id, id in ids, expires)
  }

  predicate Refreshed(redis: map<int, Entry>, warm: map<int, Entry>, table: map<int, Ambiente>, id: int, renewed: bool, expires: int)
  {
    if renewed then id in table && id in warm && warm[id] == Entry(table[id], expires)
    else (id in warm <==> id in redis) && (id in redis ==> warm[id] == redis[id])
  }

  /** Every entry that is live is the active row. */
  ghost predicate Agrees(table: map<int, Ambiente>, redis: map<int, Entry>, now: int)
  {
    forall id :: id in redis && now < redis[id].expires ==> FindAmbiente(table, id) == Some(redis[id].value)
  }

  lemma WarmedAgrees(table: map<int, Ambiente>, redis: map<int, Entry>, warm: map<int, Entry>, now: int)
    requires Agrees(table, redis, now) && Warmed(redis, warm, table, ActiveIds(table), now + CACHE_TTL)
    ensures Agrees(table, warm, now)
    ensures forall id :: FindAmbiente(table, id).Some? ==> id in warm && now < warm[id].expires
  {
    forall id
      ensures id in warm && now < warm[id].expires ==> FindAmbiente(table, id) == Some(warm[id].value)
      ensures FindAmbiente(table, id).Some? ==> id in warm && now < warm[id].expires
    {
      assert Refreshed(redis, warm, table, id, id in ActiveIds(table), now + CACHE_TTL);
    }
  }

  lemma WarmedNext(redis: map<int, Entry>, warm: map<int, Entry>, table: map<int, Ambiente>, ids: set<int>, next: int, expires: int)
    requires Warmed(redis, warm, table, ids, expires) && next in table
    ensures Warmed(redis, warm[next := Entry(table[next], expires)], table, ids + {next}, expires)
  {
    forall id ensures Refreshed(redis, warm[next := Entry(table[next], expires)], table, id, id in ids + {next}, expires) {
      assert Refreshed(redis, warm, table, id, id in ids, expires);
    }
  }

  class AmbienteService {
    var table: map<int, Ambiente>
    var redis: map<int, Entry>
    var now: int

    ghost predicate Live(id: int)
      reads this
    {
      id in redis && now < redis[id].expires
    }

    /** A live entry is what the repository's `findById` would give. */
    ghost predicate Valid()
      reads this
    {
      && (forall id :: id in table ==> table[id].id == id)
      && Agrees(table, redis, now)
    }

    constructor (table: map<int, Ambiente>)
      requires forall id :: id in table ==> table[id].id == id
      ensures Valid() && this.table == table
    {
      this.table := table;
      redis := map[];
      now := 0;
    }

    /** The two `getAmbiente` copies: transparent, a soft-deleted ambiente included. */
    method GetAmbiente(id: int) returns (r: Option<Ambiente>)
      requires Valid()
      modifies `redis
      ensures Valid()
      ensures r == FindAmbiente(table, id)
      ensures redis == if old(Live(id)) || r.None? then old(redis) else old(redis)[id := Entry(r.value, now + 3600)]
    {
      if id in redis && now < redis[id].expires {
        return Some(redis[id].value);
      }
      r := FindAmbiente(table, id);
      if r.Some? {
        redis := redis[id := Entry(r.value, now + CACHE_TTL)];
      }
    }

    /** `onModuleInit`: every active ambiente is cached; whatever else is in Redis stays. */
    method WarmUp()
      requires Valid()
      modifies `redis
      ensures Valid()
      ensures forall id :: FindAmbiente(table, id).Some? ==> Live(id)
      ensures Warmed(old(redis), redis, table, ActiveIds(table), now + CACHE_TTL)
    {
      CacheAll(ActiveIds(table));
      WarmedAgrees(table, old(redis), redis, now);
    }

    /** The writes of the warm-up, in any order. */
    method CacheAll(ids: set<int>)
      requires ids <= table.Keys
      modifies `redis
      ensures Warmed(old(redis), redis, table, ids, now + CACHE_TTL)
    {
      var rest := ids;
      ghost var done: set<int> := {};
      while rest != {}
        invariant rest <= ids && done == ids - rest
        invariant Warmed(old(redis), redis, table, done, now + CACHE_TTL)
        decreases |rest|
      {
        ghost var some := AnElement(rest);
        var id: int :| id in rest;
        WarmedNext(old(redis), redis, table, done, id, now + CACHE_TTL);
        redis := redis[id := Entry(table[id], now + CACHE_TTL)];
        rest, done := rest - {id}, done + {id};
      }
      assert done == ids;
    }

    method Create(id: int, nome: string, url: string) returns (a: Answer)
      requires Valid()
      modifies `table, `redis
      ensures Valid()
      ensures a.Conflict? <==> FindAmbiente(old(table), id).Some?
      ensures a.UniqueViolation? <==> id in old(table) && old(table)[id].del
      ensures a == Ok(Ambiente(id, nome, url, false)) <==> id !in old(table)
      ensures table == if a.Ok? then old(table)[id := Ambiente(id, nome, url, false)] else old(table)
      ensures redis == if a.Ok? then old(redis)[id := Entry(Ambiente(id, nome, url, false), now + CACHE_TTL)] else old(redis)
    {
      if FindAmbiente(table, id).Some? {
        return Conflict;
      }
      if id in table {
        return UniqueViolation;
      }
      var created := Ambiente(id, nome, url, false);
      table := table[id := created];
      redis := redis[id := Entry(created, now + CACHE_TTL)];
      return Ok(created);
    }

    method Update(id: int, nome: Option<string>, url: Option<string>) returns (a: Answer)
      requires Valid()
      modifies `table, `redis
      ensures Valid()
      ensures a.NotFound? <==> FindAmbiente(old(table), id).None?
      ensures a.NotFound? ==> table == old(table)
      ensures !a.NotFound? ==> a.Ok? && table == old(table)[id := a.ambiente]
      ensures !a.NotFound? ==> a.ambiente == Ambiente(id,
        if nome.Some? then nome.value else old(table)[id].nome,
        if url.Some? then url.value else old(table)[id].url, false)
      ensures redis == if a.Ok? then old(redis)[id := Entry(a.ambiente, now + CACHE_TTL)] else old(redis)
    {
      var row := FindAmbiente(table, id);
      if row.None? {
        return NotFound;
      }
      var updated := row.value.(nome := if nome.Some? then nome.value else row.value.nome,
                                url := if url.Some? then url.value else row.value.url);
      table := table[id := updated];
      redis := redis[id := Entry(updated, now + CACHE_TTL)];
      return Ok(updated);
    }

    method SoftDelete(id: int) returns (a: Answer)
      requires Valid()
      modifies `table, `redis
      ensures Valid() && !Live(id)
      ensures a == if FindAmbiente(old(table), id).None? then NotFound else Done
      ensures table == if a.Done? then old(table)[id := old(table)[id].(del := true)] else old(table)
      ensures redis == if a.Done? then old(redis) - {id} else old(redis)
    {
      if FindAmbiente(table, id).None? {
        return NotFound;
      }
      table := table[id := table[id].(del := true)];
      redis := redis - {id};
      return Done;
    }

    /** Time passes, and Redis may evict anything at any moment. */
    method Elapse(seconds: nat, evicted: set<int>)
      requires Valid()
      modifies `now, `redis
      ensures Valid() && now == old(now) + seconds
      ensures forall id :: Live(id) ==> old(Live(id)) && redis[id] == old(redis)[id]
    {
      now := now + seconds;
      redis := redis - evicted;
    }
  }
}

/**
 * `WppFlowCallbacksService`: the url of a flow callback, cached for an hour. Reads and fills of the
 * cache may fail at any time and are tolerated; a delete that fails is not.
 */
module FlowCallbacks {
  import opened Common

  type Uid = string

  const CACHE_TTL := 3600

  datatype Row = Row(url: string, del: bool)
  datatype Entry = Entry(url: string, expires: int)
  datatype Answer = Ok | NotFound | Threw

  /** What `getUrl` stands for: the url of the active row. */
  function ActiveUrl(table: map<Uid, Row>, uid: Uid): Option<string>
  {
    if uid in table && !table[uid].del then Some(table[uid].url) else None
  }

  class FlowCallbacksService {
    var table: map<Uid, Row>
    var redis: map<Uid, Entry>
    var now: int
    /** When the last delete of an entry failed, where none has succeeded since. */
    ghost var failedAt: map<Uid, int>

    /** A delete of this entry failed less than an hour ago. */
    ghost predicate Suspect(uid: Uid)
      reads this
    {
      uid in failedAt && now < failedAt[uid] + CACHE_TTL
    }

    /** A live entry holds the url of the active row, or is the remains of a failed delete. */
    ghost predicate Valid()
      reads this
    {
      && (forall u :: u in failedAt ==> failedAt[u] <= now)
      && (forall u :: u in redis ==> redis[u].expires <= now + CACHE_TTL)
      && (forall u :: u in redis && now < redis[u].expires ==>
            || Some(redis[u].url) == ActiveUrl(table, u)
            || (u in failedAt && redis[u].expires <= failedAt[u] + CACHE_TTL))
    }

    constructor ()
      ensures Valid() && table == map[] && failedAt == map[]
    {
      table, redis, now, failedAt := map[], map[], 0, map[];
    }

    method Create(uid: Uid, url: string)
      requires Valid() && uid !in table
      modifies `table
      ensures Valid()
      ensures table == old(table)[uid := Row(url, false)]
    {
      table := table[uid := Row(url, false)];
    }

    /** Whatever fails, `getUrl` answers from the table, unless a delete failed within the hour. */
    method GetUrl(uid: Uid, getThrows: bool, setThrows: bool) returns (r: Option<string>)
      requires Valid()
      modifies `redis
      ensures Valid()
      ensures !Suspect(uid) ==> r == ActiveUrl(table, uid)
      ensures getThrows ==> r == ActiveUrl(table, uid)
      ensures redis == old(redis) || (r.Some? && redis == old(redis)[uid := Entry(r.value, now + 3600)])
      ensures r.Some? && !setThrows ==> uid in redis && redis[uid].url == r.value && now < redis[uid].expires
    {
      if !getThrows && uid in redis && now < redis[uid].expires {
        return Some(redis[uid].url);
      }
      if uid !in table || table[uid].del {
        return None;
      }
      if !setThrows {
        redis := redis[uid := Entry(table[uid].url, now + CACHE_TTL)];
      }
      return Some(table[uid].url);
    }

    /** The delete after a table write. */
    method DropEntry(uid: Uid, delThrows: bool) returns (a: Answer)
      requires OnlyStale(uid)
      modifies `redis, `failedAt
      ensures Valid()
      ensures a == if delThrows then Threw else Ok
      ensures failedAt == if delThrows then old(failedAt)[uid := now] else old(failedAt) - {uid}
      ensures redis == if delThrows then old(redis) else old(redis) - {uid}
    {
      if delThrows {
        failedAt := failedAt[uid := now];
        return Threw;
      }
      redis, failedAt := redis - {uid}, failedAt - {uid};
      return Ok;
    }

    /** `Valid` but for the entry of `uid`, which the table has just outrun. */
    ghost predicate OnlyStale(uid: Uid)
      reads this
    {
      && (forall u :: u in failedAt ==> failedAt[u] <= now)
      && (forall u :: u in redis ==> redis[u].expires <= now + CACHE_TTL)
      && (forall u :: u in redis && u != uid && now < redis[u].expires ==>
            || Some(redis[u].url) == ActiveUrl(table, u)
            || (u in failedAt && redis[u].expires <= failedAt[u] + CACHE_TTL))
    }

    method Update(uid: Uid, url: string, delThrows: bool) returns (a: Answer)
      requires Valid()
      modifies this
      ensures Valid() && now == old(now)
      ensures a.NotFound? <==> ActiveUrl(old(table), uid).None?
      ensures table == if a.NotFound? then old(table) else old(table)[uid := Row(url, false)]
      ensures redis == if a.Ok? then old(redis) - {uid} else old(redis)
      ensures a.NotFound? ==> failedAt == old(failedAt)
      ensures !a.NotFound? ==> failedAt == if delThrows then old(failedAt)[uid := now] else old(failedAt) - {uid}
    {
      if uid !in table || table[uid].del {
        return NotFound;
      }
      table := table[uid := table[uid].(url := url)];
      a := DropEntry(uid, delThrows);
    }

    method Remove(uid: Uid, delThrows: bool) returns (a: Answer)
      requires Valid()
      modifies this
      ensures Valid() && now == old(now)
      ensures a.NotFound? <==> ActiveUrl(old(table), uid).None?
      ensures table == if a.NotFound? then old(table) else old(table)[uid := Row(old(table)[uid].url, true)]
      ensures redis == if a.Ok? then old(redis) - {uid} else old(redis)
      ensures a.NotFound? ==> failedAt == old(failedAt)
      ensures !a.NotFound? ==> failedAt == if delThrows then old(failedAt)[uid := now] else old(failedAt) - {uid}
    {
      if uid !in table || table[uid].del {
        return NotFound;
      }
      table := table[uid := table[uid].(del := true)];
      a := DropEntry(uid, delThrows);
    }

    /** Time passes, and Redis may evict anything. */
    method Elapse(seconds: nat, evicted: set<Uid>)
      requires Valid()
      modifies `now, `redis
      ensures Valid() && now == old(now) + seconds
    {
      now := now + seconds;
      redis := redis - evicted;
    }
  }
}

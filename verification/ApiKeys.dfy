/**
 * API keys: the table, the Redis hash that `ApiKeysService` keeps beside it, and the guard's scan
 * of that hash. Any write to Redis may throw after the table was written, and Redis may lose entries.
 * The runs here are sequential, one operation after the other; `ApiKeysOverlap` has those that overlap.
 */
module ApiKeys {
  import opened Common

  type Uid = string

  datatype Row = Row(name: string, key: string, salt: string, del: bool)
  datatype Entry = Entry(hashedKey: string, salt: string, name: string)
  datatype State = State(table: map<Uid, Row>, hash: map<Uid, Entry>)

  function EntryOf(row: Row): Entry
  {
    Entry(row.key, row.salt, row.name)
  }

  /** `repo.findAll` as hash entries. */
  function ActiveEntries(table: map<Uid, Row>): map<Uid, Entry>
  {
    map u | u in table && !table[u].del :: EntryOf(table[u])
  }

  function Loaded(entries: map<Uid, Entry>, uids: set<Uid>): map<Uid, Entry>
  {
    map u | u in entries && u in uids :: entries[u]
  }

  datatype Op =
    | Init(loaded: set<Uid>)                       // complete if every active row is loaded
    | Create(uid: Uid, row: Row, redisThrows: bool)
    | Revoke(uid: Uid, redisThrows: bool)
    | Lose(lost: set<Uid>)                         // Redis forgets

  predicate Enabled(s: State, op: Op)
  {
    match op
    case Init(_) => true
    case Create(uid, row, _) => uid !in s.table && !row.del
    case Revoke(_, _) => true
    case Lose(_) => true
  }

  function Step(s: State, op: Op): State
  {
    match op
    case Init(loaded) => s.(hash := s.hash + Loaded(ActiveEntries(s.table), loaded))
    case Create(uid, row, redisThrows) =>
      State(s.table[uid := row], if redisThrows then s.hash else s.hash[uid := EntryOf(row)])
    case Revoke(uid, redisThrows) =>
      if uid !in s.table || s.table[uid].del then s
      else State(s.table[uid := s.table[uid].(del := true)], if redisThrows then s.hash else s.hash - {uid})
    case Lose(lost) => s.(hash := s.hash - lost)
  }

  /** The state after a run from empty tables, `None` if a create drew a UUID twice. */
  function Exec(ops: seq<Op>): Option<State>
  {
    if ops == [] then Some(State(map[], map[])) else
    var before := Exec(ops[..|ops| - 1]);
    if before.None? || !Enabled(before.value, ops[|ops| - 1]) then None else Some(Step(before.value, ops[|ops| - 1]))
  }

  // --- What holds in every run ----------------------------------------------------------------

  /** Every entry is of a row of the table, though perhaps of a revoked one. */
  ghost predicate NoInvention(s: State)
  {
    forall u :: u in s.hash ==> u in s.table && s.hash[u] == EntryOf(s.table[u])
  }

  /** Entries of revoked rows. */
  predicate Stale(s: State, u: Uid)
  {
    u in s.hash && u in s.table && s.table[u].del
  }

  /** `op` is a crash-free operation: nothing throws, nothing is lost, start-up completes. */
  predicate Clean(s: State, op: Op)
  {
    match op
    case Init(loaded) => ActiveEntries(s.table).Keys <= loaded
    case Create(_, _, redisThrows) => !redisThrows
    case Revoke(_, redisThrows) => !redisThrows
    case Lose(lost) => lost !! s.hash.Keys
  }

  lemma {:induction false} NothingInvented(ops: seq<Op>)
    requires Exec(ops).Some?
    ensures NoInvention(Exec(ops).value)
  {
    if ops != [] {
      NothingInvented(ops[..|ops| - 1]);
    }
  }

  /** In a sequential crash-free run the hash is the active rows, no more and no less. */
  lemma {:induction false} CleanRunsStayInStep(ops: seq<Op>)
    requires Exec(ops).Some?
    requires forall n :: 0 <= n < |ops| ==> Exec(ops[..n]).Some? && Clean(Exec(ops[..n]).value, ops[n])
    ensures Exec(ops).value.hash == ActiveEntries(Exec(ops).value.table)
  {
    if ops != [] {
      var n := |ops| - 1;
      forall m | 0 <= m < n ensures Exec(ops[..n][..m]).Some? && Clean(Exec(ops[..n][..m]).value, ops[..n][m]) {
        assert ops[..n][..m] == ops[..m];
      }
      CleanRunsStayInStep(ops[..n]);
      CleanStep(Exec(ops[..n]).value, ops[n]);
    }
  }

  lemma CleanStep(s: State, op: Op)
    requires s.hash == ActiveEntries(s.table) && Enabled(s, op) && Clean(s, op)
    ensures Step(s, op).hash == ActiveEntries(Step(s, op).table)
  {
  }

  /** Whatever happened before, a completed start-up brings every active row back, unchanged. */
  lemma StartUpRestores(ops: seq<Op>, loaded: set<Uid>, u: Uid)
    requires Exec(ops).Some? && ActiveEntries(Exec(ops).value.table).Keys <= loaded
    ensures var s := Step(Exec(ops).value, Init(loaded));
      && (u in ActiveEntries(s.table) ==> u in s.hash && s.hash[u] == EntryOf(s.table[u]))
      && (u in s.hash <==> u in ActiveEntries(s.table) || Stale(Exec(ops).value, u))
  {
    NothingInvented(ops);
  }

  /**
   * In a sequential run a revoked key is still accepted exactly if its revocation broke off between the table and the
   * hash, and Redis has not forgotten it since: no operation, start-up included, mends it.
   */
  lemma {:induction false} StaleExactly(ops: seq<Op>, u: Uid)
    requires Exec(ops).Some?
    ensures Stale(Exec(ops).value, u) <==> LeftBehind(ops, u)
  {
    if ops != [] {
      var init := ops[..|ops| - 1];
      StaleExactly(init, u);
      NothingInvented(init);
      LeftBehindStep(ops, u);
    }
  }

  ghost predicate LeftBehind(ops: seq<Op>, u: Uid)
  {
    exists n: nat :: n < |ops| && BrokenOff(ops, n, u) && Remembered(ops, n, u)
  }

  lemma LeftBehindStep(ops: seq<Op>, u: Uid)
    requires ops != []
    ensures var last := |ops| - 1;
      LeftBehind(ops, u) <==> (LeftBehind(ops[..last], u) && !Loses(ops[last], u)) || BrokenOff(ops, last, u)
  {
    var last := |ops| - 1;
    var init := ops[..last];
    forall n: nat | n < last
      ensures BrokenOff(ops, n, u) == BrokenOff(init, n, u)
      ensures Remembered(ops, n, u) == (Remembered(init, n, u) && !Loses(ops[last], u))
    {
      assert init[..n] == ops[..n];
      assert forall m :: 0 <= m < last ==> ops[m] == init[m];
    }
    assert Remembered(ops, last, u);
  }

  /** It happens: revoking once more and starting up again do not take the key out of the hash. */
  lemma RevokedKeyCanStayAccepted(u: Uid, row: Row)
    requires !row.del
    ensures var ops := [Create(u, row, false), Revoke(u, true), Revoke(u, false), Init({u})];
      Exec(ops).Some? && Stale(Exec(ops).value, u)
  {
    var ops := [Create(u, row, false), Revoke(u, true), Revoke(u, false), Init({u})];
    assert ops[..3] == ops[..4][..3] && ops[..2] == ops[..3][..2] && ops[..1] == ops[..2][..1] && ops[..0] == ops[..1][..0];
    assert Exec(ops[..1]).Some? && Exec(ops[..2]).Some? && Exec(ops[..3]).Some?;
  }

  predicate Loses(op: Op, u: Uid)
  {
    op.Lose? && u in op.lost
  }

  /** Operation `n` is a revocation of `u` that throws after the row was marked. */
  predicate BrokenOff(ops: seq<Op>, n: nat, u: Uid)
    requires n < |ops|
  {
    && ops[n] == Revoke(u, true)
    && Exec(ops[..n]).Some?
    && var s := Exec(ops[..n]).value;
       u in s.table && !s.table[u].del && u in s.hash
  }

  predicate Remembered(ops: seq<Op>, n: nat, u: Uid)
  {
    forall m :: n < m < |ops| ==> !Loses(ops[m], u)
  }

  // --- The service and the guard --------------------------------------------------------------

  datatype Answer = Ok | NotFound | Threw

  /** Some entry of the hash matches the raw key. */
  ghost predicate Accepts(hash: map<Uid, Entry>, rawKey: string, sha: string -> string)
  {
    exists u :: u in hash && sha(rawKey + hash[u].salt) == hash[u].hashedKey
  }

  lemma LoadedNext(hash: map<Uid, Entry>, entries: map<Uid, Entry>, loaded: set<Uid>, u: Uid)
    requires u in entries
    ensures hash + Loaded(entries, loaded + {u}) == (hash + Loaded(entries, loaded))[u := entries[u]]
  {
  }

  class ApiKeysService {
    var table: map<Uid, Row>
    var hash: map<Uid, Entry>

    ghost function S(): State
      reads this
    {
      State(table, hash)
    }

    /** `onModuleInit`; only `limit` writes succeed, and one that throws ends the start-up. */
    method OnModuleInit(limit: nat) returns (a: Answer, ghost loaded: set<Uid>)
      modifies `hash
      ensures S() == Step(old(S()), Init(loaded))
      ensures a == if |ActiveEntries(table).Keys| <= limit then Ok else Threw
      ensures a.Ok? ==> loaded == ActiveEntries(table).Keys
      ensures a.Ok? ==> forall u :: u in table && !table[u].del ==> u in hash && hash[u] == Entry(table[u].key, table[u].salt, table[u].name)
      ensures forall u :: u in hash && (u !in table || table[u].del) ==> u in old(hash) && hash[u] == old(hash)[u]
    {
      var keys := ActiveEntries(table);
      a, loaded := LoadAll(keys, limit);
    }

    /** The writes of the start-up, in any order. */
    method LoadAll(keys: map<Uid, Entry>, limit: nat) returns (a: Answer, ghost loaded: set<Uid>)
      modifies `hash
      ensures hash == old(hash) + Loaded(keys, loaded)
      ensures a == if |keys.Keys| <= limit then Ok else Threw
      ensures a.Ok? ==> loaded == keys.Keys
    {
      var rest := keys.Keys;
      var n: nat := 0;
      loaded := {};
      assert Loaded(keys, loaded) == map[];
      while rest != {}
        invariant rest <= keys.Keys && loaded == keys.Keys - rest
        invariant n + |rest| == |keys.Keys| && n <= limit
        invariant hash == old(hash) + Loaded(keys, loaded)
        decreases rest
      {
        if n == limit {
          return Threw, loaded;
        }
        ghost var w := AnElement(rest);
        var u: Uid :| u in rest;
        LoadedNext(old(hash), keys, loaded, u);
        hash := hash[u := keys[u]];
        rest, loaded, n := rest - {u}, loaded + {u}, n + 1;
        assert loaded == keys.Keys - rest;
      }
      return Ok, loaded;
    }

    /** The raw key is only answered; the row keeps its salted hash. */
    method CreateKey(name: string, rawKey: string, salt: string, uid: Uid, sha: string -> string, redisThrows: bool)
      returns (a: Answer)
      requires uid !in table
      modifies this
      ensures S() == Step(old(S()), Create(uid, Row(name, sha(rawKey + salt), salt, false), redisThrows))
      ensures a.Ok? <==> !redisThrows
      ensures table == old(table)[uid := Row(name, sha(rawKey + salt), salt, false)]
      ensures hash == if a.Ok? then old(hash)[uid := Entry(sha(rawKey + salt), salt, name)] else old(hash)
      ensures a.Ok? ==> Accepts(hash, rawKey, sha)
    {
      var row := Row(name, sha(rawKey + salt), salt, false);
      table := table[uid := row];
      if redisThrows {
        return Threw;
      }
      hash := hash[uid := EntryOf(row)];
      assert uid in hash && sha(rawKey + hash[uid].salt) == hash[uid].hashedKey;
      return Ok;
    }

    method RevokeKey(uid: Uid, redisThrows: bool) returns (a: Answer)
      modifies this
      ensures S() == Step(old(S()), Revoke(uid, redisThrows))
      ensures a.NotFound? <==> !(uid in old(table) && !old(table)[uid].del)
      ensures a.Ok? ==> uid !in hash
      ensures table == if a.NotFound? then old(table) else old(table)[uid := old(table)[uid].(del := true)]
      ensures hash == if a.Ok? then old(hash) - {uid} else old(hash)
    {
      if !(uid in table && !table[uid].del) {
        return NotFound;
      }
      table := table[uid := table[uid].(del := true)];
      if redisThrows {
        return Threw;
      }
      hash := hash - {uid};
      return Ok;
    }

    /** The guard: an absent or empty header is refused, else the scan finds a match if there is one. */
    method CanActivate(header: Option<string>, sha: string -> string) returns (accepted: bool)
      ensures accepted <==> header.Some? && header.value != "" && Accepts(hash, header.value, sha)
    {
      if header.None? || header.value == "" {
        return false;
      }
      var rest := hash.Keys;
      while rest != {}
        invariant rest <= hash.Keys
        invariant forall u :: u in hash && u !in rest ==> sha(header.value + hash[u].salt) != hash[u].hashedKey
        decreases rest
      {
        ghost var w := AnElement(rest);
        var u: Uid :| u in rest;
        if sha(header.value + hash[u].salt) == hash[u].hashedKey {
          return true;
        }
        rest := rest - {u};
      }
      return false;
    }
  }

  /** In step, the guard accepts a key exactly if it matches the salted hash of some active row. */
  lemma GuardReadsTheTable(ops: seq<Op>, rawKey: string, sha: string -> string)
    requires Exec(ops).Some?
    requires forall n :: 0 <= n < |ops| ==> Exec(ops[..n]).Some? && Clean(Exec(ops[..n]).value, ops[n])
    ensures var s := Exec(ops).value;
      Accepts(s.hash, rawKey, sha) <==>
        exists u :: u in s.table && !s.table[u].del && sha(rawKey + s.table[u].salt) == s.table[u].key
  {
    CleanRunsStayInStep(ops);
    var s := Exec(ops).value;
    if Accepts(s.hash, rawKey, sha) {
      var u :| u in s.hash && sha(rawKey + s.hash[u].salt) == s.hash[u].hashedKey;
      assert u in s.table && !s.table[u].del && sha(rawKey + s.table[u].salt) == s.table[u].key;
    }
    forall u | u in s.table && !s.table[u].del && sha(rawKey + s.table[u].salt) == s.table[u].key
      ensures Accepts(s.hash, rawKey, sha)
    {
      assert u in s.hash && s.hash[u] == EntryOf(s.table[u]);
    }
  }
}

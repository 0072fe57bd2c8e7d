/**
 * API keys when calls overlap, in one process or several: start-up, create and revoke each access the
 * table at one instant and the Redis hash at later ones. The exact conditions, over every run, for a
 * revoked key to be in the hash and for an active one to be missing from it.
 */
module ApiKeysOverlap {
  import opened Common
  import opened ApiKeys

  datatype Task =
    | Adding(rest: map<Uid, Entry>)   // start-up or create, before the hset of each of these
    | Removing(uid: Uid)              // a revocation that has marked the row, before its hdel

  datatype System = System(table: map<Uid, Row>, hash: map<Uid, Entry>, tasks: map<nat, Task>, nextTask: nat)

  datatype Move =
    | FindAll                     // start-up reads the active rows
    | Insert(uid: Uid, row: Row)  // create commits
    | Mark(uid: Uid)              // revoke commits; its findById found the row active some time before
    | Set(t: nat, uid: Uid)
    | Remove(t: nat)
    | Forget(lost: set<Uid>)      // Redis loses entries
    | Abort(t: nat)               // Redis throws, or the process dies

  predicate Possible(s: System, m: Move)
  {
    match m
    case FindAll => true
    case Insert(uid, row) => uid !in s.table && !row.del
    case Mark(uid) => uid in s.table
    case Set(t, uid) => t in s.tasks && s.tasks[t].Adding? && uid in s.tasks[t].rest
    case Remove(t) => t in s.tasks && s.tasks[t].Removing?
    case Forget(_) => true
    case Abort(t) => t in s.tasks
  }

  function Spawn(s: System, task: Task): System
  {
    s.(tasks := s.tasks[s.nextTask := task], nextTask := s.nextTask + 1)
  }

  /** A task that has set its last entry has ended. */
  function Left(tasks: map<nat, Task>, t: nat, rest: map<Uid, Entry>): map<nat, Task>
  {
    if rest == map[] then tasks - {t} else tasks[t := Adding(rest)]
  }

  function Make(s: System, m: Move): System
    requires Possible(s, m)
  {
    match m
    case FindAll => if ActiveEntries(s.table) == map[] then s else Spawn(s, Adding(ActiveEntries(s.table)))
    case Insert(uid, row) => Spawn(s.(table := s.table[uid := row]), Adding(map[uid := EntryOf(row)]))
    case Mark(uid) => Spawn(s.(table := s.table[uid := s.table[uid].(del := true)]), Removing(uid))
    case Set(t, uid) =>
      var rest := s.tasks[t].rest;
      s.(hash := s.hash[uid := rest[uid]], tasks := Left(s.tasks, t, rest - {uid}))
    case Remove(t) => s.(hash := s.hash - {s.tasks[t].uid}, tasks := s.tasks - {t})
    case Forget(lost) => s.(hash := s.hash - lost)
    case Abort(t) => s.(tasks := s.tasks - {t})
  }

  const START := System(map[], map[], map[], 0)

  /** A run with all its states: `states[k]` is the one before move `k`. */
  datatype History = History(moves: seq<Move>, states: seq<System>)

  ghost predicate MoveAt(h: History, k: nat)
    requires k < |h.moves| && |h.states| == |h.moves| + 1
  {
    Possible(h.states[k], h.moves[k]) && h.states[k + 1] == Make(h.states[k], h.moves[k])
  }

  ghost predicate IsHistory(h: History)
  {
    && |h.states| == |h.moves| + 1 && h.states[0] == START
    && forall k: nat :: k < |h.moves| ==> MoveAt(h, k)
  }

  // --- What holds in every run ----------------------------------------------------------------

  /** The entry is the one of a row of the table, active or revoked. */
  predicate OfTable(s: System, u: Uid, e: Entry)
  {
    u in s.table && e == EntryOf(s.table[u])
  }

  ghost predicate Inv(s: System)
  {
    && (forall t :: t in s.tasks ==> t < s.nextTask)
    && (forall t, u :: t in s.tasks && s.tasks[t].Adding? && u in s.tasks[t].rest ==> OfTable(s, u, s.tasks[t].rest[u]))
    && (forall t :: t in s.tasks && s.tasks[t].Removing? ==> Revoked(s, s.tasks[t].uid))
    && (forall u :: u in s.hash ==> OfTable(s, u, s.hash[u]))
  }

  predicate Revoked(s: System, u: Uid)
  {
    u in s.table && s.table[u].del
  }

  predicate Active(s: System, u: Uid)
  {
    u in s.table && !s.table[u].del
  }

  lemma MoveKeepsInv(s: System, m: Move)
    requires Inv(s) && Possible(s, m)
    ensures Inv(Make(s, m))
  {
  }

  /** Overlaps, crashes and losses included, each entry in the hash or on its way is of a row of the table. */
  lemma {:induction false} NothingInventedByOverlaps(h: History, n: nat)
    requires IsHistory(h) && n <= |h.moves|
    ensures Inv(h.states[n])
  {
    if n > 0 {
      NothingInventedByOverlaps(h, n - 1);
      assert MoveAt(h, n - 1);
      MoveKeepsInv(h.states[n - 1], h.moves[n - 1]);
    }
  }

  // --- What a run does to a key ---------------------------------------------------------------

  predicate InRun(h: History, k: nat)
  {
    k < |h.moves| && |h.states| == |h.moves| + 1
  }

  predicate SetAt(h: History, k: nat, u: Uid)
  {
    InRun(h, k) && h.moves[k].Set? && h.moves[k].uid == u
  }

  predicate RemoveAt(h: History, k: nat, u: Uid)
  {
    InRun(h, k) && h.moves[k].Remove? && h.moves[k].t in h.states[k].tasks && h.states[k].tasks[h.moves[k].t] == Removing(u)
  }

  predicate ForgetAt(h: History, k: nat, u: Uid)
  {
    InRun(h, k) && h.moves[k].Forget? && u in h.moves[k].lost
  }

  predicate MarkAt(h: History, k: nat, u: Uid)
  {
    InRun(h, k) && h.moves[k] == Mark(u)
  }

  predicate InsertAt(h: History, k: nat, u: Uid)
  {
    InRun(h, k) && h.moves[k].Insert? && h.moves[k].uid == u
  }

  /** Move `k` sets or removes the entry. */
  predicate TouchAt(h: History, k: nat, u: Uid)
  {
    SetAt(h, k, u) || RemoveAt(h, k, u) || ForgetAt(h, k, u)
  }

  ghost predicate NoTouch(h: History, from: nat, until: nat, u: Uid)
  {
    forall m: nat :: from <= m < until ==> !TouchAt(h, m, u)
  }

  ghost predicate NoSet(h: History, from: nat, until: nat, u: Uid)
  {
    forall m: nat :: from <= m < until ==> !SetAt(h, m, u)
  }

  /** Before move `m` the task has the entry and has not set it yet. */
  predicate Carries(h: History, m: nat, t: nat, u: Uid)
  {
    m < |h.states| && CarriesIn(h.states[m], t, u)
  }

  predicate CarriesIn(s: System, t: nat, u: Uid)
  {
    t in s.tasks && s.tasks[t].Adding? && u in s.tasks[t].rest
  }

  ghost predicate InFlight(h: History, from: nat, until: nat, t: nat, u: Uid)
  {
    forall m: nat :: from <= m <= until ==> Carries(h, m, t, u)
  }

  ghost predicate Aborted(h: History, c: nat, n: nat)
    requires c < |h.states|
  {
    exists m: nat :: c < m < n <= |h.moves| && h.moves[m] == Abort(h.states[c].nextTask)
  }

  lemma HashNext(h: History, k: nat, u: Uid)
    requires IsHistory(h) && k < |h.moves|
    ensures u in h.states[k + 1].hash <==> SetAt(h, k, u) || (u in h.states[k].hash && !TouchAt(h, k, u))
  {
    assert MoveAt(h, k);
  }

  lemma TableNext(h: History, k: nat, u: Uid)
    requires IsHistory(h) && k < |h.moves|
    ensures u in h.states[k + 1].table <==> u in h.states[k].table || InsertAt(h, k, u)
    ensures Revoked(h.states[k + 1], u) <==> Revoked(h.states[k], u) || MarkAt(h, k, u)
  {
    assert MoveAt(h, k);
  }

  /** The entry is there exactly if its last access was to set it. */
  ghost predicate LastSet(h: History, k: nat, n: nat, u: Uid)
  {
    k < n && SetAt(h, k, u) && NoTouch(h, k + 1, n, u)
  }

  lemma {:induction false} EntryIsSet(h: History, n: nat, u: Uid)
    requires IsHistory(h) && n <= |h.moves|
    ensures u in h.states[n].hash <==> exists k: nat :: LastSet(h, k, n, u)
    decreases n
  {
    if n > 0 {
      var m := n - 1;
      EntryIsSet(h, m, u);
      HashNext(h, m, u);
      if TouchAt(h, m, u) {
        assert SetAt(h, m, u) ==> LastSet(h, m, n, u);
        assert forall k: nat :: LastSet(h, k, n, u) ==> k == m;
      } else {
        forall k: nat ensures LastSet(h, k, n, u) <==> LastSet(h, k, m, u) {
          assert NoTouch(h, k + 1, n, u) <==> NoTouch(h, k + 1, m, u);
        }
        if k: nat :| LastSet(h, k, m, u) {
          assert LastSet(h, k, n, u);
        }
      }
    }
  }

  lemma {:induction false} RevokedIsMarked(h: History, n: nat, u: Uid)
    requires IsHistory(h) && n <= |h.moves|
    ensures Revoked(h.states[n], u) <==> exists c: nat :: c < n && MarkAt(h, c, u)
    decreases n
  {
    if n > 0 {
      RevokedIsMarked(h, n - 1, u);
      TableNext(h, n - 1, u);
    }
  }

  // --- A revoked key in the hash --------------------------------------------------------------

  /** What is on its way after the revocation was on its way before it: the revoked row is not read again. */
  lemma {:induction false} CarriedOver(h: History, c: nat, m: nat, t: nat, u: Uid)
    requires IsHistory(h) && MarkAt(h, c, u) && c < m <= |h.moves| && Carries(h, m, t, u)
    ensures InFlight(h, c, m, t, u)
    decreases m
  {
    assert MoveAt(h, m - 1);
    RevokedIsMarked(h, m - 1, u);
    if c < m - 1 {
      assert Revoked(h.states[m - 1], u);
      CarriedOver(h, c, m - 1, t, u);
    }
  }

  /** A revocation is in flight until it removes the entry or fails. */
  lemma {:induction false} RevokerEnds(h: History, c: nat, n: nat, u: Uid)
    requires IsHistory(h) && MarkAt(h, c, u) && c < n <= |h.moves| && NoTouch(h, c + 1, n, u)
    ensures var w := h.states[c].nextTask;
      (w in h.states[n].tasks && h.states[n].tasks[w] == Removing(u)) || Aborted(h, c, n)
    decreases n
  {
    var w := h.states[c].nextTask;
    NothingInventedByOverlaps(h, n - 1);
    assert MoveAt(h, n - 1);
    if n > c + 1 {
      RevokerEnds(h, c, n - 1, u);
      assert !TouchAt(h, n - 1, u);
      if h.moves[n - 1] == Abort(w) {
        assert c < n - 1 < n;
      }
    }
  }

  /** Move `k` set an entry that start-up or create had got before the row was marked at `c`. */
  ghost predicate SetOver(h: History, k: nat, u: Uid, c: nat)
    requires SetAt(h, k, u)
  {
    c < k && MarkAt(h, c, u) && InFlight(h, c, k, h.moves[k].t, u)
  }

  /** The row was marked after move `k`, by a revocation that failed before the hdel. */
  ghost predicate RevokerFailed(h: History, k: nat, n: nat, u: Uid, c: nat)
  {
    k < c < n && MarkAt(h, c, u) && Aborted(h, c, n)
  }

  ghost predicate Reason(h: History, k: nat, n: nat, u: Uid)
  {
    LastSet(h, k, n, u) && exists c: nat :: SetOver(h, k, u, c) || RevokerFailed(h, k, n, u, c)
  }

  ghost predicate Stale(h: History, n: nat, u: Uid)
  {
    exists k: nat :: Reason(h, k, n, u)
  }

  ghost predicate NoRevoker(s: System, u: Uid)
  {
    forall t :: t in s.tasks ==> s.tasks[t] != Removing(u)
  }

  lemma RevokedSince(h: History, k: nat, n: nat, u: Uid)
    requires IsHistory(h) && n <= |h.moves| && LastSet(h, k, n, u) && NoRevoker(h.states[n], u)
    ensures Revoked(h.states[n], u) <==> Reason(h, k, n, u)
  {
    RevokedIsMarked(h, n, u);
    if c: nat :| c < n && MarkAt(h, c, u) {
      if c < k {
        assert MoveAt(h, k);
        CarriedOver(h, c, k, h.moves[k].t, u);
        assert SetOver(h, k, u, c);
      } else {
        RevokerEnds(h, c, n, u);
        assert RevokerFailed(h, k, n, u, c);
      }
    }
  }

  /**
   * With no revocation of the key in flight, a revoked key is in the hash exactly if, with no hset,
   * hdel or loss of it since, its last hset was of an entry read or written before the revocation
   * committed, or a revocation that committed later failed before its hdel.
   */
  lemma OverlapStaleExactly(h: History, n: nat, u: Uid)
    requires IsHistory(h) && n <= |h.moves| && NoRevoker(h.states[n], u)
    ensures (u in h.states[n].hash && Revoked(h.states[n], u)) <==> Stale(h, n, u)
  {
    EntryIsSet(h, n, u);
    forall k: nat | LastSet(h, k, n, u) ensures Revoked(h.states[n], u) <==> Reason(h, k, n, u) {
      RevokedSince(h, k, n, u);
    }
    if u in h.states[n].hash && Revoked(h.states[n], u) {
      var k: nat :| LastSet(h, k, n, u);
      assert Reason(h, k, n, u);
    }
  }

  // --- An active key that is missing ----------------------------------------------------------

  /** Redis lost the entry at `k`, or the create that committed then failed; nobody has set it since. */
  ghost predicate Gap(h: History, k: nat, n: nat, u: Uid)
  {
    && k < n && NoSet(h, k + 1, n, u)
    && (ForgetAt(h, k, u) || (InsertAt(h, k, u) && Aborted(h, k, n)))
  }

  ghost predicate NoAdder(s: System, u: Uid)
  {
    forall t :: t in s.tasks ==> !CarriesIn(s, t, u)
  }

  /** Nobody has set the entry: it is not there. */
  lemma {:induction false} StaysOut(h: History, from: nat, n: nat, u: Uid)
    requires IsHistory(h) && from <= n <= |h.moves| && NoSet(h, from, n, u) && u !in h.states[from].hash
    ensures u !in h.states[n].hash
    decreases n
  {
    if from < n {
      StaysOut(h, from, n - 1, u);
      HashNext(h, n - 1, u);
    }
  }

  lemma {:induction false} AdderEnds(h: History, k: nat, n: nat, u: Uid)
    requires IsHistory(h) && InsertAt(h, k, u) && k < n <= |h.moves| && NoSet(h, k + 1, n, u)
    ensures CarriesIn(h.states[n], h.states[k].nextTask, u) || Aborted(h, k, n)
    decreases n
  {
    var w := h.states[k].nextTask;
    NothingInventedByOverlaps(h, n - 1);
    assert MoveAt(h, n - 1);
    if n > k + 1 {
      AdderEnds(h, k, n - 1, u);
      assert !SetAt(h, n - 1, u);
      if CarriesIn(h.states[n - 1], w, u) && h.moves[n - 1].Set? {
        assert u in h.states[n - 1].tasks[w].rest - {h.moves[n - 1].uid};
      }
      if h.moves[n - 1] == Abort(w) {
        assert k < n - 1 < n;
      }
    }
  }

  /** Of an active key that is out of the hash: when it went out, or was not put in. */
  lemma {:induction false} OutSince(h: History, n: nat, u: Uid) returns (k: nat)
    requires IsHistory(h) && n <= |h.moves| && Active(h.states[n], u) && u !in h.states[n].hash
    ensures k < n && NoSet(h, k + 1, n, u) && (ForgetAt(h, k, u) || InsertAt(h, k, u))
    decreases n
  {
    var m := n - 1;
    NothingInventedByOverlaps(h, m);
    HashNext(h, m, u);
    TableNext(h, m, u);
    assert MoveAt(h, m);
    if ForgetAt(h, m, u) || InsertAt(h, m, u) {
      k := m;
    } else {
      k := OutSince(h, m, u);
    }
  }

  /**
   * With no task about to set it, an active key is missing from the hash exactly if Redis lost it or
   * its create failed after the commit, and no start-up has set it since.
   */
  lemma OverlapMissingExactly(h: History, n: nat, u: Uid)
    requires IsHistory(h) && n <= |h.moves| && Active(h.states[n], u) && NoAdder(h.states[n], u)
    ensures u !in h.states[n].hash <==> exists k: nat :: Gap(h, k, n, u)
  {
    if u !in h.states[n].hash {
      var k := OutSince(h, n, u);
      if InsertAt(h, k, u) {
        AdderEnds(h, k, n, u);
      }
      assert Gap(h, k, n, u);
    }
    if k: nat :| Gap(h, k, n, u) {
      NothingInventedByOverlaps(h, k);
      assert MoveAt(h, k);
      HashNext(h, k, u);
      StaysOut(h, k + 1, n, u);
    }
  }

  ghost predicate Missing(h: History, n: nat, u: Uid)
    requires n < |h.states|
  {
    Active(h.states[n], u) && exists k: nat :: Gap(h, k, n, u)
  }

  /** With nothing in flight, the hash is the active rows exactly if no key has a reason to be stale or a gap. */
  lemma InStepExactly(h: History, n: nat)
    requires IsHistory(h) && n <= |h.moves| && h.states[n].tasks == map[]
    ensures h.states[n].hash == ActiveEntries(h.states[n].table) <==>
      forall u :: !Stale(h, n, u) && !Missing(h, n, u)
  {
    var s := h.states[n];
    NothingInventedByOverlaps(h, n);
    forall u ensures Stale(h, n, u) <==> u in s.hash && Revoked(s, u) {
      OverlapStaleExactly(h, n, u);
    }
    forall u ensures Missing(h, n, u) <==> Active(s, u) && u !in s.hash {
      if Active(s, u) {
        OverlapMissingExactly(h, n, u);
      }
    }
    if forall u :: !Stale(h, n, u) && !Missing(h, n, u) {
      assert s.hash == ActiveEntries(s.table);
    }
  }

  /**
   * With nothing in flight, the guard accepts exactly the keys that match the salted hash of a row
   * that is active and not missing, or revoked and stale.
   */
  lemma GuardAcceptsExactly(h: History, n: nat, rawKey: string, sha: string -> string)
    requires IsHistory(h) && n <= |h.moves| && h.states[n].tasks == map[]
    ensures var s := h.states[n];
      Accepts(s.hash, rawKey, sha) <==>
        exists u :: u in s.table && sha(rawKey + s.table[u].salt) == s.table[u].key
                    && (Stale(h, n, u) || (Active(s, u) && !Missing(h, n, u)))
  {
    var s := h.states[n];
    NothingInventedByOverlaps(h, n);
    forall u | u in s.table ensures u in s.hash <==> Stale(h, n, u) || (Active(s, u) && !Missing(h, n, u)) {
      OverlapStaleExactly(h, n, u);
      if Active(s, u) {
        OverlapMissingExactly(h, n, u);
      }
    }
    if Accepts(s.hash, rawKey, sha) {
      var u :| u in s.hash && sha(rawKey + s.hash[u].salt) == s.hash[u].hashedKey;
      assert u in s.table && sha(rawKey + s.table[u].salt) == s.table[u].key;
    }
    if u :| && u in s.table && sha(rawKey + s.table[u].salt) == s.table[u].key
            && (Stale(h, n, u) || (Active(s, u) && !Missing(h, n, u))) {
      assert u in s.hash && sha(rawKey + s.hash[u].salt) == s.hash[u].hashedKey;
    }
  }

  // --- Runs without overlap -------------------------------------------------------------------

  lemma Next(h: History, m: Move, next: System) returns (h': History)
    requires IsHistory(h) && Possible(h.states[|h.moves|], m) && Make(h.states[|h.moves|], m) == next
    ensures IsHistory(h') && h' == History(h.moves + [m], h.states + [next])
  {
    h' := History(h.moves + [m], h.states + [next]);
    forall k: nat | k < |h'.moves| ensures MoveAt(h', k) {
      if k < |h.moves| {
        assert MoveAt(h, k);
      }
    }
  }

  /** The two indexes are as after the sequential run, and nothing is in flight. */
  ghost predicate At(h: History, s: State)
  {
    IsHistory(h) && h.states[|h.moves|] == System(s.table, s.hash, map[], h.states[|h.moves|].nextTask)
  }

  lemma SetsOne(h: History, t: nat, rest: map<Uid, Entry>, u: Uid) returns (h': History)
    requires IsHistory(h) && h.states[|h.moves|].tasks == map[t := Adding(rest)] && u in rest
    ensures IsHistory(h')
    ensures var s, left := h.states[|h.moves|], rest - {u};
      h'.states[|h'.moves|] == System(s.table, s.hash[u := rest[u]], if left == map[] then map[] else map[t := Adding(left)], s.nextTask)
  {
    var s, left := h.states[|h.moves|], rest - {u};
    var tasks := if left == map[] then map[] else map[t := Adding(left)];
    assert Left(map[t := Adding(rest)], t, left) == tasks;
    h' := Next(h, Set(t, u), System(s.table, s.hash[u := rest[u]], tasks, s.nextTask));
  }

  /** A start-up sets the entries of `todo`, one after the other. */
  lemma {:induction false} SetsAll(h: History, t: nat, rest: map<Uid, Entry>, todo: set<Uid>) returns (h': History)
    requires IsHistory(h) && h.states[|h.moves|].tasks == (if rest == map[] then map[] else map[t := Adding(rest)])
    requires todo <= rest.Keys
    ensures IsHistory(h')
    ensures var s := h.states[|h.moves|];
      h'.states[|h'.moves|] == System(s.table, s.hash + Loaded(rest, todo),
        if rest - todo == map[] then map[] else map[t := Adding(rest - todo)], s.nextTask)
    decreases todo
  {
    var s := h.states[|h.moves|];
    if todo == {} {
      assert rest - todo == rest && s.hash + Loaded(rest, todo) == s.hash;
      h' := h;
    } else {
      var u := AnElement(todo);
      var left := rest - {u};
      h' := SetsOne(h, t, rest, u);
      h' := SetsAll(h', t, left, todo - {u});
      assert left - (todo - {u}) == rest - todo;
      assert s.hash[u := rest[u]] + Loaded(left, todo - {u}) == s.hash + Loaded(rest, todo);
    }
  }

  lemma StartUpAlone(h: History, s: State, loaded: set<Uid>) returns (h': History)
    requires At(h, s)
    ensures At(h', Step(s, Init(loaded)))
  {
    var entries := ActiveEntries(s.table);
    var todo := set u | u in entries && u in loaded;
    var t := h.states[|h.moves|].nextTask;
    assert Loaded(entries, todo) == Loaded(entries, loaded);
    h' := h;
    if entries == map[] {
      assert s.hash + Loaded(entries, loaded) == s.hash;
    } else {
      assert map[][t := Adding(entries)] == map[t := Adding(entries)];
      h' := Next(h', FindAll, System(s.table, s.hash, map[t := Adding(entries)], t + 1));
      h' := SetsAll(h', t, entries, todo);
      var end := h'.states[|h'.moves|];
      if end.tasks != map[] {
        assert end.tasks - {t} == map[];
        h' := Next(h', Abort(t), end.(tasks := map[]));
      }
    }
  }

  /** A create or a revocation, with its access to the hash or the failure in its place. */
  lemma CallAlone(h: History, s: State, op: Op) returns (h': History)
    requires At(h, s) && Enabled(s, op) && (op.Create? || op.Revoke?)
    ensures At(h', Step(s, op))
  {
    var t, uid := h.states[|h.moves|].nextTask, op.uid;
    h' := h;
    if op.Create? {
      var e := map[uid := EntryOf(op.row)];
      assert map[][t := Adding(e)] == map[t := Adding(e)] && map[t := Adding(e)] - {t} == map[] && e - {uid} == map[];
      h' := Next(h', Insert(uid, op.row), System(s.table[uid := op.row], s.hash, map[t := Adding(e)], t + 1));
      h' := Next(h', if op.redisThrows then Abort(t) else Set(t, uid), System(Step(s, op).table, Step(s, op).hash, map[], t + 1));
    } else if uid in s.table && !s.table[uid].del {
      assert map[][t := Removing(uid)] == map[t := Removing(uid)] && map[t := Removing(uid)] - {t} == map[];
      h' := Next(h', Mark(uid), System(Step(s, op).table, s.hash, map[t := Removing(uid)], t + 1));
      h' := Next(h', if op.redisThrows then Abort(t) else Remove(t), System(Step(s, op).table, Step(s, op).hash, map[], t + 1));
    }
  }

  /** Every sequential run is one of these runs. */
  lemma {:induction false} SequentialRunsAreRuns(ops: seq<Op>) returns (h: History)
    requires Exec(ops).Some?
    ensures At(h, Exec(ops).value)
  {
    h := History([], [START]);
    if ops != [] {
      var s, op := Exec(ops[..|ops| - 1]).value, ops[|ops| - 1];
      h := SequentialRunsAreRuns(ops[..|ops| - 1]);
      match op {
        case Init(loaded) => h := StartUpAlone(h, s, loaded);
        case Lose(lost) =>
          var end := h.states[|h.moves|];
          h := Next(h, Forget(lost), end.(hash := end.hash - lost));
        case _ => h := CallAlone(h, s, op);
      }
    }
  }

  // --- It happens without any failure ---------------------------------------------------------

  /** A revocation between the two accesses of its key's create. */
  lemma RevokedDuringCreate(u: Uid, row: Row) returns (h: History)
    requires !row.del
    ensures IsHistory(h) && h.moves == [Insert(u, row), Mark(u), Remove(1), Set(0, u)]
    ensures h.states[4].tasks == map[] && u in h.states[4].hash && Revoked(h.states[4], u)
  {
    var gone, e := row.(del := true), EntryOf(row);
    var adding := Adding(map[u := e]);
    h := Next(History([], [START]), Insert(u, row), System(map[u := row], map[], map[0 := adding], 1));
    assert map[u := row][u := gone] == map[u := gone];
    h := Next(h, Mark(u), System(map[u := gone], map[], map[0 := adding][1 := Removing(u)], 2));
    assert map[0 := adding][1 := Removing(u)] - {1} == map[0 := adding];
    h := Next(h, Remove(1), System(map[u := gone], map[], map[0 := adding], 2));
    assert map[u := e] - {u} == map[] && map[0 := adding] - {0} == map[];
    h := Next(h, Set(0, u), System(map[u := gone], map[u := e], map[], 2));
  }

  /** A revocation between the two accesses of another process's start-up. */
  lemma RevokedDuringStartUp(u: Uid, row: Row) returns (h: History)
    requires !row.del
    ensures IsHistory(h) && h.moves == [Insert(u, row), Set(0, u), FindAll, Mark(u), Remove(2), Set(1, u)]
    ensures h.states[6].tasks == map[] && u in h.states[6].hash && Revoked(h.states[6], u)
  {
    var gone, e := row.(del := true), EntryOf(row);
    var adding := Adding(map[u := e]);
    h := Next(History([], [START]), Insert(u, row), System(map[u := row], map[], map[0 := adding], 1));
    assert map[u := e] - {u} == map[] && map[0 := adding] - {0} == map[];
    h := Next(h, Set(0, u), System(map[u := row], map[u := e], map[], 1));
    assert ActiveEntries(map[u := row]) == map[u := e];
    h := Next(h, FindAll, System(map[u := row], map[u := e], map[1 := adding], 2));
    h := RevokedThenSet(h, u, row);
  }

  lemma RevokedThenSet(h: History, u: Uid, row: Row) returns (h': History)
    requires IsHistory(h) && |h.moves| == 3
    requires h.states[3] == System(map[u := row], map[u := EntryOf(row)], map[1 := Adding(map[u := EntryOf(row)])], 2)
    ensures IsHistory(h') && h'.moves == h.moves + [Mark(u), Remove(2), Set(1, u)]
    ensures h'.states[6].tasks == map[] && u in h'.states[6].hash && Revoked(h'.states[6], u)
  {
    var gone, e := row.(del := true), EntryOf(row);
    var adding := Adding(map[u := e]);
    assert map[u := row][u := gone] == map[u := gone];
    h' := Next(h, Mark(u), System(map[u := gone], map[u := e], map[1 := adding][2 := Removing(u)], 3));
    assert map[1 := adding][2 := Removing(u)] - {2} == map[1 := adding] && map[u := e] - {u} == map[];
    h' := Next(h', Remove(2), System(map[u := gone], map[], map[1 := adding], 3));
    assert map[1 := adding] - {1} == map[];
    h' := Next(h', Set(1, u), System(map[u := gone], map[u := e], map[], 3));
  }
}

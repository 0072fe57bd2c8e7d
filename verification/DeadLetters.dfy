/** The dead-letter table and its paged query. */
module DeadLetters {
  import opened Common
  import opened Json
  import opened Entities

  type RowId = nat

  datatype Row = Row(
    message: Json,
    idInbox: Option<InboxId>,
    status: StatusFalhaMensagem,
    reenviado: bool,
    del: bool,
    data: int)

  datatype Filter = Filter(
    status: Option<StatusFalhaMensagem>,
    idInbox: Option<InboxId>,
    reenviado: Option<bool>,
    dataInicio: Option<int>,
    dataFim: Option<int>,
    limit: nat,
    offset: nat)

  const DEFAULT_LIMIT: nat := 50

  const EMPTY_FILTER := Filter(None, None, None, None, None, DEFAULT_LIMIT, 0)

  /** The `where` object `findMany` builds field by field. */
  predicate Matches(f: Filter, row: Row)
  {
    && !row.del
    && (f.status.Some? ==> row.status == f.status.value)
    && (f.idInbox.Some? ==> row.idInbox == f.idInbox)
    && (f.reenviado.Some? ==> row.reenviado == f.reenviado.value)
    && (f.dataInicio.Some? ==> row.data >= f.dataInicio.value)
    && (f.dataFim.Some? ==> row.data <= f.dataFim.value)
  }

  function Matching(rows: map<RowId, Row>, f: Filter): set<RowId>
  {
    set r | r in rows && Matches(f, rows[r])
  }

  /** The rows `ids`, each once, newest first; rows of the same instant in any order. */
  ghost predicate NewestFirst(rows: map<RowId, Row>, ids: set<RowId>, all: seq<RowId>)
  {
    && Elements(all) == ids
    && Distinct(all)
    && (forall i, j :: 0 <= i < j < |all| ==> all[i] in rows && all[j] in rows && rows[all[i]].data >= rows[all[j]].data)
  }

  lemma NewestFirstAppend(rows: map<RowId, Row>, ids: set<RowId>, all: seq<RowId>, next: RowId)
    requires NewestFirst(rows, ids, all) && ids <= rows.Keys && next in rows && next !in ids
    requires forall o :: o in ids ==> rows[o].data >= rows[next].data
    ensures NewestFirst(rows, ids + {next}, all + [next])
  {
    assert forall i :: 0 <= i < |all| ==> all[i] in Elements(all);
    assert Elements(all + [next]) == Elements(all) + {next};
  }

  function Window(all: seq<RowId>, offset: nat, limit: nat): seq<RowId>
  {
    if offset >= |all| then [] else all[offset..Min(offset + limit, |all|)]
  }

  /** A result of `findMany`: a window of all matching rows, newest first. */
  ghost predicate IsPage(rows: map<RowId, Row>, f: Filter, page: seq<RowId>)
  {
    exists all: seq<RowId> :: NewestFirst(rows, Matching(rows, f), all) && page == Window(all, f.offset, f.limit)
  }

  lemma PageMatches(rows: map<RowId, Row>, f: Filter, page: seq<RowId>)
    requires IsPage(rows, f, page)
    ensures Distinct(page) && Elements(page) <= Matching(rows, f) && |page| <= f.limit
    ensures f.offset == 0 ==> |page| == Min(f.limit, |Matching(rows, f)|)
  {
    var all: seq<RowId> :| NewestFirst(rows, Matching(rows, f), all) && page == Window(all, f.offset, f.limit);
    DistinctSize(all);
    forall r | r in page ensures r in Matching(rows, f) {
      assert r in all;
      assert r in Elements(all);
    }
  }

  lemma {:induction false} NewestExists(rows: map<RowId, Row>, ids: set<RowId>) returns (newest: RowId)
    requires ids != {} && ids <= rows.Keys
    ensures newest in ids && forall o :: o in ids ==> rows[o].data <= rows[newest].data
    decreases |ids|
  {
    var some := AnElement(ids);
    var rest := ids - {some};
    assert ids == rest + {some};
    if rest == {} {
      newest := some;
    } else {
      newest := NewestExists(rows, rest);
      if rows[newest].data < rows[some].data {
        newest := some;
      }
    }
  }

  /** What a query asks of a row: the row is not deleted, and each field that is given fits. */
  predicate Asked(f: Filter, row: Row)
  {
    && !row.del
    && (f.status.None? || f.status.value == row.status) && (f.idInbox.None? || f.idInbox == row.idInbox)
    && (f.reenviado.None? || f.reenviado.value == row.reenviado)
    && (f.dataInicio.None? || f.dataInicio.value <= row.data) && (f.dataFim.None? || row.data <= f.dataFim.value)
  }

  function AskedFor(rows: map<RowId, Row>, f: Filter): set<RowId>
  {
    set r | r in rows && Asked(f, rows[r])
  }

  /** The rows asked for that are strictly newer than `than`. */
  function AskedAfter(rows: map<RowId, Row>, f: Filter, than: int): set<RowId>
  {
    set r | r in rows && Asked(f, rows[r]) && rows[r].data > than
  }

  /** Row `i` of a page has at most offset + i rows that are newer, and more than that at least as new. */
  ghost predicate InRank(rows: map<RowId, Row>, f: Filter, page: seq<RowId>, i: nat)
    requires i < |page|
  {
    && page[i] in rows && Asked(f, rows[page[i]])
    && |AskedAfter(rows, f, rows[page[i]].data)| <= f.offset + i < |AskedAfter(rows, f, rows[page[i]].data - 1)|
  }

  /** A page has the rows asked for from the offset on, by their rank in time, each once, as many as there are up to the limit. */
  lemma PageExactly(rows: map<RowId, Row>, f: Filter, page: seq<RowId>)
    requires IsPage(rows, f, page)
    ensures Distinct(page) && forall i: nat :: i < |page| ==> InRank(rows, f, page, i)
    ensures |page| == var n := |AskedFor(rows, f)|; if n <= f.offset then 0 else Min(f.limit, n - f.offset)
  {
    PageMatches(rows, f, page);
    AskedIsMatching(rows, f);
    var all: seq<RowId> :| NewestFirst(rows, Matching(rows, f), all) && page == Window(all, f.offset, f.limit);
    DistinctSize(all);
    forall i: nat | i < |page| ensures InRank(rows, f, page, i) {
      assert page[i] == all[f.offset + i];
      var n := f.offset + i;
      assert all[n] in Elements(all);
      NewerAreBefore(rows, f, all, n);
      UpToAreAsNew(rows, f, all, n);
      assert Distinct(all[..n]) && Distinct(all[..n + 1]);
      DistinctSize(all[..n]);
      DistinctSize(all[..n + 1]);
      KeysShrink(Elements(all[..n]), AskedAfter(rows, f, rows[all[n]].data));
      KeysShrink(AskedAfter(rows, f, rows[all[n]].data - 1), Elements(all[..n + 1]));
    }
  }

  lemma AskedIsMatching(rows: map<RowId, Row>, f: Filter)
    ensures AskedFor(rows, f) == Matching(rows, f)
  {
    forall r | r in rows ensures Asked(f, rows[r]) <==> Matches(f, rows[r]) {
    }
  }

  lemma NewerAreBefore(rows: map<RowId, Row>, f: Filter, all: seq<RowId>, n: nat)
    requires NewestFirst(rows, AskedFor(rows, f), all) && n < |all| && all[n] in rows
    ensures AskedAfter(rows, f, rows[all[n]].data) <= Elements(all[..n])
  {
    var before := all[..n];
    forall r | r in AskedAfter(rows, f, rows[all[n]].data) ensures r in Elements(before) {
      assert r in Elements(all);
      var m :| 0 <= m < |all| && all[m] == r;
      assert all[m] == before[m];
    }
  }

  lemma UpToAreAsNew(rows: map<RowId, Row>, f: Filter, all: seq<RowId>, n: nat)
    requires NewestFirst(rows, AskedFor(rows, f), all) && n < |all| && all[n] in rows
    ensures Elements(all[..n + 1]) <= AskedAfter(rows, f, rows[all[n]].data - 1)
  {
    var upTo := all[..n + 1];
    forall r | r in Elements(upTo) ensures r in AskedAfter(rows, f, rows[all[n]].data - 1) {
      var m :| 0 <= m < |upTo| && upTo[m] == r;
      assert all[m] == r && all[m] in Elements(all);
    }
  }

  class DeadLetterRepository {
    var rows: map<RowId, Row>

    /** The new row is unmarked, not deleted, and holds the message as it came. */
    method Create(message: Json, idInbox: Option<InboxId>, status: StatusFalhaMensagem, id: RowId, now: int)
      requires id !in rows
      modifies this
      ensures rows == old(rows)[id := Row(message, idInbox, status, false, false, now)]
    {
      rows := rows[id := Row(message, idInbox, status, false, false, now)];
    }

    method FindMany(f: Filter) returns (page: seq<RowId>)
      ensures IsPage(rows, f, page)
      ensures forall i: nat :: i < |page| ==> InRank(rows, f, page, i)
    {
      var all: seq<RowId> := [];
      var rest := Matching(rows, f);
      while rest != {}
        invariant rest <= Matching(rows, f) && NewestFirst(rows, Matching(rows, f) - rest, all)
        invariant forall o, p :: o in Matching(rows, f) - rest && p in rest ==> rows[o].data >= rows[p].data
        decreases |rest|
      {
        ghost var w := NewestExists(rows, rest);
        var next: RowId :| next in rest && forall o :: o in rest ==> rows[o].data <= rows[next].data;
        NewestFirstAppend(rows, Matching(rows, f) - rest, all, next);
        assert Matching(rows, f) - rest + {next} == Matching(rows, f) - (rest - {next});
        all := all + [next];
        rest := rest - {next};
      }
      assert Matching(rows, f) - rest == Matching(rows, f);
      page := Window(all, f.offset, f.limit);
      PageExactly(rows, f, page);
    }

    /** Marking changes that one flag; a row removed meanwhile makes the update throw. */
    method MarkReenviado(id: RowId) returns (threw: bool)
      modifies this
      ensures threw <==> id !in old(rows)
      ensures rows == if threw then old(rows) else old(rows)[id := old(rows)[id].(reenviado := true)]
    {
      if id !in rows {
        return true;
      }
      rows := rows[id := rows[id].(reenviado := true)];
      return false;
    }

    method HardDeleteOlderThan(cutoff: int) returns (count: nat)
      modifies this
      ensures rows == map r | r in old(rows) && old(rows)[r].data >= cutoff :: old(rows)[r]
      ensures count == |old(rows)| - |rows|
    {
      var kept := map r | r in rows && rows[r].data >= cutoff :: rows[r];
      assert kept.Keys <= rows.Keys;
      KeysShrink(rows.Keys, kept.Keys);
      count := |rows.Keys| - |kept.Keys|;
      rows := kept;
    }
  }

  lemma KeysShrink(all: set<RowId>, kept: set<RowId>)
    requires kept <= all
    ensures |kept| <= |all|
  {
    assert all == kept + (all - kept);
  }
}

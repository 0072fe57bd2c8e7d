/**
 * Whether repeated `resend` calls get the rows of a pid out again. The page holds the newest 50 rows
 * found, before the rows of other inboxes are dropped. So rows that no call marks hold up older ones,
 * and so do the new rows of messages whose dispatch failed once more.
 */
module ResendDrain {
  import opened Common
  import opened Json
  import opened Entities
  import opened Dispatch
  import opened DeadLetters
  import opened Resend

  /** One selection: the request, the inboxes of its pid, and the query it leads to. */
  datatype Selection = Selection(input: Input, ids: set<InboxId>, filter: Filter)

  predicate Valid(s: Selection)
  {
    IsFilter(s.input, s.ids, s.filter)
  }

  /** The rows a call is asked to resend: found by the query, kept by the cut, and with an inbox. */
  function Own(rows: map<RowId, Row>, s: Selection): set<RowId>
  {
    set r | r in rows && Matches(s.filter, rows[r]) && Kept(s.input, s.ids, rows[r]) && rows[r].idInbox.Some?
  }

  /** They are what the request asks for. */
  lemma OwnIsWanted(rows: map<RowId, Row>, inboxes: map<InboxId, Inbox>, s: Selection, r: RowId)
    requires Valid(s) && s.ids == (if s.input.pid == "" then {} else InboxesOf(inboxes, s.input.pid)) && (s.input.pid != "" ==> s.ids != {})
    ensures r in Own(rows, s) <==> r in rows && Wanted(inboxes, s.input, rows[r])
  {
    if r in rows {
      WantedExactly(inboxes, s.input, s.ids, s.filter, rows[r]);
    }
  }

  /** The rows found by the query that no call marks. */
  function Foreign(rows: map<RowId, Row>, s: Selection): set<RowId>
  {
    Matching(rows, s.filter) - Own(rows, s)
  }

  /** Those of `ids` at least as new as `since`. */
  function Since(rows: map<RowId, Row>, ids: set<RowId>, since: int): set<RowId>
  {
    set r | r in ids && r in rows && rows[r].data >= since
  }

  function Newer(rows: map<RowId, Row>, ids: set<RowId>, than: int): set<RowId>
  {
    set r | r in ids && r in rows && rows[r].data > than
  }

  function MarkedBy(rows: map<RowId, Row>, s: Selection, page: seq<RowId>): set<RowId>
  {
    Resent(rows, Candidates(rows, s.input, s.ids, page), {})
  }

  // --- Rounds ---------------------------------------------------------------------------------

  /** `after` is `rows` with more rows, none of them older than any that was there. */
  ghost predicate Extends(rows: map<RowId, Row>, after: map<RowId, Row>)
  {
    && (forall r :: r in rows ==> r in after && after[r] == rows[r])
    && (forall a, r :: a in after && a !in rows && r in rows ==> after[a].data >= rows[r].data)
  }

  /** The row the consumer makes of the dead letter of a row that was dispatched in vain. */
  predicate Again(row: Row, again: Row)
  {
    again.message == row.message && again.idInbox == row.idInbox && !again.reenviado && !again.del
  }

  ghost predicate IsCopy(rows: map<RowId, Row>, dead: set<RowId>, after: map<RowId, Row>, copy: map<RowId, RowId>)
  {
    && copy.Keys == dead
    && (forall r :: r in dead ==> r in rows && copy[r] in after && copy[r] !in rows && Again(rows[r], after[copy[r]]))
    && (forall q, r :: q in dead && r in dead && copy[q] == copy[r] ==> q == r)
  }

  /** Each of the rows `dead` is in the table once more. */
  ghost predicate Requeued(rows: map<RowId, Row>, dead: set<RowId>, after: map<RowId, Row>)
  {
    exists copy: map<RowId, RowId> :: IsCopy(rows, dead, after, copy)
  }

  /** A call: the database's answer, and the rows whose dispatch was dead-lettered and stored again. */
  datatype Round = Round(page: seq<RowId>, dead: set<RowId>)

  /** One whole `resend` in which no mark throws, and what arrives in the table until the next one. */
  ghost predicate RoundStep(rows: map<RowId, Row>, s: Selection, x: Round, after: map<RowId, Row>)
  {
    && IsPage(rows, s.filter, x.page)
    && x.dead <= MarkedBy(rows, s, x.page)
    && Extends(Marked(rows, MarkedBy(rows, s, x.page)), after)
    && Requeued(rows, x.dead, after)
  }

  ghost predicate Rounds(run: seq<map<RowId, Row>>, s: Selection, xs: seq<Round>)
  {
    |run| == |xs| + 1 && forall k :: 0 <= k < |xs| ==> RoundStep(run[k], s, xs[k], run[k + 1])
  }

  /** Nothing arrived that the selection would find. */
  ghost predicate Quiet(rows: map<RowId, Row>, s: Selection, after: map<RowId, Row>)
  {
    forall a :: a in after && a !in rows ==> !Matches(s.filter, after[a])
  }

  ghost predicate QuietRounds(run: seq<map<RowId, Row>>, s: Selection, xs: seq<Round>)
  {
    Rounds(run, s, xs) && forall k :: 0 <= k < |xs| ==> Quiet(run[k], s, run[k + 1])
  }

  /**
   * When a round is quiet: nothing arrives at all, as when every dispatch delivers and no other
   * message fails; or the request's interval ends before what arrives, whatever the dispatches give.
   */
  lemma QuietWhen(rows: map<RowId, Row>, s: Selection, x: Round, after: map<RowId, Row>)
    requires Valid(s) && RoundStep(rows, s, x, after)
    ensures after.Keys == rows.Keys ==> x.dead == {} && Quiet(rows, s, after)
    ensures s.input.dataFim.Some? && (forall a :: a in after && a !in rows ==> after[a].data > s.input.dataFim.value) ==>
      Quiet(rows, s, after)
  {
    var copy: map<RowId, RowId> :| IsCopy(rows, x.dead, after, copy);
    if x.dead != {} {
      var r := AnElement(x.dead);
      assert copy[r] in after.Keys && copy[r] !in rows.Keys;
    }
  }

  // --- The method `Resend` and the consumer make such rounds ----------------------------------

  /** The rows among the first `n` whose `handle` queued its message again. */
  function DeadOf(c: seq<RowId>, runs: seq<RowRun>, n: nat): seq<RowId>
    requires n <= |runs| && |runs| == |c|
  {
    if n == 0 then [] else
    DeadOf(c, runs, n - 1) + if runs[n - 1].Call? && runs[n - 1].queued != [] then [c[n - 1]] else []
  }

  ghost predicate DiedAt(c: seq<RowId>, runs: seq<RowRun>, m: nat, r: RowId)
    requires |runs| == |c|
  {
    m < |c| && c[m] == r && runs[m].Call? && runs[m].queued != []
  }

  lemma {:induction false} DeadOfIs(c: seq<RowId>, runs: seq<RowRun>, n: nat)
    requires n <= |runs| && |runs| == |c| && Distinct(c)
    ensures Distinct(DeadOf(c, runs, n))
    ensures forall r :: r in DeadOf(c, runs, n) ==> exists m: nat :: m < n && DiedAt(c, runs, m, r)
  {
    if n > 0 {
      DeadOfIs(c, runs, n - 1);
      var before := DeadOf(c, runs, n - 1);
      forall i | 0 <= i < |before| ensures before[i] != c[n - 1] {
        assert before[i] in before;
        var m: nat :| m < n - 1 && DiedAt(c, runs, m, before[i]);
      }
      forall r | r in DeadOf(c, runs, n) ensures exists m: nat :: m < n && DiedAt(c, runs, m, r) {
        if r in before {
          var m: nat :| m < n - 1 && DiedAt(c, runs, m, r);
        } else {
          assert DiedAt(c, runs, n - 1, r);
        }
      }
    }
  }

  /** The table with the rows `news` inserted. */
  function AddAll(rows: map<RowId, Row>, news: seq<(RowId, Row)>): map<RowId, Row>
  {
    if news == [] then rows else AddAll(rows, news[..|news| - 1])[news[|news| - 1].0 := news[|news| - 1].1]
  }

  /** Inserted rows have ids of their own and the time of their insert. */
  ghost predicate Arrive(rows: map<RowId, Row>, news: seq<(RowId, Row)>)
  {
    && (forall j :: 0 <= j < |news| ==> news[j].0 !in rows && forall r :: r in rows ==> rows[r].data <= news[j].1.data)
    && (forall i, j :: 0 <= i < j < |news| ==> news[i].0 != news[j].0)
  }

  lemma {:induction false} AddAllExtends(rows: map<RowId, Row>, news: seq<(RowId, Row)>)
    requires Arrive(rows, news)
    ensures Extends(rows, AddAll(rows, news))
    ensures forall j :: 0 <= j < |news| ==> news[j].0 in AddAll(rows, news) && AddAll(rows, news)[news[j].0] == news[j].1
  {
    if news != [] {
      AddAllExtends(rows, news[..|news| - 1]);
    }
  }

  lemma {:induction false} CopiesOf(rows: map<RowId, Row>, dead: seq<RowId>, news: seq<(RowId, Row)>, after: map<RowId, Row>)
    returns (copy: map<RowId, RowId>)
    requires Distinct(dead) && |dead| <= |news| && Arrive(rows, news)
    requires forall j :: 0 <= j < |news| ==> news[j].0 in after && after[news[j].0] == news[j].1
    requires forall j :: 0 <= j < |dead| ==> dead[j] in rows && Again(rows[dead[j]], news[j].1)
    ensures IsCopy(rows, Elements(dead), after, copy)
    ensures forall r :: r in copy ==> exists j :: 0 <= j < |dead| && copy[r] == news[j].0
    decreases |dead|
  {
    if dead == [] {
      copy := map[];
    } else {
      var n := |dead| - 1;
      var copy' := CopiesOf(rows, dead[..n], news, after);
      copy := copy'[dead[n] := news[n].0];
      assert dead == dead[..n] + [dead[n]];
      assert Elements(dead) == Elements(dead[..n]) + {dead[n]};
    }
  }

  /**
   * What `Resend` ensures when no mark throws, followed by the inserts of the consumer for the
   * messages it queued and any other inserts, is a round.
   */
  lemma ResendIsARound(before: map<RowId, Row>, s: Selection, page: seq<RowId>, c: seq<RowId>, runs: seq<RowRun>,
                       inboxes: map<InboxId, Inbox>, ambientes: map<int, Ambiente>, world: RowId -> World, news: seq<(RowId, Row)>)
    requires IsFilter(s.input, s.ids, s.filter) && IsPage(before, s.filter, page)
    requires c == Candidates(before, s.input, s.ids, page)
    requires |runs| == |c| && RunsOf(before, c, runs, inboxes, ambientes, world)
    requires Arrive(Marked(before, Resent(before, c, {})), news) && |DeadOf(c, runs, |runs|)| <= |news|
    requires var dead := DeadOf(c, runs, |runs|);
      forall j :: 0 <= j < |dead| ==> dead[j] in before && Again(before[dead[j]], news[j].1)
    ensures Valid(s)
    ensures RoundStep(before, s, Round(page, Elements(DeadOf(c, runs, |runs|))), AddAll(Marked(before, Resent(before, c, {})), news))
  {
    var dead := DeadOf(c, runs, |runs|);
    var now := Marked(before, Resent(before, c, {}));
    var after := AddAll(now, news);
    PageMatches(before, s.filter, page);
    CandidatesAre(before, s.input, s.ids, page);
    DeadOfIs(c, runs, |runs|);
    AddAllExtends(now, news);
    DeadAreMarked(before, s, page, c, runs, inboxes, ambientes, world);
    ArriveEarlier(before, Resent(before, c, {}), news);
    var copy := CopiesOf(before, dead, news, after);
  }

  lemma ArriveEarlier(rows: map<RowId, Row>, marked: set<RowId>, news: seq<(RowId, Row)>)
    requires Arrive(Marked(rows, marked), news)
    ensures Arrive(rows, news)
  {
    var now := Marked(rows, marked);
    assert forall r :: r in rows ==> r in now && now[r].data == rows[r].data;
  }

  lemma DeadAreMarked(before: map<RowId, Row>, s: Selection, page: seq<RowId>, c: seq<RowId>, runs: seq<RowRun>,
                      inboxes: map<InboxId, Inbox>, ambientes: map<int, Ambiente>, world: RowId -> World)
    requires c == Candidates(before, s.input, s.ids, page) && Distinct(c)
    requires |runs| == |c| && RunsOf(before, c, runs, inboxes, ambientes, world)
    ensures Elements(DeadOf(c, runs, |runs|)) <= MarkedBy(before, s, page)
  {
    DeadOfIs(c, runs, |runs|);
    forall r | r in DeadOf(c, runs, |runs|) ensures r in MarkedBy(before, s, page) {
      var m: nat :| m < |runs| && DiedAt(c, runs, m, r);
      assert RunAt(before, c[m], runs[m], inboxes, ambientes, world(c[m]));
    }
  }

  lemma MarkedByIsOwn(rows: map<RowId, Row>, s: Selection, page: seq<RowId>)
    requires IsPage(rows, s.filter, page)
    ensures MarkedBy(rows, s, page) == Elements(page) * Own(rows, s)
  {
    PageMatches(rows, s.filter, page);
    CandidatesAre(rows, s.input, s.ids, page);
    var c := Candidates(rows, s.input, s.ids, page);
    assert forall r :: r in c <==> r in Elements(c);
    assert forall r :: r in page <==> r in Elements(page);
  }

  /** A quiet round of an unforced request takes exactly the marked rows out of the selection. */
  lemma AfterQuietRound(rows: map<RowId, Row>, s: Selection, marked: set<RowId>, after: map<RowId, Row>)
    requires Valid(s) && !s.input.forcarReenviadas && marked <= Own(rows, s)
    requires Extends(Marked(rows, marked), after) && Quiet(rows, s, after)
    ensures Own(after, s) == Own(rows, s) - marked
    ensures Foreign(after, s) == Foreign(rows, s)
    ensures forall r :: r in rows ==> r in after && after[r].data == rows[r].data
  {
    var now := Marked(rows, marked);
    assert forall r :: r in rows ==> r in now && after[r] == now[r];
    assert forall r :: r in marked ==> !Matches(s.filter, after[r]);
    assert forall r :: r in rows && r !in marked ==> after[r] == rows[r];
  }

  // --- Pages ----------------------------------------------------------------------------------

  lemma NewestFirstJoin(rows: map<RowId, Row>, a: set<RowId>, b: set<RowId>, va: seq<RowId>, vb: seq<RowId>)
    requires NewestFirst(rows, a, va) && NewestFirst(rows, b, vb) && a !! b && a + b <= rows.Keys
    requires forall i, j :: i in a && j in b ==> rows[i].data >= rows[j].data
    ensures NewestFirst(rows, a + b, va + vb)
  {
    assert forall i :: 0 <= i < |va| ==> va[i] in Elements(va);
    assert forall i :: 0 <= i < |vb| ==> vb[i] in Elements(vb);
    assert Elements(va + vb) == Elements(va) + Elements(vb);
  }

  lemma {:induction false} SomeOrder(rows: map<RowId, Row>, ids: set<RowId>) returns (all: seq<RowId>)
    requires ids <= rows.Keys
    ensures NewestFirst(rows, ids, all)
    decreases |ids|
  {
    if ids == {} {
      all := [];
    } else {
      var newest := NewestExists(rows, ids);
      var rest := SomeOrder(rows, ids - {newest});
      assert ids == {newest} + (ids - {newest});
      assert Elements([newest]) == {newest};
      NewestFirstJoin(rows, {newest}, ids - {newest}, [newest], rest);
      all := [newest] + rest;
    }
  }

  /** Rows at least as new as all others may fill the page before them. */
  lemma PageOf(rows: map<RowId, Row>, f: Filter, first: set<RowId>) returns (page: seq<RowId>)
    requires f.offset == 0 && first <= Matching(rows, f)
    requires forall i, j :: i in first && j in Matching(rows, f) - first ==> rows[i].data >= rows[j].data
    ensures IsPage(rows, f, page)
    ensures |first| >= f.limit ==> Elements(page) <= first
    ensures |first| <= f.limit ==> first <= Elements(page)
  {
    var rest := Matching(rows, f) - first;
    var a := SomeOrder(rows, first);
    var b := SomeOrder(rows, rest);
    NewestFirstJoin(rows, first, rest, a, b);
    assert first + rest == Matching(rows, f);
    DistinctSize(a);
    page := Window(a + b, 0, f.limit);
    assert NewestFirst(rows, Matching(rows, f), a + b);
    WindowOfJoin(a, b, f.limit);
  }

  lemma WindowOfJoin(a: seq<RowId>, b: seq<RowId>, limit: nat)
    ensures |a| >= limit ==> Elements(Window(a + b, 0, limit)) <= Elements(a)
    ensures |a| <= limit ==> Elements(a) <= Elements(Window(a + b, 0, limit))
  {
    var page := Window(a + b, 0, limit);
    assert |a| >= limit ==> page == a[..limit];
    assert |a| <= limit ==> page[..|a|] == a;
  }

  /** A row left out of a page: the page is full, and of rows at least as new. */
  lemma LeftOut(rows: map<RowId, Row>, f: Filter, page: seq<RowId>, r: RowId)
    requires IsPage(rows, f, page) && f.offset == 0 && r in Matching(rows, f) && r !in page
    ensures |Elements(page)| == f.limit
    ensures Elements(page) <= Since(rows, Matching(rows, f), rows[r].data)
  {
    PageMatches(rows, f, page);
    DistinctSize(page);
    var all: seq<RowId> :| NewestFirst(rows, Matching(rows, f), all) && page == Window(all, f.offset, f.limit);
    assert r in Elements(all);
    var n :| 0 <= n < |all| && all[n] == r;
    assert forall m :: 0 <= m < |page| ==> all[m] == page[m];
    assert n >= |page|;
    forall o | o in page ensures o in Since(rows, Matching(rows, f), rows[r].data) {
      var m :| 0 <= m < |page| && page[m] == o;
      assert all[m] == o;
    }
  }

  lemma SubsetSize(a: set<RowId>, b: set<RowId>)
    requires a <= b
    ensures |a| <= |b|
  {
    assert b == a + (b - a);
  }

  /** 50 strictly newer rows keep a row off every page, own rows included. */
  lemma NotPicked(rows: map<RowId, Row>, f: Filter, page: seq<RowId>, r: RowId)
    requires IsPage(rows, f, page) && f.offset == 0 && r in rows
    requires |Newer(rows, Matching(rows, f), rows[r].data)| >= f.limit
    ensures r !in page
  {
    var crowd := Newer(rows, Matching(rows, f), rows[r].data);
    PageMatches(rows, f, page);
    DistinctSize(page);
    if r in page {
      assert r in Elements(page);
      forall q | q in crowd ensures q in Elements(page) {
        if q !in page {
          LeftOut(rows, f, page, q);
        }
      }
      assert crowd <= Elements(page) - {r};
      SubsetSize(crowd, Elements(page) - {r});
    }
  }

  // --- One row: when a call marks it ----------------------------------------------------------

  /** A row is marked on every answer of the database exactly if fewer than 50 others found are as new. */
  lemma EveryAnswerMarksExactly(rows: map<RowId, Row>, s: Selection, r: RowId)
    requires Valid(s) && r in Own(rows, s)
    ensures (forall page :: IsPage(rows, s.filter, page) ==> r in MarkedBy(rows, s, page))
        <==> |Since(rows, Matching(rows, s.filter), rows[r].data) - {r}| < s.filter.limit
  {
    var others := Since(rows, Matching(rows, s.filter), rows[r].data) - {r};
    if |others| < s.filter.limit {
      forall page | IsPage(rows, s.filter, page) ensures r in MarkedBy(rows, s, page) {
        MarkedByIsOwn(rows, s, page);
        if r !in page {
          LeftOut(rows, s.filter, page, r);
          assert Elements(page) <= others;
          SubsetSize(Elements(page), others);
        }
      }
    } else {
      var page := PageOf(rows, s.filter, others);
      MarkedByIsOwn(rows, s, page);
      assert r !in MarkedBy(rows, s, page);
    }
  }

  /** A row is marked on some answer exactly if fewer than 50 rows found are strictly newer. */
  lemma SomeAnswerMarksExactly(rows: map<RowId, Row>, s: Selection, r: RowId)
    requires Valid(s) && r in Own(rows, s)
    ensures (exists page :: IsPage(rows, s.filter, page) && r in MarkedBy(rows, s, page))
        <==> |Newer(rows, Matching(rows, s.filter), rows[r].data)| < s.filter.limit
  {
    if |Newer(rows, Matching(rows, s.filter), rows[r].data)| < s.filter.limit {
      var page := PageWith(rows, s, r);
    } else {
      forall page | IsPage(rows, s.filter, page) ensures r !in MarkedBy(rows, s, page) {
        MarkedByIsOwn(rows, s, page);
        NotPicked(rows, s.filter, page, r);
      }
    }
  }

  lemma PageWith(rows: map<RowId, Row>, s: Selection, r: RowId) returns (page: seq<RowId>)
    requires Valid(s) && r in Own(rows, s)
    requires |Newer(rows, Matching(rows, s.filter), rows[r].data)| < s.filter.limit
    ensures IsPage(rows, s.filter, page) && r in MarkedBy(rows, s, page)
  {
    page := PageOf(rows, s.filter, Newer(rows, Matching(rows, s.filter), rows[r].data) + {r});
    MarkedByIsOwn(rows, s, page);
  }

  // --- One inbox: the drain -------------------------------------------------------------------

  /** Each unforced quiet round for a pid with one inbox takes min(50, n) of its n rows out. */
  lemma CallDrains(rows: map<RowId, Row>, s: Selection, x: Round, after: map<RowId, Row>)
    requires Valid(s) && |s.ids| == 1 && !s.input.forcarReenviadas
    requires RoundStep(rows, s, x, after) && Quiet(rows, s, after)
    ensures |Own(after, s)| == |Own(rows, s)| - Min(50, |Own(rows, s)|)
  {
    MarkedByIsOwn(rows, s, x.page);
    PageMatches(rows, s.filter, x.page);
    DistinctSize(x.page);
    assert Matching(rows, s.filter) == Own(rows, s);
    assert Elements(x.page) * Own(rows, s) == Elements(x.page);
    AfterQuietRound(rows, s, Elements(x.page), after);
  }

  /**
   * If nothing arrives that the selection finds, k calls leave max(0, n - 50k) of n rows: none
   * exactly from call number ceil(n / 50) on.
   */
  lemma {:induction false} Drain(run: seq<map<RowId, Row>>, s: Selection, xs: seq<Round>, k: nat)
    requires Valid(s) && |s.ids| == 1 && !s.input.forcarReenviadas
    requires QuietRounds(run, s, xs) && k < |run|
    ensures |Own(run[k], s)| == |Own(run[0], s)| - Min(50 * k, |Own(run[0], s)|)
    ensures Own(run[k], s) == {} <==> k >= (|Own(run[0], s)| + 49) / 50
  {
    if k > 0 {
      Drain(run, s, xs, k - 1);
      assert RoundStep(run[k - 1], s, xs[k - 1], run[k - 1 + 1]) && Quiet(run[k - 1], s, run[k - 1 + 1]);
      CallDrains(run[k - 1], s, xs[k - 1], run[k]);
    }
  }

  // --- Failing dispatches: the old rows are never reached -------------------------------------

  /** The interval of the request is not over yet, if it has an end at all. */
  ghost predicate NotOver(rows: map<RowId, Row>, s: Selection)
  {
    s.input.dataFim.Some? ==> forall r :: r in rows ==> rows[r].data <= s.input.dataFim.value
  }

  /**
   * Every dispatch of the run was in vain: each marked row is back before the next call, and
   * within the interval of the request.
   */
  ghost predicate AllInVain(run: seq<map<RowId, Row>>, s: Selection, xs: seq<Round>)
  {
    && Rounds(run, s, xs)
    && (forall k :: 0 <= k < |xs| ==> xs[k].dead == MarkedBy(run[k], s, xs[k].page))
    && (forall k :: 0 <= k < |run| ==> NotOver(run[k], s))
  }

  lemma {:induction false} ImageSize(ids: set<RowId>, copy: map<RowId, RowId>)
    requires ids <= copy.Keys && forall q, r :: q in ids && r in ids && copy[q] == copy[r] ==> q == r
    ensures |set r | r in ids :: copy[r]| == |ids|
    decreases |ids|
  {
    if ids != {} {
      var r := AnElement(ids);
      ImageSize(ids - {r}, copy);
      assert (set q | q in ids :: copy[q]) == (set q | q in ids - {r} :: copy[q]) + {copy[r]};
    }
  }

  /** A round in vain leaves a crowded-out row as it is, and as crowded out as it was. */
  lemma VainRound(rows: map<RowId, Row>, s: Selection, x: Round, after: map<RowId, Row>, r: RowId)
    requires Valid(s) && !s.input.forcarReenviadas && NotOver(after, s)
    requires RoundStep(rows, s, x, after) && x.dead == MarkedBy(rows, s, x.page)
    requires r in rows && |Newer(rows, Matching(rows, s.filter), rows[r].data)| >= s.filter.limit
    ensures r in after && after[r] == rows[r]
    ensures |Newer(after, Matching(after, s.filter), after[r].data)| >= s.filter.limit
  {
    var marked := MarkedBy(rows, s, x.page);
    MarkedByIsOwn(rows, s, x.page);
    NotPicked(rows, s.filter, x.page, r);
    assert r !in marked && Marked(rows, marked)[r] == rows[r];
    var was := Newer(rows, Matching(rows, s.filter), rows[r].data);
    var now := Newer(after, Matching(after, s.filter), rows[r].data);
    var copy: map<RowId, RowId> :| IsCopy(rows, marked, after, copy);
    var copies := set q | q in marked :: copy[q];
    ImageSize(marked, copy);
    KeptAreFound(rows, s, marked, after, was, rows[r].data);
    CopiesAreFound(rows, s, marked, after, copy, was, rows[r].data);
    SubsetSize((was - marked) + copies, now);
    assert |(was - marked) + copies| == |was - marked| + |copies| by {
      assert (was - marked) !! copies;
    }
    SubsetSize(was, (was - marked) + marked);
  }

  lemma KeptAreFound(rows: map<RowId, Row>, s: Selection, marked: set<RowId>, after: map<RowId, Row>, was: set<RowId>, than: int)
    requires Extends(Marked(rows, marked), after) && was == Newer(rows, Matching(rows, s.filter), than)
    ensures was - marked <= Newer(after, Matching(after, s.filter), than)
  {
    forall q | q in was - marked ensures q in Newer(after, Matching(after, s.filter), than) {
      assert q in Marked(rows, marked) && after[q] == rows[q];
    }
  }

  lemma CopiesAreFound(rows: map<RowId, Row>, s: Selection, marked: set<RowId>, after: map<RowId, Row>,
                       copy: map<RowId, RowId>, was: set<RowId>, than: int)
    requires Valid(s) && !s.input.forcarReenviadas && NotOver(after, s) && marked <= Own(rows, s)
    requires Extends(Marked(rows, marked), after) && IsCopy(rows, marked, after, copy)
    requires was == Newer(rows, Matching(rows, s.filter), than) && was != {}
    ensures (set q | q in marked :: copy[q]) <= Newer(after, Matching(after, s.filter), than)
    ensures (set q | q in marked :: copy[q]) !! rows.Keys
  {
    var n := AnElement(was);
    var now := Marked(rows, marked);
    assert n in now && now[n].data == rows[n].data;
    forall q | q in marked ensures copy[q] in Newer(after, Matching(after, s.filter), than) {
      assert q in now && now[q].data == rows[q].data;
      assert copy[q] !in now;
    }
  }

  /** So it is after any number of them. */
  lemma {:induction false} StaysBehind(run: seq<map<RowId, Row>>, s: Selection, xs: seq<Round>, r: RowId, k: nat)
    requires Valid(s) && !s.input.forcarReenviadas && AllInVain(run, s, xs) && k < |run|
    requires r in run[0] && |Newer(run[0], Matching(run[0], s.filter), run[0][r].data)| >= s.filter.limit
    ensures r in run[k] && run[k][r] == run[0][r]
    ensures |Newer(run[k], Matching(run[k], s.filter), run[k][r].data)| >= s.filter.limit
  {
    if k > 0 {
      StaysBehind(run, s, xs, r, k - 1);
      assert RoundStep(run[k - 1], s, xs[k - 1], run[k - 1 + 1]);
      VainRound(run[k - 1], s, xs[k - 1], run[k], r);
    }
  }

  /** The row is unmarked all along the run. */
  ghost predicate NeverMarked(run: seq<map<RowId, Row>>, r: RowId)
  {
    forall k :: 0 <= k < |run| ==> r in run[k] && !run[k][r].reenviado
  }

  /**
   * While every dispatch is in vain, no number of calls resends a row exactly if 50 rows found are
   * strictly newer: each call takes what the one before put back.
   */
  lemma NeverResentExactly(rows: map<RowId, Row>, s: Selection, r: RowId)
    requires Valid(s) && !s.input.forcarReenviadas && NotOver(rows, s) && r in Own(rows, s)
    ensures (forall run: seq<map<RowId, Row>>, xs: seq<Round> :: AllInVain(run, s, xs) && run[0] == rows ==> NeverMarked(run, r))
        <==> |Newer(rows, Matching(rows, s.filter), rows[r].data)| >= s.filter.limit
  {
    if |Newer(rows, Matching(rows, s.filter), rows[r].data)| >= s.filter.limit {
      forall run: seq<map<RowId, Row>>, xs: seq<Round> | AllInVain(run, s, xs) && run[0] == rows ensures NeverMarked(run, r) {
        RunNeverMarks(run, s, xs, r);
      }
    } else {
      var run, xs := RunThatMarks(rows, s, r);
    }
  }

  lemma RunNeverMarks(run: seq<map<RowId, Row>>, s: Selection, xs: seq<Round>, r: RowId)
    requires Valid(s) && !s.input.forcarReenviadas && AllInVain(run, s, xs)
    requires r in Own(run[0], s) && |Newer(run[0], Matching(run[0], s.filter), run[0][r].data)| >= s.filter.limit
    ensures NeverMarked(run, r)
  {
    forall k | 0 <= k < |run| ensures r in run[k] && run[k][r] == run[0][r] {
      StaysBehind(run, s, xs, r, k);
    }
  }

  lemma RunThatMarks(rows: map<RowId, Row>, s: Selection, r: RowId) returns (run: seq<map<RowId, Row>>, xs: seq<Round>)
    requires Valid(s) && NotOver(rows, s) && r in Own(rows, s)
    requires |Newer(rows, Matching(rows, s.filter), rows[r].data)| < s.filter.limit
    ensures AllInVain(run, s, xs) && run[0] == rows && !NeverMarked(run, r)
  {
    var page := PageWith(rows, s, r);
    MarkedByIsOwn(rows, s, page);
    var marked := MarkedBy(rows, s, page);
    var after := PutBack(rows, s, marked);
    assert r in Marked(rows, marked) && after[r] == Marked(rows, marked)[r];
    run, xs := OneRound(rows, s, Round(page, marked), after, r);
  }

  lemma OneRound(rows: map<RowId, Row>, s: Selection, x: Round, after: map<RowId, Row>, r: RowId)
    returns (run: seq<map<RowId, Row>>, xs: seq<Round>)
    requires RoundStep(rows, s, x, after) && x.dead == MarkedBy(rows, s, x.page) && NotOver(rows, s) && NotOver(after, s)
    requires r in after && after[r].reenviado
    ensures AllInVain(run, s, xs) && run[0] == rows && !NeverMarked(run, r)
  {
    run, xs := [rows, after], [x];
    assert run[1][r].reenviado;
  }

  lemma {:induction false} FreshId(ids: set<RowId>) returns (id: RowId)
    ensures id !in ids && forall o :: o in ids ==> o < id
    decreases |ids|
  {
    if ids == {} {
      id := 0;
    } else {
      var o := AnElement(ids);
      var rest := FreshId(ids - {o});
      id := if o < rest then rest else o + 1;
      assert ids == (ids - {o}) + {o};
    }
  }

  /** The table after the marks, with every marked row put back. */
  lemma PutBack(rows: map<RowId, Row>, s: Selection, marked: set<RowId>) returns (after: map<RowId, Row>)
    requires marked <= rows.Keys && marked != {} && NotOver(rows, s)
    ensures Extends(Marked(rows, marked), after) && Requeued(rows, marked, after) && NotOver(after, s)
  {
    var base := Marked(rows, marked);
    var newest := NewestExists(base, base.Keys);
    var copy: map<RowId, RowId>;
    after, copy := PutBackSome(rows, base, marked, base[newest].data);
  }

  lemma {:induction false} PutBackSome(rows: map<RowId, Row>, base: map<RowId, Row>, dead: set<RowId>, now: int)
    returns (after: map<RowId, Row>, copy: map<RowId, RowId>)
    requires dead <= rows.Keys && base.Keys == rows.Keys && forall q: RowId :: q in base ==> base[q].data <= now
    ensures Extends(base, after) && IsCopy(rows, dead, after, copy)
    ensures forall q: RowId :: q in after ==> after[q].data <= now
    decreases |dead|
  {
    if dead == {} {
      after, copy := base, map[];
    } else {
      var r := AnElement(dead);
      var after', copy' := PutBackSome(rows, base, dead - {r}, now);
      var id := FreshId(after'.Keys);
      var again := rows[r].(reenviado := false, del := false, data := now);
      after, copy := after'[id := again], copy'[r := id];
      ExtendNext(base, after', id, again);
      CopyNext(rows, dead - {r}, after', copy', r, id, again);
      assert dead == (dead - {r}) + {r};
    }
  }

  lemma ExtendNext(base: map<RowId, Row>, after: map<RowId, Row>, id: RowId, again: Row)
    requires Extends(base, after) && id !in after && forall q: RowId :: q in base ==> base[q].data <= again.data
    ensures Extends(base, after[id := again]) && base.Keys <= after.Keys
  {
  }

  lemma CopyNext(rows: map<RowId, Row>, dead: set<RowId>, after: map<RowId, Row>, copy: map<RowId, RowId>, r: RowId, id: RowId, again: Row)
    requires IsCopy(rows, dead, after, copy) && r in rows && r !in dead && id !in after && id !in rows && Again(rows[r], again)
    ensures IsCopy(rows, dead + {r}, after[id := again], copy[r := id])
  {
  }

  // --- Any selection: when a call gets somewhere ----------------------------------------------

  /** Every answer of the database lets the call mark something exactly if this holds. */
  predicate NotCrowdedOut(rows: map<RowId, Row>, s: Selection, since: int)
  {
    |Since(rows, Foreign(rows, s), since)| < s.filter.limit
  }

  /** An own row is on every page exactly if fewer than 50 foreign rows are as new as the newest own one. */
  lemma ProgressExactly(rows: map<RowId, Row>, s: Selection, newest: RowId)
    requires Valid(s) && newest in Own(rows, s)
    requires forall o :: o in Own(rows, s) ==> rows[o].data <= rows[newest].data
    ensures (forall page :: IsPage(rows, s.filter, page) ==> MarkedBy(rows, s, page) != {})
        <==> NotCrowdedOut(rows, s, rows[newest].data)
  {
    var crowd := Since(rows, Foreign(rows, s), rows[newest].data);
    if NotCrowdedOut(rows, s, rows[newest].data) {
      forall page | IsPage(rows, s.filter, page) ensures MarkedBy(rows, s, page) != {} {
        OnThePage(rows, s, newest, page);
      }
    } else {
      var page := PageOf(rows, s.filter, crowd);
      MarkedByIsOwn(rows, s, page);
      assert Elements(page) * Own(rows, s) == {};
    }
  }

  lemma OnThePage(rows: map<RowId, Row>, s: Selection, own: RowId, page: seq<RowId>)
    requires Valid(s) && own in Own(rows, s)
    requires NotCrowdedOut(rows, s, rows[own].data) && IsPage(rows, s.filter, page)
    ensures MarkedBy(rows, s, page) != {}
  {
    MarkedByIsOwn(rows, s, page);
    if own in page {
      assert own in Elements(page) * Own(rows, s);
    } else if Elements(page) * Own(rows, s) == {} {
      LeftOut(rows, s.filter, page, own);
      forall r | r in Elements(page) ensures r in Since(rows, Foreign(rows, s), rows[own].data) {
        assert r !in Elements(page) * Own(rows, s);
      }
      SubsetSize(Elements(page), Since(rows, Foreign(rows, s), rows[own].data));
    }
  }

  /**
   * 50 strictly newer foreign rows hold up older own rows for good: no number of calls marks one of
   * them, whatever the dispatches give and whatever arrives.
   */
  lemma {:induction false} StarvesForever(run: seq<map<RowId, Row>>, s: Selection, xs: seq<Round>, bound: int, k: nat)
    requires Valid(s) && Rounds(run, s, xs) && k < |run|
    requires |Newer(run[0], Foreign(run[0], s), bound)| >= s.filter.limit
    ensures |Newer(run[k], Foreign(run[k], s), bound)| >= s.filter.limit
    ensures forall o :: o in run[0] && run[0][o].data <= bound ==> o in run[k] && run[k][o] == run[0][o]
  {
    if k > 0 {
      StarvesForever(run, s, xs, bound, k - 1);
      assert RoundStep(run[k - 1], s, xs[k - 1], run[k - 1 + 1]);
      ForeignStays(run[k - 1], s, xs[k - 1], run[k], bound);
      forall o | o in run[0] && run[0][o].data <= bound ensures o in run[k] && run[k][o] == run[0][o] {
        HeldUp(run[k - 1], s, xs[k - 1], run[k], bound, o);
      }
    }
  }

  lemma ForeignStays(rows: map<RowId, Row>, s: Selection, x: Round, after: map<RowId, Row>, bound: int)
    requires Valid(s) && RoundStep(rows, s, x, after)
    ensures |Newer(after, Foreign(after, s), bound)| >= |Newer(rows, Foreign(rows, s), bound)|
  {
    var marked := MarkedBy(rows, s, x.page);
    MarkedByIsOwn(rows, s, x.page);
    forall f | f in Newer(rows, Foreign(rows, s), bound) ensures f in Newer(after, Foreign(after, s), bound) {
      assert f in Marked(rows, marked) && after[f] == rows[f];
    }
    SubsetSize(Newer(rows, Foreign(rows, s), bound), Newer(after, Foreign(after, s), bound));
  }

  lemma HeldUp(rows: map<RowId, Row>, s: Selection, x: Round, after: map<RowId, Row>, bound: int, o: RowId)
    requires Valid(s) && RoundStep(rows, s, x, after) && o in rows && rows[o].data <= bound
    requires |Newer(rows, Foreign(rows, s), bound)| >= s.filter.limit
    ensures o in after && after[o] == rows[o]
  {
    SubsetSize(Newer(rows, Foreign(rows, s), bound), Newer(rows, Matching(rows, s.filter), rows[o].data));
    NotPicked(rows, s.filter, x.page, o);
    MarkedByIsOwn(rows, s, x.page);
    assert o in Marked(rows, MarkedBy(rows, s, x.page));
  }

  /**
   * If nothing arrives that the selection finds, unforced calls resend every own row, in at most one
   * call each and on every answer of the database, exactly if fewer than 50 foreign rows are at least
   * as new as the oldest own one.
   */
  lemma DrainsExactly(rows: map<RowId, Row>, s: Selection, oldest: RowId)
    requires Valid(s) && !s.input.forcarReenviadas
    requires oldest in Own(rows, s) && forall o :: o in Own(rows, s) ==> rows[o].data >= rows[oldest].data
    ensures (forall run: seq<map<RowId, Row>>, xs: seq<Round> :: QuietRounds(run, s, xs) && |xs| == |Own(rows, s)| && run[0] == rows ==>
               Own(run[|run| - 1], s) == {})
        <==> NotCrowdedOut(rows, s, rows[oldest].data)
  {
    if NotCrowdedOut(rows, s, rows[oldest].data) {
      forall run: seq<map<RowId, Row>>, xs: seq<Round> | QuietRounds(run, s, xs) && |xs| == |Own(rows, s)| && run[0] == rows
        ensures Own(run[|run| - 1], s) == {}
      {
        RunDrains(run, s, xs, rows[oldest].data, |run| - 1);
      }
    } else {
      var run, xs := RunThatSpares(rows, s, oldest, |Own(rows, s)|);
      assert oldest in Own(run[|run| - 1], s);
    }
  }

  lemma {:induction false} RunDrains(run: seq<map<RowId, Row>>, s: Selection, xs: seq<Round>, since: int, k: nat)
    requires Valid(s) && !s.input.forcarReenviadas && QuietRounds(run, s, xs) && k < |run|
    requires forall o :: o in Own(run[0], s) ==> run[0][o].data >= since
    requires NotCrowdedOut(run[0], s, since)
    ensures |Own(run[k], s)| <= |Own(run[0], s)| - Min(k, |Own(run[0], s)|)
    ensures forall o :: o in Own(run[k], s) ==> run[k][o].data >= since
    ensures NotCrowdedOut(run[k], s, since)
  {
    if k > 0 {
      RunDrains(run, s, xs, since, k - 1);
      assert RoundStep(run[k - 1], s, xs[k - 1], run[k - 1 + 1]) && Quiet(run[k - 1], s, run[k - 1 + 1]);
      CallShrinks(run[k - 1], s, xs[k - 1], since, run[k]);
    }
  }

  lemma CallShrinks(rows: map<RowId, Row>, s: Selection, x: Round, since: int, after: map<RowId, Row>)
    requires Valid(s) && !s.input.forcarReenviadas && RoundStep(rows, s, x, after) && Quiet(rows, s, after)
    requires forall o :: o in Own(rows, s) ==> rows[o].data >= since
    requires NotCrowdedOut(rows, s, since)
    ensures Own(after, s) <= Own(rows, s) && (Own(rows, s) == {} || |Own(after, s)| < |Own(rows, s)|)
    ensures forall o :: o in Own(after, s) ==> after[o].data >= since
    ensures NotCrowdedOut(after, s, since)
  {
    var marked := MarkedBy(rows, s, x.page);
    MarkedByIsOwn(rows, s, x.page);
    AfterQuietRound(rows, s, marked, after);
    assert Since(after, Foreign(after, s), since) == Since(rows, Foreign(rows, s), since);
    if Own(rows, s) != {} {
      var o := AnElement(Own(rows, s));
      SubsetSize(Since(rows, Foreign(rows, s), rows[o].data), Since(rows, Foreign(rows, s), since));
      OnThePage(rows, s, o, x.page);
      assert Own(after, s) == Own(rows, s) - marked;
      assert Own(rows, s) == Own(after, s) + marked;
    }
  }

  /** With 50 foreign rows as new as `oldest`, the database may answer so that it is never marked. */
  lemma {:induction false} RunThatSpares(rows: map<RowId, Row>, s: Selection, oldest: RowId, n: nat)
    returns (run: seq<map<RowId, Row>>, xs: seq<Round>)
    requires Valid(s) && !s.input.forcarReenviadas
    requires oldest in Own(rows, s) && !NotCrowdedOut(rows, s, rows[oldest].data)
    requires forall o :: o in Own(rows, s) ==> rows[o].data >= rows[oldest].data
    ensures QuietRounds(run, s, xs) && |xs| == n && run[0] == rows && oldest in Own(run[n], s)
    decreases n
  {
    if n == 0 {
      run, xs := [rows], [];
    } else {
      var x, after := CallThatSpares(rows, s, oldest);
      var run', xs' := RunThatSpares(after, s, oldest, n - 1);
      run, xs := [rows] + run', [x] + xs';
      forall k | 0 <= k < |xs| ensures RoundStep(run[k], s, xs[k], run[k + 1]) && Quiet(run[k], s, run[k + 1]) {
        if k > 0 {
          assert RoundStep(run'[k - 1], s, xs'[k - 1], run'[k - 1 + 1]) && Quiet(run'[k - 1], s, run'[k - 1 + 1]);
        }
      }
    }
  }

  lemma CallThatSpares(rows: map<RowId, Row>, s: Selection, oldest: RowId) returns (x: Round, after: map<RowId, Row>)
    requires Valid(s) && !s.input.forcarReenviadas
    requires oldest in Own(rows, s) && !NotCrowdedOut(rows, s, rows[oldest].data)
    requires forall o :: o in Own(rows, s) ==> rows[o].data >= rows[oldest].data
    ensures RoundStep(rows, s, x, after) && Quiet(rows, s, after)
    ensures oldest in Own(after, s) && !NotCrowdedOut(after, s, after[oldest].data)
    ensures forall o :: o in Own(after, s) ==> after[o].data >= after[oldest].data
  {
    var since := rows[oldest].data;
    var first := Since(rows, Matching(rows, s.filter), since) - {oldest};
    SubsetSize(Since(rows, Foreign(rows, s), since), first);
    var page := PageOf(rows, s.filter, first);
    MarkedByIsOwn(rows, s, page);
    x := Round(page, {});
    after := Marked(rows, MarkedBy(rows, s, page));
    NothingArrives(rows, s, x, after);
    AfterQuietRound(rows, s, MarkedBy(rows, s, page), after);
    assert Since(after, Foreign(after, s), since) == Since(rows, Foreign(rows, s), since);
  }

  lemma NothingArrives(rows: map<RowId, Row>, s: Selection, x: Round, after: map<RowId, Row>)
    requires IsPage(rows, s.filter, x.page) && x.dead == {} && after == Marked(rows, MarkedBy(rows, s, x.page))
    ensures RoundStep(rows, s, x, after) && Quiet(rows, s, after)
  {
    var copy: map<RowId, RowId> := map[];
    assert IsCopy(rows, {}, after, copy);
  }

  // --- The crowding happens -------------------------------------------------------------------

  /** Row 0 of inbox "a", and `n` newer rows of `other`. */
  function Crowded(other: Option<InboxId>, n: nat): map<RowId, Row>
  {
    if n == 0 then map[0 := Row(Null, Some("a"), FALHA_ENVIO, false, false, 0)]
    else Crowded(other, n - 1)[n := Row(Null, other, FALHA_ENVIO, false, false, 1)]
  }

  function Numbers(n: nat): set<RowId>
  {
    if n == 0 then {} else Numbers(n - 1) + {n}
  }

  lemma {:induction false} NumbersAre(n: nat)
    ensures forall r :: r in Numbers(n) <==> 1 <= r <= n
    ensures |Numbers(n)| == n
  {
    if n > 0 {
      NumbersAre(n - 1);
    }
  }

  lemma {:induction false} CrowdedHas(other: Option<InboxId>, n: nat)
    ensures forall r: nat :: r in Crowded(other, n) <==> r <= n
    ensures Crowded(other, n)[0] == Row(Null, Some("a"), FALHA_ENVIO, false, false, 0)
    ensures forall r :: 1 <= r <= n ==> Crowded(other, n)[r] == Row(Null, other, FALHA_ENVIO, false, false, 1)
  {
    if n > 0 {
      CrowdedHas(other, n - 1);
    }
  }

  /** The request for a pid with inboxes "a" and "b". */
  const TWO_INBOXES := Selection(Input("pid", None, None, false), {"a", "b"}, EMPTY_FILTER.(reenviado := Some(false)))

  /** The request without a pid. */
  const NO_PID := Selection(Input("", None, None, false), {}, EMPTY_FILTER.(reenviado := Some(false)))

  /** The two requests see both kinds of rows, and would mark only the first. */
  predicate Sees(s: Selection, other: Option<InboxId>)
  {
    var a, b := Row(Null, Some("a"), FALHA_ENVIO, false, false, 0), Row(Null, other, FALHA_ENVIO, false, false, 1);
    && Matches(s.filter, a) && Kept(s.input, s.ids, a)
    && Matches(s.filter, b) && !(Kept(s.input, s.ids, b) && other.Some?)
  }

  lemma RequestsSee()
    ensures Valid(TWO_INBOXES) && Sees(TWO_INBOXES, Some("x"))
    ensures Valid(NO_PID) && Sees(NO_PID, None)
  {
    assert |{"a", "b"}| == 2;
  }

  lemma CrowdedRows(s: Selection, other: Option<InboxId>, n: nat)
    requires Sees(s, other)
    ensures Own(Crowded(other, n), s) == {0}
    ensures Newer(Crowded(other, n), Foreign(Crowded(other, n), s), 0) == Numbers(n)
  {
    CrowdedHas(other, n);
    NumbersAre(n);
    var rows := Crowded(other, n);
    forall r: nat
      ensures r in Own(rows, s) <==> r == 0
      ensures r in Newer(rows, Foreign(rows, s), 0) <==> r in Numbers(n)
    {
    }
  }

  /**
   * 50 rows of an inbox of another pid, or 50 rows without an inbox in a request without pid, keep
   * every number of calls from resending the row that was asked for.
   */
  lemma StarvationHappens(run: seq<map<RowId, Row>>, xs: seq<Round>, k: nat, s: Selection, other: Option<InboxId>, n: nat)
    requires Rounds(run, s, xs) && k < |run| && run[0] == Crowded(other, n) && n >= 50
    requires (s == TWO_INBOXES && other == Some("x")) || (s == NO_PID && other == None)
    ensures Valid(s) && Own(run[0], s) == {0} && 0 in Own(run[k], s)
  {
    RequestsSee();
    CrowdedRows(s, other, n);
    CrowdedHas(other, n);
    NumbersAre(n);
    StarvesForever(run, s, xs, 0, k);
  }
}

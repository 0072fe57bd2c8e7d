/** `ResendService.resend`: select a page of dead letters, dispatch each again and mark it. */
module Resend {
  import opened Common
  import opened Json
  import opened Entities
  import opened Retry
  import opened Dispatch
  import opened DispatchService
  import opened DeadLetters

  /** What the outside gives to the `handle` of one row. */
  datatype World = World(maxRetries: int, baseMs: int, faults: Faults, http: nat -> Attempt<Thrown>, elapsed: int)

  datatype Input = Input(pid: string, dataInicio: Option<int>, dataFim: Option<int>, forcarReenviadas: bool)

  /** The ids of the inboxes that answer for the pid; none is given when `pid` is empty. */
  function InboxesOf(inboxes: map<InboxId, Inbox>, pid: string): set<InboxId>
  {
    set id | id in inboxes && inboxes[id].pid == pid && !inboxes[id].del
  }

  /** The query: one inbox goes into the filter, several are cut out of the page afterwards. */
  predicate IsFilter(input: Input, ids: set<InboxId>, f: Filter)
  {
    && f == EMPTY_FILTER.(idInbox := f.idInbox, dataInicio := input.dataInicio, dataFim := input.dataFim,
                          reenviado := if input.forcarReenviadas then None else Some(false))
    && (if |ids| == 1 then f.idInbox.Some? && f.idInbox.value in ids else f.idInbox.None?)
  }

  /** What is left of a page: the rows of the pid's inboxes, and only unmarked ones unless forced. */
  predicate Kept(input: Input, ids: set<InboxId>, row: Row)
  {
    && (|ids| > 1 ==> row.idInbox.Some? && row.idInbox.value in ids)
    && (input.forcarReenviadas || !row.reenviado)
  }

  function Candidates(rows: map<RowId, Row>, input: Input, ids: set<InboxId>, page: seq<RowId>): (c: seq<RowId>)
  {
    if page == [] then [] else
    var rest := Candidates(rows, input, ids, page[1..]);
    if page[0] in rows && Kept(input, ids, rows[page[0]]) then [page[0]] + rest else rest
  }

  lemma {:induction false} CandidatesAre(rows: map<RowId, Row>, input: Input, ids: set<InboxId>, page: seq<RowId>)
    ensures Elements(Candidates(rows, input, ids, page)) == set r | r in page && r in rows && Kept(input, ids, rows[r])
    ensures Distinct(page) ==> Distinct(Candidates(rows, input, ids, page))
  {
    if page != [] {
      CandidatesAre(rows, input, ids, page[1..]);
      var rest := Candidates(rows, input, ids, page[1..]);
      assert page == [page[0]] + page[1..];
      assert Elements([page[0]] + rest) == {page[0]} + Elements(rest);
      assert forall i :: 0 <= i < |rest| ==> rest[i] in Elements(rest);
    }
  }

  /**
   * What a request asks for: rows that are not deleted, in its interval, of an active inbox of its pid
   * or else of any inbox, and unmarked unless it is forced.
   */
  predicate Wanted(inboxes: map<InboxId, Inbox>, input: Input, row: Row)
  {
    && !row.del && row.idInbox.Some? && (row.reenviado ==> input.forcarReenviadas)
    && (input.pid == "" || var id := row.idInbox.value; id in inboxes && !inboxes[id].del && inboxes[id].pid == input.pid)
    && (input.dataInicio.None? || input.dataInicio.value <= row.data) && (input.dataFim.None? || row.data <= input.dataFim.value)
  }

  /** Query and cut together select these rows. */
  lemma WantedExactly(inboxes: map<InboxId, Inbox>, input: Input, ids: set<InboxId>, f: Filter, row: Row)
    requires IsFilter(input, ids, f)
    requires ids == (if input.pid == "" then {} else InboxesOf(inboxes, input.pid)) && (input.pid != "" ==> ids != {})
    ensures Matches(f, row) && Kept(input, ids, row) && row.idInbox.Some? <==> Wanted(inboxes, input, row)
  {
    if input.pid == "" {
      assert ids == {} && |ids| == 0;
    } else if |ids| == 1 {
      assert |ids - {f.idInbox.value}| == 0;
      assert row.idInbox.Some? ==> (row.idInbox == f.idInbox <==> row.idInbox.value in ids);
    } else {
      assert |ids| > 1;
    }
  }

  /** The rows marked are those wanted that are on the page and whose mark does not throw. */
  ghost predicate MarksWanted(was: map<RowId, Row>, inboxes: map<InboxId, Inbox>, input: Input, page: seq<RowId>,
                              markThrows: set<RowId>, rows: map<RowId, Row>)
  {
    rows == map r | r in was ::
      if r in page && Wanted(inboxes, input, was[r]) && r !in markThrows then was[r].(reenviado := true) else was[r]
  }

  lemma MarkedAreWanted(rows: map<RowId, Row>, inboxes: map<InboxId, Inbox>, input: Input, ids: set<InboxId>, f: Filter,
                        page: seq<RowId>, markThrows: set<RowId>)
    requires IsFilter(input, ids, f) && IsPage(rows, f, page)
    requires ids == (if input.pid == "" then {} else InboxesOf(inboxes, input.pid)) && (input.pid != "" ==> ids != {})
    ensures MarksWanted(rows, inboxes, input, page, markThrows, Marked(rows, Resent(rows, Candidates(rows, input, ids, page), markThrows)))
  {
    var c := Candidates(rows, input, ids, page);
    PageMatches(rows, f, page);
    CandidatesAre(rows, input, ids, page);
    forall r | r in rows ensures r in Resent(rows, c, markThrows) <==> r in page && Wanted(inboxes, input, rows[r]) && r !in markThrows {
      assert r in c <==> r in Elements(c);
      assert r in page ==> r in Elements(page);
      WantedExactly(inboxes, input, ids, f, rows[r]);
    }
  }

  function Marked(rows: map<RowId, Row>, ids: set<RowId>): map<RowId, Row>
  {
    map r | r in rows :: if r in ids then rows[r].(reenviado := true) else rows[r]
  }

  /** The rows among `c` whose dispatch is tried and whose mark does not throw. */
  function Resent(rows: map<RowId, Row>, c: seq<RowId>, markThrows: set<RowId>): set<RowId>
  {
    set r | r in c && r in rows && rows[r].idInbox.Some? && r !in markThrows
  }

  /** The `handle` made for a row: what it worked on, its attempt loop, and what it queued. */
  datatype RowRun = NoCall | Call(inputs: Inputs, loop: Trace, queued: seq<DlqMessage>)

  /** A row with an inbox has its message handled for that inbox, and what the handling comes to is its outcome. */
  ghost predicate RunOf(row: Row, run: RowRun, inboxes: map<InboxId, Inbox>, ambientes: map<int, Ambiente>, w: World)
  {
    && (run.NoCall? <==> row.idInbox.None?)
    && (run.Call? ==>
          var i, fim := run.inputs, Outcome(run.inputs, row.idInbox.value);
          && i == Inputs(inboxes, ambientes, i.cache, w.maxRetries, w.baseMs, w.faults, w.http)
          && (Resolve(i, row.idInbox.value).UseAmbiente? ==> RetrySpec(w.http, w.maxRetries, w.baseMs, run.loop))
          && (!Resolve(i, row.idInbox.value).UseAmbiente? ==> run.loop == Trace(0, [], false))
          && run.loop.delivered == fim.Delivered?
          && run.queued == if fim.DeadLettered? then [DlqMessage(row.message, row.idInbox, fim.status)] else [])
  }

  /** `runs` are the handles of the first rows of `c`. */
  ghost predicate RunsOf(rows: map<RowId, Row>, c: seq<RowId>, runs: seq<RowRun>, inboxes: map<InboxId, Inbox>,
                         ambientes: map<int, Ambiente>, world: RowId -> World)
  {
    && |runs| <= |c|
    && forall n {:trigger RunAt(rows, c[n], runs[n], inboxes, ambientes, world(c[n]))} ::
         0 <= n < |runs| ==> RunAt(rows, c[n], runs[n], inboxes, ambientes, world(c[n]))
  }

  ghost predicate RunAt(rows: map<RowId, Row>, r: RowId, run: RowRun, inboxes: map<InboxId, Inbox>,
                        ambientes: map<int, Ambiente>, w: World)
  {
    r in rows && RunOf(rows[r], run, inboxes, ambientes, w)
  }

  lemma RunsNext(rows: map<RowId, Row>, c: seq<RowId>, runs: seq<RowRun>, run: RowRun,
                 inboxes: map<InboxId, Inbox>, ambientes: map<int, Ambiente>, world: RowId -> World)
    requires RunsOf(rows, c, runs, inboxes, ambientes, world) && |runs| < |c|
    requires RunAt(rows, c[|runs|], run, inboxes, ambientes, world(c[|runs|]))
    ensures RunsOf(rows, c, runs + [run], inboxes, ambientes, world)
    ensures QueuedBy(runs + [run], |runs| + 1) == QueuedBy(runs, |runs|) + if run.Call? then run.queued else []
  {
    QueuedByPrefix(runs, run, |runs|);
    forall n | 0 <= n < |runs + [run]| ensures RunAt(rows, c[n], (runs + [run])[n], inboxes, ambientes, world(c[n])) {
      if n < |runs| {
        assert RunAt(rows, c[n], runs[n], inboxes, ambientes, world(c[n]));
      }
    }
  }

  /** The dead letters of the first `n` rows. */
  function QueuedBy(runs: seq<RowRun>, n: nat): seq<DlqMessage>
    requires n <= |runs|
  {
    if n == 0 then [] else QueuedBy(runs, n - 1) + if runs[n - 1].Call? then runs[n - 1].queued else []
  }

  lemma {:induction false} QueuedByPrefix(runs: seq<RowRun>, run: RowRun, n: nat)
    requires n <= |runs|
    ensures QueuedBy(runs + [run], n) == QueuedBy(runs, n)
  {
    if n > 0 {
      QueuedByPrefix(runs, run, n - 1);
    }
  }

  /**
   * A resend leaves a row marked and its message neither delivered nor queued exactly when its
   * `handle` dropped the message and the mark went through.
   */
  lemma VanishesExactly(rows: map<RowId, Row>, c: seq<RowId>, n: nat, run: RowRun, markThrows: set<RowId>,
                        inboxes: map<InboxId, Inbox>, ambientes: map<int, Ambiente>, w: World)
    requires n < |c| && c[n] in rows && RunOf(rows[c[n]], run, inboxes, ambientes, w)
    ensures (&& c[n] in Resent(rows, c, markThrows) && run.Call? && !run.loop.delivered && run.queued == []) <==>
      (&& c[n] !in markThrows && run.Call? && var i, id := run.inputs, rows[c[n]].idInbox.value;
          || Resolve(i, id).ReadThrew?
          || (Resolve(i, id).UseAmbiente? && w.maxRetries < 1)
          || (w.faults.send
              && (Resolve(i, id).UseAmbiente? ==> forall k: nat :: 1 <= k <= w.maxRetries ==> w.http(k).Fails?)))
  {
    if run.Call? {
      DroppedExactly(run.inputs, rows[c[n]].idInbox.value);
    }
  }

  class ResendService {
    const table: DeadLetterRepository
    const handler: DispatchHandler
    /** The `handle` calls made, in order. */
    var handled: seq<(InboxId, Json)>

    constructor (table: DeadLetterRepository, handler: DispatchHandler)
      ensures this.table == table && this.handler == handler && handled == []
    {
      this.table := table;
      this.handler := handler;
      handled := [];
    }

    /**
     * The counters add up to the page that was worked on; exactly the rows counted as resent are
     * marked, each after a `handle` of its own message for its own inbox, and nothing else changes
     * in the table. What the handles did is in `runs`.
     */
    method Resend(input: Input, markThrows: set<RowId>, world: RowId -> World)
      returns (total: nat, reenviadas: nat, falhas: nat,
               ghost f: Filter, ghost page: seq<RowId>, ghost c: seq<RowId>, ghost runs: seq<RowRun>)
      modifies this`handled, table, handler
      ensures handler.inboxes == old(handler.inboxes) && handler.ambientes == old(handler.ambientes)
      ensures total == reenviadas + falhas && total == |c|
      ensures var ids := if input.pid == "" then {} else InboxesOf(old(handler.inboxes), input.pid);
        if input.pid != "" && ids == {} then c == []
        else IsFilter(input, ids, f) && IsPage(old(table.rows), f, page) && c == Candidates(old(table.rows), input, ids, page)
      ensures table.rows == Marked(old(table.rows), Resent(old(table.rows), c, markThrows))
      ensures MarksWanted(old(table.rows), old(handler.inboxes), input, page, markThrows, table.rows)
      ensures reenviadas == |Resent(old(table.rows), c, markThrows)|
      ensures handled == old(handled) + Handled(old(table.rows), c)
      ensures |runs| == |c| && RunsOf(old(table.rows), c, runs, handler.inboxes, handler.ambientes, world)
      ensures handler.dlq == old(handler.dlq) + QueuedBy(runs, |runs|)
    {
      f, page, c, runs := EMPTY_FILTER, [], [], [];
      total, reenviadas, falhas := 0, 0, 0;
      var ids := if input.pid == "" then {} else InboxesOf(handler.inboxes, input.pid);
      if input.pid != "" && ids == {} {
        assert Marked(table.rows, Resent(table.rows, c, markThrows)) == table.rows;
        return;
      }
      var filter := EMPTY_FILTER.(dataInicio := input.dataInicio, dataFim := input.dataFim);
      if |ids| == 1 {
        ghost var w := AnElement(ids);
        var id: InboxId :| id in ids;
        filter := filter.(idInbox := Some(id));
      }
      if !input.forcarReenviadas {
        filter := filter.(reenviado := Some(false));
      }
      var found := table.FindMany(filter);
      var candidates := Candidates(table.rows, input, ids, found);
      f, page, c := filter, found, candidates;
      PageMatches(table.rows, filter, found);
      CandidatesAre(table.rows, input, ids, found);
      MarkedAreWanted(table.rows, handler.inboxes, input, ids, filter, found, markThrows);
      reenviadas, falhas, runs := Dispatch(candidates, markThrows, world);
      total := |candidates|;
    }

    /** Row number `n` of the loop: its `handle`, then its mark. */
    method ResendRow(candidates: seq<RowId>, n: nat, markThrows: set<RowId>, world: RowId -> World, ghost was: map<RowId, Row>,
                     ghost runs: seq<RowRun>, ghost calls: seq<(InboxId, Json)>, ghost queue: seq<DlqMessage>, ghost count: nat)
      returns (ok: bool, ghost run: RowRun)
      requires n < |candidates| && Distinct(candidates) && candidates[n] in was
      requires Progress(was, candidates[..n], markThrows, calls, table.rows, count, handled)
      requires |runs| == n && RunsOf(was, candidates, runs, handler.inboxes, handler.ambientes, world)
      requires handler.dlq == queue + QueuedBy(runs, n)
      modifies this`handled, table, handler
      ensures handler.inboxes == old(handler.inboxes) && handler.ambientes == old(handler.ambientes)
      ensures Progress(was, candidates[..n + 1], markThrows, calls, table.rows, if ok then count + 1 else count, handled)
      ensures RunsOf(was, candidates, runs + [run], handler.inboxes, handler.ambientes, world)
      ensures handler.dlq == queue + QueuedBy(runs + [run], n + 1)
    {
      var msg := candidates[n];
      var row := table.rows[msg];
      run := NoCall;
      if row.idInbox.None? {
        ProgressSkips(was, candidates, n, markThrows, calls, table.rows, count, handled);
        RunsNext(was, candidates, runs, run, handler.inboxes, handler.ambientes, world);
        return false, run;
      }
      ghost var rows, before := table.rows, handled;
      handled := handled + [(row.idInbox.value, row.message)];
      run := HandleRow(row, world(msg));
      RunsNext(was, candidates, runs, run, handler.inboxes, handler.ambientes, world);
      if msg in markThrows {
        ProgressSkips(was, candidates, n, markThrows, calls, rows, count, before);
        return false, run;
      }
      var threw := table.MarkReenviado(msg);
      ProgressMarks(was, candidates, n, markThrows, calls, rows, count, before);
      return true, run;
    }

    method HandleRow(row: Row, w: World) returns (ghost run: RowRun)
      requires row.idInbox.Some?
      modifies handler
      ensures handler.inboxes == old(handler.inboxes) && handler.ambientes == old(handler.ambientes)
      ensures run.Call? && RunOf(row, run, handler.inboxes, handler.ambientes, w)
      ensures handler.dlq == old(handler.dlq) + run.queued
    {
      ghost var i := handler.In(w.maxRetries, w.baseMs, w.faults, w.http);
      var fim, t := handler.Handle(row.idInbox.value, row.message, w.maxRetries, w.baseMs, w.faults, w.http, w.elapsed);
      run := Call(i, t, if fim.DeadLettered? then [DlqMessage(row.message, row.idInbox, fim.status)] else []);
    }

    /** The loop over the candidates. */
    method Dispatch(candidates: seq<RowId>, markThrows: set<RowId>, world: RowId -> World)
      returns (reenviadas: nat, falhas: nat, ghost runs: seq<RowRun>)
      requires Distinct(candidates) && Elements(candidates) <= table.rows.Keys
      modifies this`handled, table, handler
      ensures handler.inboxes == old(handler.inboxes) && handler.ambientes == old(handler.ambientes)
      ensures reenviadas + falhas == |candidates|
      ensures table.rows == Marked(old(table.rows), Resent(old(table.rows), candidates, markThrows))
      ensures reenviadas == |Resent(old(table.rows), candidates, markThrows)|
      ensures handled == old(handled) + Handled(old(table.rows), candidates)
      ensures |runs| == |candidates| && RunsOf(old(table.rows), candidates, runs, handler.inboxes, handler.ambientes, world)
      ensures handler.dlq == old(handler.dlq) + QueuedBy(runs, |runs|)
    {
      reenviadas, falhas, runs := 0, 0, [];
      ghost var was, calls, queue := table.rows, handled, handler.dlq;
      for n := 0 to |candidates|
        invariant handler.inboxes == old(handler.inboxes) && handler.ambientes == old(handler.ambientes)
        invariant reenviadas + falhas == n
        invariant Progress(was, candidates[..n], markThrows, calls, table.rows, reenviadas, handled)
        invariant |runs| == n && RunsOf(was, candidates, runs, handler.inboxes, handler.ambientes, world)
        invariant handler.dlq == queue + QueuedBy(runs, n)
      {
        ElementIn(candidates, n);
        var ok; ghost var run;
        ok, run := ResendRow(candidates, n, markThrows, world, was, runs, calls, queue, reenviadas);
        if ok {
          reenviadas := reenviadas + 1;
        } else {
          falhas := falhas + 1;
        }
        runs := runs + [run];
      }
      assert candidates[..|candidates|] == candidates;
    }
  }

  /** The state of the loop after the rows `c`. */
  ghost predicate Progress(was: map<RowId, Row>, c: seq<RowId>, markThrows: set<RowId>, before: seq<(InboxId, Json)>,
                           rows: map<RowId, Row>, reenviadas: nat, handled: seq<(InboxId, Json)>)
  {
    && rows == Marked(was, Resent(was, c, markThrows))
    && reenviadas == |Resent(was, c, markThrows)|
    && handled == before + Handled(was, c)
  }

  lemma ElementIn(c: seq<RowId>, n: nat)
    requires n < |c|
    ensures c[n] in Elements(c)
  {
  }

  lemma ProgressSkips(was: map<RowId, Row>, c: seq<RowId>, n: nat, markThrows: set<RowId>, before: seq<(InboxId, Json)>,
                      rows: map<RowId, Row>, count: nat, calls: seq<(InboxId, Json)>)
    requires n < |c| && Distinct(c) && c[n] in was && (was[c[n]].idInbox.None? || c[n] in markThrows)
    requires Progress(was, c[..n], markThrows, before, rows, count, calls)
    ensures Progress(was, c[..n + 1], markThrows, before, rows, count, calls + HandleCall(was, c[n]))
  {
    StepOf(was, c, n, markThrows);
    assert calls + HandleCall(was, c[n]) == before + Handled(was, c[..n + 1]);
  }

  lemma ProgressMarks(was: map<RowId, Row>, c: seq<RowId>, n: nat, markThrows: set<RowId>, before: seq<(InboxId, Json)>,
                      rows: map<RowId, Row>, count: nat, calls: seq<(InboxId, Json)>)
    requires n < |c| && Distinct(c) && c[n] in was && was[c[n]].idInbox.Some? && c[n] !in markThrows
    requires Progress(was, c[..n], markThrows, before, rows, count, calls)
    ensures Progress(was, c[..n + 1], markThrows, before, rows[c[n] := was[c[n]].(reenviado := true)], count + 1,
                     calls + HandleCall(was, c[n]))
  {
    StepOf(was, c, n, markThrows);
    assert calls + HandleCall(was, c[n]) == before + Handled(was, c[..n + 1]);
    MarkedNext(was, Resent(was, c[..n], markThrows), c[n]);
  }

  /** What row number `n` adds to the calls and to the marked rows. */
  lemma StepOf(rows: map<RowId, Row>, c: seq<RowId>, n: nat, markThrows: set<RowId>)
    requires n < |c| && Distinct(c) && c[n] in rows
    ensures c[n] !in Resent(rows, c[..n], markThrows)
    ensures var done, ok := Resent(rows, c[..n], markThrows), rows[c[n]].idInbox.Some? && c[n] !in markThrows;
      Resent(rows, c[..n + 1], markThrows) == if ok then done + {c[n]} else done
    ensures Handled(rows, c[..n + 1]) == Handled(rows, c[..n]) + HandleCall(rows, c[n])
  {
    assert c[..n + 1] == c[..n] + [c[n]];
    assert c[..n + 1][..n] == c[..n];
  }

  lemma MarkedNext(rows: map<RowId, Row>, ids: set<RowId>, r: RowId)
    requires r in rows && r !in ids
    ensures Marked(rows, ids)[r := rows[r].(reenviado := true)] == Marked(rows, ids + {r})
  {
  }

  /** The `handle` call a row leads to. */
  function HandleCall(rows: map<RowId, Row>, r: RowId): seq<(InboxId, Json)>
  {
    if r in rows && rows[r].idInbox.Some? then [(rows[r].idInbox.value, rows[r].message)] else []
  }

  function Handled(rows: map<RowId, Row>, c: seq<RowId>): seq<(InboxId, Json)>
  {
    if c == [] then [] else Handled(rows, c[..|c| - 1]) + HandleCall(rows, c[|c| - 1])
  }
}

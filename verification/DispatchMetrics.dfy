/** What the counters of a run of `handle` calls say about the messages. */
module DispatchMetrics {
  import opened Entities
  import opened Dispatch
  import opened DispatchService

  /** How often the counter `nome` was raised, over all its attributes. */
  function Raised(calls: seq<MetricCall>, nome: string): nat
  {
    if calls == [] then 0 else
    (if calls[0].Contar? && calls[0].nome == nome then 1 else 0) + Raised(calls[1..], nome)
  }

  lemma {:induction false} RaisedAppend(a: seq<MetricCall>, b: seq<MetricCall>, nome: string)
    ensures Raised(a + b, nome) == Raised(a, nome) + Raised(b, nome)
  {
    if a == [] {
      assert a + b == b;
    } else {
      RaisedAppend(a[1..], b, nome);
      assert (a + b)[1..] == a[1..] + b;
    }
  }

  lemma RaisedIn(call: MetricCall, rest: seq<MetricCall>, nome: string)
    ensures Raised([call] + rest, nome) == (if call.Contar? && call.nome == nome then 1 else 0) + Raised(rest, nome)
  {
    assert ([call] + rest)[1..] == rest;
  }

  lemma NamesDiffer()
    ensures TENTATIVA != SUCESSO && TENTATIVA != ENFILEIRAMENTO && SUCESSO != ENFILEIRAMENTO
    ensures FALHA != TENTATIVA && FALHA != SUCESSO && FALHA != ENFILEIRAMENTO
  {
    assert TENTATIVA[9] == 'e' && ENFILEIRAMENTO[9] == 'l';
  }

  /** A call that ends without a success or a dead letter being counted. */
  predicate Vanishes(i: Inputs, inboxId: InboxId)
  {
    Resolve(i, inboxId).ReadThrew? || (Resolve(i, inboxId).UseAmbiente? && i.maxRetries < 1)
  }

  /** How often a call raises a counter, by how it goes. */
  function Expected(i: Inputs, inboxId: InboxId, nome: string): nat
  {
    (if nome == TENTATIVA then 1 else 0) +
    match Resolve(i, inboxId)
    case ReadThrew => 0
    case Unusable(_) => if nome == ENFILEIRAMENTO then 1 else 0
    case UseAmbiente(_) => ExpectedInLoop(i, nome)
  }

  function ExpectedInLoop(i: Inputs, nome: string): nat
  {
    if i.maxRetries < 1 then 0
    else if FirstSuccess(i.http, 1, i.maxRetries) <= i.maxRetries then (if nome == SUCESSO then 1 else 0)
    else if nome == FALHA || nome == ENFILEIRAMENTO then 1 else 0
  }

  lemma InOneCall(i: Inputs, inboxId: InboxId, elapsed: int, nome: string)
    ensures Raised(CallsOf(i, inboxId, elapsed), nome) == Expected(i, inboxId, nome)
  {
    NamesDiffer();
    var first := Contar(TENTATIVA, [("id_inbox", inboxId)]);
    match Resolve(i, inboxId)
    case ReadThrew =>
      RaisedIn(first, [], nome);
    case Unusable(status) =>
      var call := Contar(ENFILEIRAMENTO, [("status", StatusName(status))]);
      RaisedIn(first, [call], nome);
      RaisedIn(call, [], nome);
    case UseAmbiente(_) =>
      RaisedIn(first, LoopCalls(i.maxRetries, i.http, inboxId, elapsed), nome);
      InLoop(i, inboxId, elapsed, nome);
  }

  lemma InLoop(i: Inputs, inboxId: InboxId, elapsed: int, nome: string)
    ensures Raised(LoopCalls(i.maxRetries, i.http, inboxId, elapsed), nome) == ExpectedInLoop(i, nome)
  {
    NamesDiffer();
    if i.maxRetries >= 1 {
      var calls := LoopCalls(i.maxRetries, i.http, inboxId, elapsed);
      RaisedIn(calls[0], calls[1..], nome);
      RaisedIn(calls[1], calls[2..], nome);
      assert calls == [calls[0]] + calls[1..] && calls[1..] == [calls[1]] + calls[2..];
      if |calls| == 3 {
        RaisedIn(calls[2], [], nome);
        assert calls[2..] == [calls[2]] + [];
      }
    }
  }

  /** One call counts one attempt, and one success or one dead letter unless it vanishes. */
  lemma OneCall(i: Inputs, inboxId: InboxId, elapsed: int)
    ensures Raised(CallsOf(i, inboxId, elapsed), "gateway.despacho.tentativa") == 1
    ensures Raised(CallsOf(i, inboxId, elapsed), "gateway.despacho.sucesso") == if Outcome(i, inboxId).Delivered? then 1 else 0
    ensures Raised(CallsOf(i, inboxId, elapsed), "gateway.despacho.sucesso") + Raised(CallsOf(i, inboxId, elapsed), "gateway.dlq.enfileiramento") ==
      (if Vanishes(i, inboxId) then 0 else 1)
    ensures Raised(CallsOf(i, inboxId, elapsed), "gateway.despacho.falha") ==
      if (exists a :: Serves(i, inboxId, a)) && i.maxRetries >= 1 && !Outcome(i, inboxId).Delivered? then 1 else 0
  {
    NamesDiffer();
    if Resolve(i, inboxId).UseAmbiente? {
      ServesExactly(i, inboxId, Resolve(i, inboxId).ambiente);
    }
    if a :| Serves(i, inboxId, a) {
      ServesExactly(i, inboxId, a);
    }
    InOneCall(i, inboxId, elapsed, FALHA);
    InOneCall(i, inboxId, elapsed, TENTATIVA);
    InOneCall(i, inboxId, elapsed, SUCESSO);
    InOneCall(i, inboxId, elapsed, ENFILEIRAMENTO);
  }

  /** A call that gets to attempt is timed once, and no other is. */
  lemma TimedExactly(i: Inputs, inboxId: InboxId, elapsed: int)
    ensures multiset(CallsOf(i, inboxId, elapsed))[RegistrarDuracao("gateway.despacho.duracao", elapsed, [("id_inbox", inboxId)])] ==
      if (exists a :: Serves(i, inboxId, a)) && i.maxRetries >= 1 then 1 else 0
  {
    if Resolve(i, inboxId).UseAmbiente? {
      ServesExactly(i, inboxId, Resolve(i, inboxId).ambiente);
    }
    if a :| Serves(i, inboxId, a) {
      ServesExactly(i, inboxId, a);
    }
  }

  /** A dead letter is counted last, under the name of the status it has in the queue. */
  lemma LabelIsStatus(i: Inputs, inboxId: InboxId, elapsed: int)
    requires Outcome(i, inboxId).DeadLettered?
    ensures var calls := CallsOf(i, inboxId, elapsed);
      calls[|calls| - 1] == Contar("gateway.dlq.enfileiramento", [("status",
        match Outcome(i, inboxId).status
        case INBOX_NAO_REGISTRADA => "INBOX_NAO_REGISTRADA"
        case FALHA_ENFILEIRAMENTO => "FALHA_ENFILEIRAMENTO"
        case NACK_RECEBIDO => "NACK_RECEBIDO"
        case FALHA_ENVIO => "FALHA_ENVIO"
        case AMBIENTE_INDISPONIVEL => "AMBIENTE_INDISPONIVEL"
        case ASSINATURA_INVALIDA => "ASSINATURA_INVALIDA")])
  {
  }

  // --- Whole runs -----------------------------------------------------------------------------

  datatype Call = Call(inputs: Inputs, inboxId: InboxId, elapsed: int)

  function AllCalls(run: seq<Call>): seq<MetricCall>
  {
    if run == [] then [] else
    var last := run[|run| - 1];
    AllCalls(run[..|run| - 1]) + CallsOf(last.inputs, last.inboxId, last.elapsed)
  }

  function Vanished(run: seq<Call>): nat
  {
    if run == [] then 0 else
    Vanished(run[..|run| - 1]) + if Vanishes(run[|run| - 1].inputs, run[|run| - 1].inboxId) then 1 else 0
  }

  /** The counters miss exactly the calls that vanished. */
  lemma {:induction false} LedgerAndMetricsAgree(run: seq<Call>)
    ensures var calls := AllCalls(run);
      && Raised(calls, TENTATIVA) == |run|
      && Raised(calls, SUCESSO) + Raised(calls, ENFILEIRAMENTO) + Vanished(run) == Raised(calls, TENTATIVA)
  {
    if run != [] {
      var init, last := run[..|run| - 1], run[|run| - 1];
      LedgerAndMetricsAgree(init);
      OneCall(last.inputs, last.inboxId, last.elapsed);
      var calls := CallsOf(last.inputs, last.inboxId, last.elapsed);
      RaisedAppend(AllCalls(init), calls, TENTATIVA);
      RaisedAppend(AllCalls(init), calls, SUCESSO);
      RaisedAppend(AllCalls(init), calls, ENFILEIRAMENTO);
    }
  }

  lemma {:induction false} VanishedNone(run: seq<Call>)
    ensures Vanished(run) == 0 <==> forall n :: 0 <= n < |run| ==> !Vanishes(run[n].inputs, run[n].inboxId)
  {
    if run != [] {
      VanishedNone(run[..|run| - 1]);
    }
  }

  /** Successes and dead letters add up to the attempts exactly if every call reads its ambiente and may attempt it. */
  lemma NothingMissingExactly(run: seq<Call>)
    ensures var calls := AllCalls(run);
      && Raised(calls, SUCESSO) + Raised(calls, ENFILEIRAMENTO) <= Raised(calls, TENTATIVA)
      && (Raised(calls, SUCESSO) + Raised(calls, ENFILEIRAMENTO) == Raised(calls, TENTATIVA) <==>
            forall n :: 0 <= n < |run| ==> !Vanishes(run[n].inputs, run[n].inboxId))
  {
    LedgerAndMetricsAgree(run);
    VanishedNone(run);
  }
}

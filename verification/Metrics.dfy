/**
 * `SentryMetricsService`: counters and capped duration samples of the open window, closed once a
 * minute by a snapshot. The ghost history keeps every record ever made, window by window.
 */
module Metrics {
  import opened Common
  import MetricKeys
  import Percentile

  const MAX_AMOSTRAS_POR_DISTRIBUICAO: nat := 500

  datatype Distribuicao = Distribuicao(amostras: seq<int>, total: nat)

  /** One call, with the key it was filed under. */
  datatype Registro = Conta(chave: string, valor: int) | Duracao(chave: string, ms: int)

  // --- What a window is of the calls made in it -----------------------------------------------

  function Contado(rs: seq<Registro>, chave: string): int
  {
    if rs == [] then 0 else
    var last := rs[|rs| - 1];
    Contado(rs[..|rs| - 1], chave) + if last.Conta? && last.chave == chave then last.valor else 0
  }

  function Duracoes(rs: seq<Registro>, chave: string): seq<int>
  {
    if rs == [] then [] else
    var last := rs[|rs| - 1];
    Duracoes(rs[..|rs| - 1], chave) + if last.Duracao? && last.chave == chave then [last.ms] else []
  }

  function Contados(rs: seq<Registro>): set<string>
  {
    set r | r in rs && r.Conta? :: r.chave
  }

  function Medidos(rs: seq<Registro>): set<string>
  {
    set r | r in rs && r.Duracao? :: r.chave
  }

  /** All durations are counted, the first 500 are kept. */
  function Distribuida(duracoes: seq<int>): Distribuicao
  {
    Distribuicao(duracoes[..Min(|duracoes|, MAX_AMOSTRAS_POR_DISTRIBUICAO)], |duracoes|)
  }

  ghost predicate Counts(contadores: map<string, int>, rs: seq<Registro>)
  {
    contadores.Keys == Contados(rs) && forall k :: k in contadores ==> contadores[k] == Contado(rs, k)
  }

  ghost predicate Measures(distribuicoes: map<string, Distribuicao>, rs: seq<Registro>)
  {
    distribuicoes.Keys == Medidos(rs) && forall k :: k in distribuicoes ==> distribuicoes[k] == Distribuida(Duracoes(rs, k))
  }

  lemma Next(rs: seq<Registro>, r: Registro, k: string)
    ensures Contado(rs + [r], k) == Contado(rs, k) + if r.Conta? && r.chave == k then r.valor else 0
    ensures Duracoes(rs + [r], k) == Duracoes(rs, k) + if r.Duracao? && r.chave == k then [r.ms] else []
  {
    assert (rs + [r])[..|rs|] == rs;
  }

  lemma NextKeys(rs: seq<Registro>, r: Registro)
    ensures Contados(rs + [r]) == Contados(rs) + if r.Conta? then {r.chave} else {}
    ensures Medidos(rs + [r]) == Medidos(rs) + if r.Duracao? then {r.chave} else {}
  {
  }

  lemma {:induction false} Absent(rs: seq<Registro>, k: string)
    ensures k !in Contados(rs) ==> Contado(rs, k) == 0
    ensures k in Medidos(rs) <==> Duracoes(rs, k) != []
  {
    if rs != [] {
      var init, last := rs[..|rs| - 1], rs[|rs| - 1];
      assert rs == init + [last];
      Absent(init, k);
      Next(init, last, k);
      NextKeys(init, last);
    }
  }

  lemma CountNext(contadores: map<string, int>, rs: seq<Registro>, chave: string, valor: int)
    requires Counts(contadores, rs)
    ensures var atual := if chave in contadores then contadores[chave] else 0;
      Counts(contadores[chave := atual + valor], rs + [Conta(chave, valor)])
  {
    Absent(rs, chave);
    Next(rs, Conta(chave, valor), chave);
    NextKeys(rs, Conta(chave, valor));
    forall k | k in contadores ensures k != chave ==> Contado(rs + [Conta(chave, valor)], k) == contadores[k] {
      Next(rs, Conta(chave, valor), k);
    }
  }

  /** What `registrarDuracao` writes is what the durations of the key make with the new one. */
  lemma MeasureNext(distribuicoes: map<string, Distribuicao>, rs: seq<Registro>, chave: string, ms: int,
                    d: Distribuicao, amostras: seq<int>)
    requires Measures(distribuicoes, rs)
    requires d == if chave in distribuicoes then distribuicoes[chave] else Distribuicao([], 0)
    requires amostras == if |d.amostras| < MAX_AMOSTRAS_POR_DISTRIBUICAO then d.amostras + [ms] else d.amostras
    ensures Measures(distribuicoes[chave := Distribuicao(amostras, d.total + 1)], rs + [Duracao(chave, ms)])
  {
    Absent(rs, chave);
    assert d == Distribuida(Duracoes(rs, chave));
    DistribuidaNext(Duracoes(rs, chave), ms);
    KeyMeasured(distribuicoes, rs, chave, ms);
  }

  lemma KeyKept(rs: seq<Registro>, r: Registro, d: Distribuicao, k: string)
    requires k != r.chave && d == Distribuida(Duracoes(rs, k))
    ensures d == Distribuida(Duracoes(rs + [r], k))
  {
    Next(rs, r, k);
    assert Duracoes(rs, k) + [] == Duracoes(rs, k);
  }

  lemma KeyMeasured(distribuicoes: map<string, Distribuicao>, rs: seq<Registro>, chave: string, ms: int)
    requires Measures(distribuicoes, rs)
    ensures Measures(distribuicoes[chave := Distribuida(Duracoes(rs, chave) + [ms])], rs + [Duracao(chave, ms)])
  {
    var r := Duracao(chave, ms);
    var now := distribuicoes[chave := Distribuida(Duracoes(rs, chave) + [ms])];
    NextKeys(rs, r);
    assert now.Keys == distribuicoes.Keys + {chave};
    Next(rs, r, chave);
    forall k | k in now && k != chave ensures now[k] == Distribuida(Duracoes(rs + [r], k)) {
      KeyKept(rs, r, distribuicoes[k], k);
    }
  }

  /** Adding a duration to a capped list is capping the longer list. */
  lemma DistribuidaNext(duracoes: seq<int>, ms: int)
    ensures var d := Distribuida(duracoes);
      var amostras := if |d.amostras| < MAX_AMOSTRAS_POR_DISTRIBUICAO then d.amostras + [ms] else d.amostras;
      Distribuicao(amostras, d.total + 1) == Distribuida(duracoes + [ms])
  {
  }

  /** A counter leaves the distributions alone, and a duration the counters. */
  lemma OtherKind(contadores: map<string, int>, distribuicoes: map<string, Distribuicao>, rs: seq<Registro>, r: Registro)
    requires Counts(contadores, rs) && Measures(distribuicoes, rs)
    ensures r.Conta? ==> Measures(distribuicoes, rs + [r])
    ensures r.Duracao? ==> Counts(contadores, rs + [r])
  {
    NextKeys(rs, r);
    forall k ensures r.Conta? ==> Duracoes(rs + [r], k) == Duracoes(rs, k)
             ensures r.Duracao? ==> Contado(rs + [r], k) == Contado(rs, k) {
      Next(rs, r, k);
    }
  }

  // --- Conservation over windows --------------------------------------------------------------

  function Flatten(windows: seq<seq<Registro>>): seq<Registro>
  {
    if windows == [] then [] else Flatten(windows[..|windows| - 1]) + windows[|windows| - 1]
  }

  function PerWindow(windows: seq<seq<Registro>>, chave: string): seq<int>
  {
    seq(|windows|, n requires 0 <= n < |windows| => Contado(windows[n], chave))
  }

  function PerWindowTotals(windows: seq<seq<Registro>>, chave: string): seq<int>
  {
    seq(|windows|, n requires 0 <= n < |windows| => |Duracoes(windows[n], chave)|)
  }

  lemma {:induction false} ContadoAppend(a: seq<Registro>, b: seq<Registro>, k: string)
    ensures Contado(a + b, k) == Contado(a, k) + Contado(b, k)
  {
    if b == [] {
      assert a + b == a;
    } else {
      ContadoAppend(a, b[..|b| - 1], k);
      assert (a + b)[..|a + b| - 1] == a + b[..|b| - 1];
    }
  }

  lemma {:induction false} DuracoesAppend(a: seq<Registro>, b: seq<Registro>, k: string)
    ensures Duracoes(a + b, k) == Duracoes(a, k) + Duracoes(b, k)
  {
    if b == [] {
      assert a + b == a;
    } else {
      DuracoesAppend(a, b[..|b| - 1], k);
      assert (a + b)[..|a + b| - 1] == a + b[..|b| - 1];
    }
  }

  /** No record is lost or counted twice at a window's end: the windows add up to everything recorded. */
  lemma {:induction false} WindowsConserve(windows: seq<seq<Registro>>, k: string)
    ensures Sum(PerWindow(windows, k)) == Contado(Flatten(windows), k)
    ensures Sum(PerWindowTotals(windows, k)) == |Duracoes(Flatten(windows), k)|
  {
    if windows != [] {
      var n := |windows| - 1;
      WindowsConserve(windows[..n], k);
      assert PerWindow(windows, k) == PerWindow(windows[..n], k) + [Contado(windows[n], k)];
      assert PerWindowTotals(windows, k) == PerWindowTotals(windows[..n], k) + [|Duracoes(windows[n], k)|];
      SumAppend(PerWindow(windows[..n], k), Contado(windows[n], k));
      SumAppend(PerWindowTotals(windows[..n], k), |Duracoes(windows[n], k)|);
      ContadoAppend(Flatten(windows[..n]), windows[n], k);
      DuracoesAppend(Flatten(windows[..n]), windows[n], k);
    }
  }

  // --- The snapshot ---------------------------------------------------------------------------

  datatype Sufixo = Total | P50 | P95 | Max

  function Texto(s: Sufixo): string
  {
    match s case Total => ".total" case P50 => ".p50" case P95 => ".p95" case Max => ".max"
  }

  /** The readings that each snapshot carries besides the window. */
  datatype Memoria = Memoria(rss: int, heapUsado: int, uptime: int)

  const RSS := "gauge.processo.rss_bytes"
  const HEAP := "gauge.processo.heap_usado_bytes"
  const UPTIME := "gauge.processo.uptime_s"

  predicate IsGauge(nome: string)
  {
    nome == RSS || nome == HEAP || nome == UPTIME
  }

  function NomeContador(chave: string): string
  {
    "contador." + chave
  }

  function NomeDistribuicao(chave: string, s: Sufixo): string
  {
    "dist." + chave + Texto(s)
  }

  function Estatistica(d: Distribuicao, s: Sufixo): int
  {
    var ordenadas := Percentile.Sort(d.amostras);
    match s
    case Total => d.total
    case P50 => Percentile.Percentil(ordenadas, 1, 2)
    case P95 => Percentile.Percentil(ordenadas, 19, 20)
    case Max => if ordenadas == [] then 0 else ordenadas[|ordenadas| - 1]
  }

  /** In every distribution that has a sample p50 <= p95 <= max, and max is the largest kept sample. */
  lemma StatisticsAscend(d: Distribuicao)
    requires d.amostras != []
    ensures Estatistica(d, P50) <= Estatistica(d, P95) <= Estatistica(d, Max)
    ensures Estatistica(d, Max) in d.amostras && forall x :: x in d.amostras ==> x <= Estatistica(d, Max)
  {
    Percentile.PercentilesAscend(d.amostras);
    Percentile.SortHas(d.amostras, Estatistica(d, Max));
  }

  /**
   * What a snapshot shows of the durations `ms` of one key: all are counted, and of the first 500 the
   * 50th and the 95th percentile and the largest.
   */
  ghost predicate Shows(atributos: map<string, int>, k: string, ms: seq<int>)
  {
    var kept := if |ms| <= 500 then ms else ms[..500];
    && Has(atributos, "dist." + k + ".total", |ms|)
    && (exists p50, p95, max ::
          && Has(atributos, "dist." + k + ".p50", p50) && Percentile.IsPercentile(kept, 1, 2, p50)
          && Has(atributos, "dist." + k + ".p95", p95) && Percentile.IsPercentile(kept, 19, 20, p95)
          && Has(atributos, "dist." + k + ".max", max) && max in kept && forall x :: x in kept ==> x <= max)
  }

  predicate Has(atributos: map<string, int>, nome: string, valor: int)
  {
    nome in atributos && atributos[nome] == valor
  }

  lemma StatisticsShow(atributos: map<string, int>, k: string, ms: seq<int>)
    requires ms != [] && forall s :: IsStatistic(atributos, k, s, Distribuida(ms))
    ensures Shows(atributos, k, ms)
  {
    var d := Distribuida(ms);
    var kept := if |ms| <= 500 then ms else ms[..500];
    assert d.amostras == kept && d.total == |ms|;
    Percentile.NearestRank(kept, 1, 2);
    Percentile.NearestRank(kept, 19, 20);
    StatisticsAscend(d);
    assert IsStatistic(atributos, k, Total, d);
    var p50, p95, max := Estatistica(d, P50), Estatistica(d, P95), Estatistica(d, Max);
    assert IsStatistic(atributos, k, P50, d) && Has(atributos, "dist." + k + ".p50", p50);
    assert IsStatistic(atributos, k, P95, d) && Has(atributos, "dist." + k + ".p95", p95);
    assert IsStatistic(atributos, k, Max, d) && Has(atributos, "dist." + k + ".max", max);
  }

  lemma StatisticNames(k: string, s: Sufixo, l: string, t: Sufixo)
    requires NomeDistribuicao(k, s) == NomeDistribuicao(l, t)
    ensures k == l && s == t
  {
    var a, b := NomeDistribuicao(k, s), NomeDistribuicao(l, t);
    assert a[|a| - 1] == Texto(s)[|Texto(s)| - 1] && b[|b| - 1] == Texto(t)[|Texto(t)| - 1];
    assert a[5..|a| - |Texto(s)|] == k && b[5..|b| - |Texto(t)|] == l;
  }

  /** No two entries of a snapshot share a name, whatever the keys are. */
  lemma NamesAreApart(k: string, s: Sufixo, l: string, t: Sufixo)
    ensures NomeContador(k) != NomeDistribuicao(l, t)
    ensures NomeContador(k) == NomeContador(l) ==> k == l
    ensures NomeDistribuicao(k, s) == NomeDistribuicao(l, t) ==> k == l && s == t
    ensures !IsGauge(NomeContador(k)) && !IsGauge(NomeDistribuicao(l, t)) && RSS != HEAP && RSS != UPTIME && HEAP != UPTIME
  {
    assert NomeContador(k)[0] == 'c' && NomeDistribuicao(l, t)[0] == 'd';
    assert RSS[0] == HEAP[0] == UPTIME[0] == 'g';
    assert RSS[15] == 'r' && HEAP[15] == 'h' && UPTIME[15] == 'u';
    if NomeContador(k) == NomeContador(l) {
      assert NomeContador(k)[9..] == k && NomeContador(l)[9..] == l;
    }
    if NomeDistribuicao(k, s) == NomeDistribuicao(l, t) {
      StatisticNames(k, s, l, t);
    }
  }

  predicate HasCounters(atributos: map<string, int>, contadores: map<string, int>, ks: set<string>)
  {
    forall k :: k in ks && k in contadores ==> NomeContador(k) in atributos && atributos[NomeContador(k)] == contadores[k]
  }

  ghost predicate HasStatistics(atributos: map<string, int>, distribuicoes: map<string, Distribuicao>, ks: set<string>)
  {
    forall k, s :: k in ks && k in distribuicoes ==> IsStatistic(atributos, k, s, distribuicoes[k])
  }

  predicate IsStatistic(atributos: map<string, int>, k: string, s: Sufixo, d: Distribuicao)
  {
    NomeDistribuicao(k, s) in atributos && atributos[NomeDistribuicao(k, s)] == Estatistica(d, s)
  }

  function WithDistribution(atributos: map<string, int>, k: string, d: Distribuicao): map<string, int>
  {
    atributos[NomeDistribuicao(k, Total) := Estatistica(d, Total)]
             [NomeDistribuicao(k, P50) := Estatistica(d, P50)]
             [NomeDistribuicao(k, P95) := Estatistica(d, P95)]
             [NomeDistribuicao(k, Max) := Estatistica(d, Max)]
  }

  /** The name of an entry that a snapshot of these keys may have. */
  ghost predicate OfKeys(nome: string, contados: set<string>, medidos: set<string>)
  {
    || nome in {"gauge.processo.rss_bytes", "gauge.processo.heap_usado_bytes", "gauge.processo.uptime_s"}
    || (exists k :: k in contados && nome == "contador." + k)
    || (exists k :: k in medidos && nome in {"dist." + k + ".total", "dist." + k + ".p50", "dist." + k + ".p95", "dist." + k + ".max"})
  }

  lemma WithDistributionHas(atributos: map<string, int>, k: string, d: Distribuicao, s: Sufixo)
    ensures IsStatistic(WithDistribution(atributos, k, d), k, s, d)
  {
    NamesAreApart(k, s, k, P50);
    NamesAreApart(k, s, k, P95);
    NamesAreApart(k, s, k, Max);
  }

  lemma WithDistributionKeeps(atributos: map<string, int>, k: string, d: Distribuicao, n: string)
    requires n in atributos && forall s :: n != NomeDistribuicao(k, s)
    ensures n in WithDistribution(atributos, k, d) && WithDistribution(atributos, k, d)[n] == atributos[n]
  {
    assert n != NomeDistribuicao(k, Total) && n != NomeDistribuicao(k, P50);
    assert n != NomeDistribuicao(k, P95) && n != NomeDistribuicao(k, Max);
  }

  predicate HasGauges(atributos: map<string, int>, m: Memoria)
  {
    && Has(atributos, "gauge.processo.rss_bytes", m.rss)
    && Has(atributos, "gauge.processo.heap_usado_bytes", m.heapUsado)
    && Has(atributos, "gauge.processo.uptime_s", m.uptime)
  }

  function WithGauges(atributos: map<string, int>, m: Memoria): map<string, int>
  {
    atributos[RSS := m.rss][HEAP := m.heapUsado][UPTIME := m.uptime]
  }

  lemma GaugesKeep(atributos: map<string, int>, m: Memoria, contadores: map<string, int>, distribuicoes: map<string, Distribuicao>)
    requires HasCounters(atributos, contadores, contadores.Keys) && HasStatistics(atributos, distribuicoes, distribuicoes.Keys)
    ensures HasCounters(WithGauges(atributos, m), contadores, contadores.Keys)
    ensures HasStatistics(WithGauges(atributos, m), distribuicoes, distribuicoes.Keys)
    ensures HasGauges(WithGauges(atributos, m), m)
  {
    NamesAreApart("", Total, "", Total);
    var now := WithGauges(atributos, m);
    forall k | k in contadores ensures NomeContador(k) in now && now[NomeContador(k)] == contadores[k] {
      NamesAreApart(k, Total, k, Total);
    }
    forall k, s | k in distribuicoes ensures IsStatistic(now, k, s, distribuicoes[k]) {
      assert IsStatistic(atributos, k, s, distribuicoes[k]);
      NamesAreApart(k, s, k, s);
    }
  }

  method MontarAtributos(contadores: map<string, int>, distribuicoes: map<string, Distribuicao>, memoria: Memoria)
    returns (atributos: map<string, int>)
    ensures HasCounters(atributos, contadores, contadores.Keys)
    ensures HasStatistics(atributos, distribuicoes, distribuicoes.Keys)
    ensures HasGauges(atributos, memoria)
    ensures forall n :: n in atributos ==> OfKeys(n, contadores.Keys, distribuicoes.Keys)
  {
    atributos := map[];
    var rest := contadores.Keys;
    while rest != {}
      invariant rest <= contadores.Keys && HasCounters(atributos, contadores, contadores.Keys - rest)
      invariant forall n :: n in atributos ==> OfKeys(n, contadores.Keys, distribuicoes.Keys)
      decreases rest
    {
      ghost var w := AnElement(rest);
      var k: string :| k in rest;
      ghost var was := atributos;
      assert NomeContador(k) == "contador." + k && OfKeys(NomeContador(k), contadores.Keys, distribuicoes.Keys);
      atributos := atributos[NomeContador(k) := contadores[k]];
      forall l | l in contadores.Keys - rest
        ensures NomeContador(l) in atributos && atributos[NomeContador(l)] == contadores[l]
      {
        NamesAreApart(k, Total, l, Total);
      }
      rest := rest - {k};
    }
    var medidos := distribuicoes.Keys;
    while medidos != {}
      invariant medidos <= distribuicoes.Keys
      invariant forall n :: n in atributos ==> OfKeys(n, contadores.Keys, distribuicoes.Keys)
      invariant HasCounters(atributos, contadores, contadores.Keys)
      invariant HasStatistics(atributos, distribuicoes, distribuicoes.Keys - medidos)
      decreases medidos
    {
      ghost var w := AnElement(medidos);
      var k: string :| k in medidos;
      ghost var was := atributos;
      atributos := WithDistribution(atributos, k, distribuicoes[k]);
      DistributionOfKeys(contadores.Keys, distribuicoes.Keys, k);
      DistributionKeeps(was, contadores, distribuicoes, distribuicoes.Keys - medidos, k);
      medidos := medidos - {k};
    }
    GaugesKeep(atributos, memoria, contadores, distribuicoes);
    atributos := WithGauges(atributos, memoria);
  }

  lemma DistributionOfKeys(contados: set<string>, medidos: set<string>, k: string)
    requires k in medidos
    ensures forall s :: OfKeys(NomeDistribuicao(k, s), contados, medidos)
  {
    forall s ensures OfKeys(NomeDistribuicao(k, s), contados, medidos) {
      assert NomeDistribuicao(k, s) in {"dist." + k + ".total", "dist." + k + ".p50", "dist." + k + ".p95", "dist." + k + ".max"};
    }
  }

  lemma DistributionKeeps(was: map<string, int>, contadores: map<string, int>, distribuicoes: map<string, Distribuicao>,
                          done: set<string>, k: string)
    requires HasCounters(was, contadores, contadores.Keys) && HasStatistics(was, distribuicoes, done)
    requires k in distribuicoes && k !in done
    ensures HasCounters(WithDistribution(was, k, distribuicoes[k]), contadores, contadores.Keys)
    ensures HasStatistics(WithDistribution(was, k, distribuicoes[k]), distribuicoes, done + {k})
  {
    var now := WithDistribution(was, k, distribuicoes[k]);
    forall l | l in contadores ensures NomeContador(l) in now && now[NomeContador(l)] == contadores[l] {
      forall s ensures NomeContador(l) != NomeDistribuicao(k, s) {
        NamesAreApart(l, s, k, s);
      }
      WithDistributionKeeps(was, k, distribuicoes[k], NomeContador(l));
    }
    forall l, t | l in done + {k} && l in distribuicoes ensures IsStatistic(now, l, t, distribuicoes[l]) {
      if l == k {
        WithDistributionHas(was, k, distribuicoes[k], t);
      } else {
        assert IsStatistic(was, l, t, distribuicoes[l]);
        forall s ensures NomeDistribuicao(l, t) != NomeDistribuicao(k, s) {
          NamesAreApart(l, t, k, s);
        }
        WithDistributionKeeps(was, k, distribuicoes[k], NomeDistribuicao(l, t));
      }
    }
  }

  // --- The service ----------------------------------------------------------------------------

  class SentryMetrics {
    var contadores: map<string, int>
    var distribuicoes: map<string, Distribuicao>
    /** The calls of the open window and of the closed ones. */
    ghost var registros: seq<Registro>
    ghost var fechadas: seq<seq<Registro>>

    ghost predicate Valid()
      reads this
    {
      Counts(contadores, registros) && Measures(distribuicoes, registros)
    }

    /** Everything recorded since the start. */
    ghost function Tudo(): seq<Registro>
      reads this
    {
      Flatten(fechadas) + registros
    }

    constructor ()
      ensures Valid() && Tudo() == []
    {
      contadores, distribuicoes, registros, fechadas := map[], map[], [], [];
    }

    method Contar(nome: string, atributos: seq<(string, string)>, valor: int)
      requires Valid()
      modifies this
      ensures Valid() && fechadas == old(fechadas)
      ensures registros == old(registros) + [Conta(MetricKeys.Chave(nome, atributos), valor)]
    {
      var chave := MetricKeys.Chave(nome, atributos);
      CountNext(contadores, registros, chave, valor);
      OtherKind(contadores, distribuicoes, registros, Conta(chave, valor));
      var atual := if chave in contadores then contadores[chave] else 0;
      contadores := contadores[chave := atual + valor];
      registros := registros + [Conta(chave, valor)];
    }

    method RegistrarDuracao(nome: string, duracaoMs: int, atributos: seq<(string, string)>)
      requires Valid()
      modifies this
      ensures Valid() && fechadas == old(fechadas)
      ensures registros == old(registros) + [Duracao(MetricKeys.Chave(nome, atributos), duracaoMs)]
    {
      var chave := MetricKeys.Chave(nome, atributos);
      OtherKind(contadores, distribuicoes, registros, Duracao(chave, duracaoMs));
      var d := if chave in distribuicoes then distribuicoes[chave] else Distribuicao([], 0);
      var amostras := if |d.amostras| < MAX_AMOSTRAS_POR_DISTRIBUICAO then d.amostras + [duracaoMs] else d.amostras;
      MeasureNext(distribuicoes, registros, chave, duracaoMs, d, amostras);
      distribuicoes := distribuicoes[chave := Distribuicao(amostras, d.total + 1)];
      registros := registros + [Duracao(chave, duracaoMs)];
    }

    /**
     * The window is closed whether or not it can be sent; a snapshot that is sent shows every counter
     * and every distribution of it.
     */
    method EmitirSnapshot(habilitado: bool, memoria: Memoria) returns (snapshot: Option<map<string, int>>)
      requires Valid()
      modifies this
      ensures Valid() && registros == [] && fechadas == old(fechadas) + [old(registros)]
      ensures Tudo() == old(Tudo())
      ensures snapshot.Some? <==> habilitado
      ensures snapshot.Some? ==>
        && (forall k :: k in Contados(old(registros)) ==> Has(snapshot.value, "contador." + k, Contado(old(registros), k)))
        && (forall k :: k in Medidos(old(registros)) ==> Shows(snapshot.value, k, Duracoes(old(registros), k)))
        && HasGauges(snapshot.value, memoria)
        && (forall n :: n in snapshot.value ==> OfKeys(n, Contados(old(registros)), Medidos(old(registros))))
    {
      var atributos := MontarAtributos(contadores, distribuicoes, memoria);
      forall k | k in Medidos(registros) ensures Shows(atributos, k, Duracoes(registros, k)) {
        Absent(registros, k);
        assert forall s :: IsStatistic(atributos, k, s, distribuicoes[k]);
        StatisticsShow(atributos, k, Duracoes(registros, k));
      }
      forall k | k in Contados(registros) ensures Has(atributos, "contador." + k, Contado(registros, k)) {
        assert k in contadores && NomeContador(k) == "contador." + k;
      }
      contadores, distribuicoes := map[], map[];
      fechadas, registros := fechadas + [registros], [];
      snapshot := if habilitado then Some(atributos) else None;
    }
  }
}

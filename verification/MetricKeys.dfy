/** `SentryMetricsService.chave`: one text for a metric name and its attributes. */
module MetricKeys {
  type Par = (string, string)

  // --- Lexicographic order --------------------------------------------------------------------

  predicate Leq(a: string, b: string)
  {
    a == "" || (b != "" && (a[0] < b[0] || (a[0] == b[0] && Leq(a[1..], b[1..]))))
  }

  lemma {:induction false} LeqTotal(a: string, b: string)
    ensures Leq(a, b) || Leq(b, a)
    ensures Leq(a, b) && Leq(b, a) ==> a == b
  {
    if a != "" && b != "" {
      LeqTotal(a[1..], b[1..]);
      assert a == [a[0]] + a[1..] && b == [b[0]] + b[1..];
    }
  }

  lemma {:induction false} LeqTransitive(a: string, b: string, c: string)
    requires Leq(a, b) && Leq(b, c)
    ensures Leq(a, c)
  {
    if a != "" && a[0] == b[0] && b[0] == c[0] {
      LeqTransitive(a[1..], b[1..], c[1..]);
    }
  }

  // --- The key --------------------------------------------------------------------------------

  function Insert(p: Par, s: seq<Par>): seq<Par>
  {
    if s == [] || Leq(p.0, s[0].0) then [p] + s else [s[0]] + Insert(p, s[1..])
  }

  /** `Object.keys(atributos).sort()`, with the values along. */
  function Sort(s: seq<Par>): seq<Par>
  {
    if s == [] then [] else Insert(s[0], Sort(s[1..]))
  }

  function Pares(s: seq<Par>): string
  {
    if s == [] then "" else
    var par := s[0].0 + "=" + s[0].1;
    if |s| == 1 then par else par + "," + Pares(s[1..])
  }

  function Chave(nome: string, atributos: seq<Par>): string
  {
    if atributos == [] then nome else nome + "|" + Pares(Sort(atributos))
  }

  /** No attribute is given twice: they are the properties of one object. */
  ghost predicate OneEach(s: seq<Par>)
  {
    forall i, j :: 0 <= i < j < |s| ==> s[i].0 != s[j].0
  }

  // --- Invariance -----------------------------------------------------------------------------

  predicate Sorted(s: seq<Par>)
  {
    |s| <= 1 || (Leq(s[0].0, s[1].0) && Sorted(s[1..]))
  }

  lemma {:induction false} InsertKeeps(p: Par, s: seq<Par>)
    ensures multiset(Insert(p, s)) == multiset(s) + multiset{p}
  {
    if s != [] && !Leq(p.0, s[0].0) {
      InsertKeeps(p, s[1..]);
      assert s == [s[0]] + s[1..];
    }
  }

  lemma {:induction false} InsertSorts(p: Par, s: seq<Par>)
    requires Sorted(s)
    ensures Sorted(Insert(p, s)) && |Insert(p, s)| == |s| + 1
    ensures Insert(p, s)[0] == p || (s != [] && Insert(p, s)[0] == s[0])
  {
    if s != [] && !Leq(p.0, s[0].0) {
      LeqTotal(p.0, s[0].0);
      InsertSorts(p, s[1..]);
      assert Insert(p, s)[1..] == Insert(p, s[1..]);
    } else {
      assert ([p] + s)[1..] == s;
    }
  }

  lemma {:induction false} SortSorts(s: seq<Par>)
    ensures Sorted(Sort(s)) && multiset(Sort(s)) == multiset(s)
  {
    if s != [] {
      SortSorts(s[1..]);
      InsertSorts(s[0], Sort(s[1..]));
      InsertKeeps(s[0], Sort(s[1..]));
      assert s == [s[0]] + s[1..];
    }
  }

  lemma {:induction false} FirstIsLeast(s: seq<Par>, p: Par)
    requires Sorted(s) && p in s
    ensures Leq(s[0].0, p.0)
  {
    LeqTotal(s[0].0, s[0].0);
    if p != s[0] {
      assert p in s[1..];
      FirstIsLeast(s[1..], p);
      LeqTransitive(s[0].0, s[1].0, p.0);
    }
  }

  /** No two different pairs of `m` share their key. */
  ghost predicate OneEachIn(m: multiset<Par>)
  {
    forall p, q :: p in m && q in m && p.0 == q.0 ==> p == q
  }

  lemma SameFirst(s: seq<Par>, t: seq<Par>)
    requires s != [] && t != [] && Sorted(s) && Sorted(t) && multiset(s) == multiset(t) && OneEachIn(multiset(s))
    ensures s[0] == t[0]
  {
    assert s[0] in multiset(t) && t[0] in multiset(s);
    FirstIsLeast(s, t[0]);
    FirstIsLeast(t, s[0]);
    LeqTotal(s[0].0, t[0].0);
  }

  /** A set of attributes has one sorted list. */
  lemma {:induction false} SortedIsUnique(s: seq<Par>, t: seq<Par>)
    requires Sorted(s) && Sorted(t) && multiset(s) == multiset(t) && OneEachIn(multiset(s))
    ensures s == t
    decreases |s|
  {
    assert |multiset(s)| == |s| && |multiset(t)| == |t|;
    if s != [] {
      SameFirst(s, t);
      assert s == [s[0]] + s[1..] && t == [t[0]] + t[1..];
      assert multiset(s[1..]) == multiset(s) - multiset{s[0]};
      SortedIsUnique(s[1..], t[1..]);
    }
  }

  lemma {:induction false} OneEachInMultiset(s: seq<Par>)
    requires OneEach(s)
    ensures OneEachIn(multiset(s))
  {
    forall p, q | p in multiset(s) && q in multiset(s) && p.0 == q.0 ensures p == q {
      assert p in s && q in s;
    }
  }

  /** The order in which the attributes were given does not show. */
  lemma OrderDoesNotShow(nome: string, a: seq<Par>, b: seq<Par>)
    requires OneEach(a) && multiset(a) == multiset(b)
    ensures Chave(nome, a) == Chave(nome, b)
  {
    assert |multiset(a)| == |a| && |multiset(b)| == |b|;
    SortSorts(a);
    SortSorts(b);
    OneEachInMultiset(a);
    SortedIsUnique(Sort(a), Sort(b));
  }

  // --- Injectivity ----------------------------------------------------------------------------

  predicate CleanPair(p: Par)
  {
    '=' !in p.0 && ',' !in p.1
  }

  /** No separator stands where it would be taken for one: commas in keys, say, do no harm. */
  ghost predicate Clean(nome: string, atributos: seq<Par>)
  {
    '|' !in nome && forall p :: p in atributos ==> CleanPair(p)
  }

  /** Texts that agree up to the first `c` agree before it and after it. */
  lemma {:induction false} FirstSeparator(a: string, b: string, c: char, x: string, y: string)
    requires c !in a && c !in b && a + [c] + x == b + [c] + y
    ensures a == b && x == y
  {
    var l, r := a + [c] + x, b + [c] + y;
    assert l[0] == r[0] && l[1..] == r[1..];
    if a != "" && b != "" {
      assert l[1..] == a[1..] + [c] + x && r[1..] == b[1..] + [c] + y;
      FirstSeparator(a[1..], b[1..], c, x, y);
      assert a == [a[0]] + a[1..] && b == [b[0]] + b[1..];
    } else {
      assert a == "" ==> l[1..] == x;
      assert b == "" ==> r[1..] == y;
    }
  }

  /** What follows the first key. */
  function AfterKey(s: seq<Par>): string
    requires s != []
  {
    s[0].1 + if |s| == 1 then "" else "," + Pares(s[1..])
  }

  lemma AfterTheValue(s: seq<Par>)
    requires s != [] && CleanPair(s[0])
    ensures |s| == 1 <==> ',' !in AfterKey(s)
    ensures |s| == 1 ==> AfterKey(s) == s[0].1 && s == [s[0]]
    ensures |s| > 1 ==> AfterKey(s) == s[0].1 + [','] + Pares(s[1..])
  {
    assert |s| > 1 ==> AfterKey(s)[|s[0].1|] == ',';
  }

  lemma {:induction false} ParesInjective(s: seq<Par>, t: seq<Par>)
    requires s != [] && t != [] && Pares(s) == Pares(t)
    requires (forall p :: p in s ==> CleanPair(p)) && (forall p :: p in t ==> CleanPair(p))
    ensures s == t
    decreases |s|
  {
    assert CleanPair(s[0]) && CleanPair(t[0]);
    assert Pares(s) == s[0].0 + "=" + AfterKey(s);
    assert Pares(t) == t[0].0 + "=" + AfterKey(t);
    FirstSeparator(s[0].0, t[0].0, '=', AfterKey(s), AfterKey(t));
    AfterTheValue(s);
    AfterTheValue(t);
    if |s| > 1 && |t| > 1 {
      FirstSeparator(s[0].1, t[0].1, ',', Pares(s[1..]), Pares(t[1..]));
      ParesInjective(s[1..], t[1..]);
      assert s == [s[0]] + s[1..] && t == [t[0]] + t[1..];
    }
  }

  lemma {:induction false} SortHas(s: seq<Par>, p: Par)
    ensures p in Sort(s) <==> p in s
    ensures Sort(s) == [] <==> s == []
  {
    SortSorts(s);
    assert p in multiset(Sort(s)) <==> p in multiset(s);
    assert |multiset(Sort(s))| == |Sort(s)| && |multiset(s)| == |s|;
  }

  /** With clean texts a key stands for one name and one set of attributes, and for nothing else. */
  lemma KeyIsCanonical(nome: string, a: seq<Par>, outro: string, b: seq<Par>)
    requires Clean(nome, a) && Clean(outro, b) && OneEach(a) && OneEach(b)
    ensures Chave(nome, a) == Chave(outro, b) <==> nome == outro && multiset(a) == multiset(b)
  {
    if nome == outro && multiset(a) == multiset(b) {
      OrderDoesNotShow(nome, a, b);
    }
    if Chave(nome, a) == Chave(outro, b) {
      KeyTells(nome, a, outro, b);
    }
  }

  lemma KeyTells(nome: string, a: seq<Par>, outro: string, b: seq<Par>)
    requires Clean(nome, a) && Clean(outro, b) && Chave(nome, a) == Chave(outro, b)
    ensures nome == outro && multiset(a) == multiset(b)
  {
    SortSorts(a);
    SortSorts(b);
    assert a != [] ==> Chave(nome, a)[|nome|] == '|';
    assert b != [] ==> Chave(outro, b)[|outro|] == '|';
    if a != [] && b != [] {
      FirstSeparator(nome, outro, '|', Pares(Sort(a)), Pares(Sort(b)));
      forall p ensures p in Sort(a) ==> CleanPair(p) { SortHas(a, p); }
      forall p ensures p in Sort(b) ==> CleanPair(p) { SortHas(b, p); }
      SortHas(a, ("", ""));
      SortHas(b, ("", ""));
      ParesInjective(Sort(a), Sort(b));
    }
  }

  // Each of the three conditions is needed: a separator out of place makes two metrics one.

  lemma BarInNameCollides(n: string, k: string, v: string)
    ensures Chave(n + "|" + (k + "=" + v), []) == Chave(n, [(k, v)])
  {
    OneKey(n, k, v);
  }

  lemma EqualsInKeyCollides(n: string, k: string, v: string, w: string)
    ensures Chave(n, [(k + "=" + v, w)]) == Chave(n, [(k, v + "=" + w)])
  {
    OneKey(n, k + "=" + v, w);
    OneKey(n, k, v + "=" + w);
    assert (k + "=" + v) + "=" + w == k + "=" + (v + "=" + w);
  }

  lemma CommaInValueCollides(n: string, k: string, v: string, l: string, w: string)
    requires Leq(k, l)
    ensures Chave(n, [(k, v + "," + (l + "=" + w))]) == Chave(n, [(k, v), (l, w)])
  {
    OneKey(n, k, v + "," + (l + "=" + w));
    TwoKeys(n, k, v, l, w);
    assert k + "=" + (v + "," + (l + "=" + w)) == k + "=" + v + "," + (l + "=" + w);
  }

  lemma OneKey(nome: string, k: string, v: string)
    ensures Chave(nome, [(k, v)]) == nome + "|" + (k + "=" + v)
  {
    assert Sort([(k, v)]) == [(k, v)];
  }

  lemma TwoKeys(nome: string, k: string, v: string, l: string, w: string)
    requires Leq(k, l)
    ensures Chave(nome, [(k, v), (l, w)]) == nome + "|" + (k + "=" + v + "," + (l + "=" + w))
  {
    var s := [(k, v), (l, w)];
    assert s[1..] == [(l, w)];
    assert Sort(s[1..]) == s[1..];
    assert Sort(s) == s;
    assert Pares(s[1..]) == l + "=" + w;
  }
}

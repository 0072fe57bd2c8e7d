/** `SentryMetricsService.percentil`: the nearest-rank percentile, with fractions as exact rationals. */
module Percentile {
  import opened Common

  ghost predicate Ascending(s: seq<int>)
  {
    forall i, j :: 0 <= i < j < |s| ==> s[i] <= s[j]
  }

  function Insert(x: int, s: seq<int>): (r: seq<int>)
    ensures |r| == |s| + 1
  {
    if s == [] || x <= s[0] then [x] + s else [s[0]] + Insert(x, s[1..])
  }

  /** `[...amostras].sort((a, b) => a - b)`. */
  function Sort(s: seq<int>): (r: seq<int>)
    ensures |r| == |s|
  {
    if s == [] then [] else Insert(s[0], Sort(s[1..]))
  }

  lemma {:induction false} InsertKeeps(x: int, s: seq<int>)
    ensures multiset(Insert(x, s)) == multiset(s) + multiset{x}
  {
    if s != [] && x > s[0] {
      InsertKeeps(x, s[1..]);
      assert s == [s[0]] + s[1..];
    }
  }

  lemma {:induction false} InsertSorts(x: int, s: seq<int>)
    requires Ascending(s)
    ensures Ascending(Insert(x, s))
    ensures Insert(x, s)[0] == if s == [] then x else Min(x, s[0])
  {
    if s != [] && x > s[0] {
      InsertSorts(x, s[1..]);
      var rest := Insert(x, s[1..]);
      assert s[0] <= rest[0];
      assert forall i :: 0 < i < |rest| ==> rest[0] <= rest[i];
    }
  }

  lemma {:induction false} SortAscends(s: seq<int>)
    ensures Ascending(Sort(s))
  {
    if s != [] {
      SortAscends(s[1..]);
      InsertSorts(s[0], Sort(s[1..]));
    }
  }

  lemma {:induction false} SortKeeps(s: seq<int>)
    ensures multiset(Sort(s)) == multiset(s)
  {
    if s != [] {
      SortKeeps(s[1..]);
      InsertKeeps(s[0], Sort(s[1..]));
      assert s == [s[0]] + s[1..];
    }
  }

  lemma SortHas(s: seq<int>, x: int)
    ensures x in Sort(s) <==> x in s
  {
    SortKeeps(s);
    assert x in multiset(Sort(s)) <==> x in multiset(s);
  }

  function Ceil(num: int, den: nat): int
    requires den > 0
  {
    (num + den - 1) / den
  }

  /** `Math.ceil(fracao * n)`. */
  function Rank(n: nat, num: nat, den: nat): int
    requires den > 0
  {
    Ceil(num * n, den)
  }

  /** The sample of a sorted list at the fraction num/den. */
  function Percentil(ordenadas: seq<int>, num: nat, den: nat): int
    requires den > 0
  {
    if ordenadas == [] then 0 else SampleOfRank(ordenadas, Rank(|ordenadas|, num, den))
  }

  function SampleOfRank(ordenadas: seq<int>, rank: int): int
    requires ordenadas != []
  {
    ordenadas[Min(|ordenadas| - 1, if rank >= 1 then rank - 1 else 0)]
  }

  /** How many samples are at most `x`. */
  function AtMost(s: seq<int>, x: int): nat
  {
    if s == [] then 0 else (if s[0] <= x then 1 else 0) + AtMost(s[1..], x)
  }

  lemma {:induction false} AtMostInsert(y: int, s: seq<int>, x: int)
    ensures AtMost(Insert(y, s), x) == AtMost(s, x) + if y <= x then 1 else 0
  {
    if s == [] || y <= s[0] {
      assert ([y] + s)[1..] == s;
    } else {
      AtMostInsert(y, s[1..], x);
      assert Insert(y, s)[1..] == Insert(y, s[1..]);
    }
  }

  /** Counting does not look at the order. */
  lemma {:induction false} AtMostSort(s: seq<int>, x: int)
    ensures AtMost(Sort(s), x) == AtMost(s, x)
  {
    if s != [] {
      AtMostSort(s[1..], x);
      AtMostInsert(s[0], Sort(s[1..]), x);
    }
  }

  lemma {:induction false} AtMostUpTo(s: seq<int>, x: int, n: nat)
    requires n <= |s| && forall i :: 0 <= i < n ==> s[i] <= x
    ensures AtMost(s, x) >= n
  {
    if n > 0 {
      AtMostUpTo(s[1..], x, n - 1);
    }
  }

  lemma {:induction false} AtMostFrom(s: seq<int>, x: int, n: nat)
    requires n <= |s| && forall i :: n <= i < |s| ==> s[i] > x
    ensures AtMost(s, x) <= n
  {
    if s != [] {
      AtMostFrom(s[1..], x, if n > 0 then n - 1 else 0);
    }
  }

  lemma ProductMonotone(a: nat, b: nat, c: nat)
    requires a <= b
    ensures a * c <= b * c
  {
  }

  lemma CeilInRange(m: nat, n: nat, den: nat)
    requires den > 0 && 1 <= m <= n * den
    ensures 1 <= Ceil(m, den) <= n
  {
    var q := Ceil(m, den);
    assert q * den <= m + den - 1 < q * den + den;
    assert (n + 1) * den == n * den + den;
    assert q == 0 ==> q * den == 0;
    if q >= n + 1 {
      ProductMonotone(n + 1, q, den);
    }
  }

  /** A sample with at least `rank` samples at most it, and fewer than `rank` below it. */
  predicate HasRank(amostras: seq<int>, p: int, rank: int)
  {
    p in amostras && AtMost(amostras, p - 1) < rank <= AtMost(amostras, p)
  }

  lemma RankInAscending(s: seq<int>, p: int, rank: int)
    requires Ascending(s) && 1 <= rank <= |s| && p == s[rank - 1]
    ensures HasRank(s, p, rank)
  {
    AtMostUpTo(s, p, rank);
    AtMostFrom(s, p - 1, rank - 1);
  }

  lemma SampleHasRank(amostras: seq<int>, p: int, rank: int)
    requires 1 <= rank <= |amostras| && p == Sort(amostras)[rank - 1]
    ensures HasRank(amostras, p, rank)
  {
    SortAscends(amostras);
    RankInAscending(Sort(amostras), p, rank);
    SortHas(amostras, p);
    AtMostSort(amostras, p);
    AtMostSort(amostras, p - 1);
  }

  /** The least sample `p` that at least num/den of all samples do not exceed. */
  predicate IsPercentile(amostras: seq<int>, num: nat, den: nat, p: int)
  {
    && p in amostras
    && den * AtMost(amostras, p) >= num * |amostras|
    && den * AtMost(amostras, p - 1) < num * |amostras|
  }

  lemma CeilIs(m: nat, den: nat, above: nat, below: nat)
    requires den > 0 && below < Ceil(m, den) <= above
    ensures den * above >= m && den * below < m
  {
    var q := Ceil(m, den);
    assert m <= q * den <= m + den - 1;
    ProductMonotone(q, above, den);
    ProductMonotone(below + 1, q, den);
    assert (below + 1) * den == below * den + den;
  }

  /** Nearest rank, whatever the order the samples came in. */
  lemma NearestRank(amostras: seq<int>, num: nat, den: nat)
    requires amostras != [] && 0 < num <= den
    ensures IsPercentile(amostras, num, den, Percentil(Sort(amostras), num, den))
  {
    var n, p := |amostras|, Percentil(Sort(amostras), num, den);
    ProductMonotone(num, den, n);
    ProductMonotone(1, num, n);
    CeilInRange(num * n, n, den);
    SampleHasRank(amostras, p, Rank(n, num, den));
    CeilIs(num * n, den, AtMost(amostras, p), AtMost(amostras, p - 1));
  }

  /** There is only one such sample. */
  lemma PercentileIsOne(amostras: seq<int>, num: nat, den: nat, p: int, q: int)
    requires IsPercentile(amostras, num, den, p) && IsPercentile(amostras, num, den, q)
    ensures p == q
  {
    if p < q {
      AtMostGrows(amostras, p, q - 1);
      ProductMonotone(AtMost(amostras, p), AtMost(amostras, q - 1), den);
    } else if q < p {
      AtMostGrows(amostras, q, p - 1);
      ProductMonotone(AtMost(amostras, q), AtMost(amostras, p - 1), den);
    }
  }

  lemma {:induction false} AtMostGrows(s: seq<int>, x: int, y: int)
    requires x <= y
    ensures AtMost(s, x) <= AtMost(s, y)
  {
    if s != [] {
      AtMostGrows(s[1..], x, y);
    }
  }

  lemma LastIsLargest(amostras: seq<int>, s: seq<int>, x: int)
    requires x in amostras && s == Sort(amostras)
    ensures x <= s[|s| - 1]
  {
    SortAscends(amostras);
    SortHas(amostras, x);
    var i :| 0 <= i < |s| && s[i] == x;
  }

  /** p50 <= p95 <= max, and the last sample of the sorted list is the maximum. */
  lemma PercentilesAscend(amostras: seq<int>)
    requires amostras != []
    ensures var s := Sort(amostras);
      && Percentil(s, 1, 2) <= Percentil(s, 19, 20) <= s[|s| - 1]
      && forall x :: x in amostras ==> x <= s[|s| - 1]
  {
    SortAscends(amostras);
    var s := Sort(amostras);
    forall x | x in amostras ensures x <= s[|s| - 1] {
      LastIsLargest(amostras, s, x);
    }
  }
}

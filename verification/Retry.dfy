/**
 * One specification for the gateway's four hand-written retry loops: post until the first success
 * or until `n` attempts are used up, sleeping `base * 2^k` after the failure number k+1.
 */
module Retry {
  import opened Common

  /** What one HTTP attempt gives; `outcome(k)` is what attempt number k (from 1) would give. */
  datatype Attempt<+E> = Succeeds | Fails(error: E)

  function Pow2(k: nat): nat
  {
    if k == 0 then 1 else 2 * Pow2(k - 1)
  }

  /** The first `k` waits of the exponential backoff. */
  function Backoff(base: int, k: nat): (waits: seq<int>)
    ensures |waits| == k
  {
    seq(k, (i: nat) => base * Pow2(i))
  }

  /** `n` copies of one post. */
  function Times<T>(x: T, n: nat): (r: seq<T>)
    ensures |r| == n
  {
    seq(n, _ => x)
  }

  lemma TimesNext<T>(x: T, n: nat)
    ensures Times(x, n + 1) == Times(x, n) + [x]
  {
  }

  /** The result of a whole loop: how often it posted, how long it slept, whether it delivered. */
  datatype Trace = Trace(posts: nat, sleeps: seq<int>, delivered: bool)

  ghost predicate RetrySpec<E>(outcome: nat -> Attempt<E>, n: int, base: int, t: Trace)
  {
    && t.sleeps == Backoff(base, if t.posts == 0 then 0 else t.posts - 1)
    && (n < 1 ==> t.posts == 0 && !t.delivered)
    && (n >= 1 ==>
          && 1 <= t.posts <= n
          && (forall k: nat :: 1 <= k < t.posts ==> outcome(k).Fails?)
          && (t.delivered <==> outcome(t.posts).Succeeds?)
          && (!t.delivered ==> t.posts == n))
  }

  /** The specification leaves nothing open: outcomes, attempts and base fix the whole trace. */
  lemma RetrySpecDetermines<E>(outcome: nat -> Attempt<E>, n: int, base: int, t: Trace, u: Trace)
    requires RetrySpec(outcome, n, base, t) && RetrySpec(outcome, n, base, u)
    ensures t == u
  {
    assert n >= 1 && t.posts < u.posts ==> outcome(t.posts).Fails?;
    assert n >= 1 && u.posts < t.posts ==> outcome(u.posts).Fails?;
  }

  /** A loop fails for good exactly when every one of its attempts fails. */
  lemma TerminalFailure<E>(outcome: nat -> Attempt<E>, n: int, base: int, t: Trace)
    requires RetrySpec(outcome, n, base, t)
    ensures !t.delivered <==> forall k: nat :: 1 <= k <= n ==> outcome(k).Fails?
  {
    if n >= 1 && !t.delivered {
      forall k: nat | 1 <= k <= n ensures outcome(k).Fails? {
        assert k < t.posts || k == t.posts;
      }
    }
  }

  lemma {:induction false} BackoffTotal(base: int, k: nat)
    ensures Sum(Backoff(base, k)) == base * (Pow2(k) - 1)
  {
    if k > 0 {
      BackoffTotal(base, k - 1);
      assert Backoff(base, k) == Backoff(base, k - 1) + [base * Pow2(k - 1)];
      SumAppend(Backoff(base, k - 1), base * Pow2(k - 1));
    }
  }

  /** The whole wait of a loop that posted at least once. */
  lemma TotalWait<E>(outcome: nat -> Attempt<E>, n: int, base: int, t: Trace)
    requires RetrySpec(outcome, n, base, t) && n >= 1
    ensures |t.sleeps| == t.posts - 1
    ensures Sum(t.sleeps) == base * (Pow2(t.posts - 1) - 1)
  {
    BackoffTotal(base, t.posts - 1);
  }

  /** The next wait after `k` of them, in the form the loops compute it. */
  lemma BackoffNext(base: int, k: nat)
    ensures Backoff(base, k + 1) == Backoff(base, k) + [base * Pow2(k)]
  {
  }
}

/** Two facts about sequence concatenation, stated once so that proofs can name the step they take. */
module SeqFacts {

  /** Concatenation is associative. */
  lemma ConcatAssoc<T>(a: seq<T>, b: seq<T>, c: seq<T>)
    ensures (a + b) + c == a + (b + c)
  {
  }

  /** A concatenation splits back into its two halves. */
  lemma ConcatHalves<T>(a: seq<T>, b: seq<T>)
    ensures (a + b)[..|a|] == a && (a + b)[|a|..] == b
  {
  }

  /** A prefix of `b` is a prefix of `b` extended by `c`. */
  lemma PrefixExtends<T>(a: seq<T>, b: seq<T>, c: seq<T>)
    requires a <= b
    ensures a <= b + c
  {
    assert (b + c)[..|b|] == b;
  }

  /** An element of a prefix is the element at the same place of the whole. */
  lemma PrefixAt<T>(a: seq<T>, b: seq<T>, i: nat)
    requires a <= b && i < |a|
    ensures i < |b| && b[i] == a[i]
  {
  }

  /** `[f(x) for x in xs[:n]]`, built one element at a time. */
  function MapPrefix<A, B>(f: A -> B, xs: seq<A>, n: nat): seq<B>
    requires n <= |xs|
  {
    if n == 0 then [] else MapPrefix(f, xs, n - 1) + [f(xs[n - 1])]
  }

  /** The `k`-th element of the mapped prefix is `f` of the `k`-th element. */
  lemma {:induction false} MapPrefixAt<A, B>(f: A -> B, xs: seq<A>, n: nat)
    requires n <= |xs|
    ensures |MapPrefix(f, xs, n)| == n
    ensures forall k | 0 <= k < n :: MapPrefix(f, xs, n)[k] == f(xs[k])
  {
    if n > 0 {
      MapPrefixAt(f, xs, n - 1);
    }
  }

  /** `[x for x in xs[:n] if keep(x)]`, built one element at a time. */
  function FilterPrefix<T>(keep: T -> bool, xs: seq<T>, n: nat): seq<T>
    requires n <= |xs|
  {
    if n == 0 then [] else FilterPrefix(keep, xs, n - 1) + (if keep(xs[n - 1]) then [xs[n - 1]] else [])
  }

  /** Filtering by a test and by its negation splits the prefix: each element lands on exactly one side. */
  lemma {:induction false} FilterPartition<T>(keep: T -> bool, drop: T -> bool, xs: seq<T>, n: nat)
    requires n <= |xs|
    requires forall x :: drop(x) == !keep(x)
    ensures multiset(FilterPrefix(keep, xs, n)) + multiset(FilterPrefix(drop, xs, n)) == multiset(xs[..n])
  {
    if n > 0 {
      FilterPartition(keep, drop, xs, n - 1);
      assert xs[..n] == xs[..n - 1] + [xs[n - 1]];
    }
  }
}

/** Sequences without repetitions, and sequences that hold the same elements in another order. */
module Rearranged {
  /** No two elements are the same. */
  predicate Distinct<T(==)>(xs: seq<T>) {
    forall i, j :: 0 <= i < j < |xs| ==> xs[i] != xs[j]
  }

  /** No two elements have the same key. */
  ghost predicate DistinctBy<T, K>(key: T -> K, xs: seq<T>) {
    forall i, j :: 0 <= i < j < |xs| ==> key(xs[i]) != key(xs[j])
  }

  lemma Members<T>(xs: seq<T>, ys: seq<T>, x: T)
    requires multiset(xs) == multiset(ys)
    ensures x in xs <==> x in ys
  {
    assert x in xs <==> x in multiset(xs);
    assert x in ys <==> x in multiset(ys);
  }

  lemma CountTwo<T>(xs: seq<T>, i: nat, j: nat)
    requires i < j < |xs| && xs[i] == xs[j]
    ensures multiset(xs)[xs[i]] >= 2
  {
    assert xs == xs[..j] + [xs[j]] + xs[j + 1..];
    assert xs[..j][i] in multiset(xs[..j]);
  }

  lemma {:induction false} CountOne<T, K>(key: T -> K, xs: seq<T>, x: T)
    requires DistinctBy(key, xs)
    ensures multiset(xs)[x] <= 1
    decreases |xs|
  {
    if xs != [] {
      var n := |xs| - 1;
      CountOne(key, xs[..n], x);
      assert xs == xs[..n] + [xs[n]];
      assert xs[n] !in xs[..n];
      assert xs[n] !in multiset(xs[..n]);
    }
  }

  lemma DifferentElsewhere<T, K>(key: T -> K, xs: seq<T>, ys: seq<T>, i: nat, j: nat)
    requires DistinctBy(key, xs) && multiset(xs) == multiset(ys) && i < j < |ys|
    ensures key(ys[i]) != key(ys[j])
  {
    assert ys[i] in ys && ys[j] in ys;
    Members(xs, ys, ys[i]);
    Members(xs, ys, ys[j]);
    var a :| 0 <= a < |xs| && xs[a] == ys[i];
    var b :| 0 <= b < |xs| && xs[b] == ys[j];
    CountOne(key, xs, ys[i]);
    if ys[i] == ys[j] { CountTwo(ys, i, j); }
  }

  /** Rearranging keeps keys distinct. */
  lemma DistinctStays<T, K>(key: T -> K, xs: seq<T>, ys: seq<T>)
    requires DistinctBy(key, xs) && multiset(xs) == multiset(ys)
    ensures DistinctBy(key, ys)
  {
    forall i, j | 0 <= i < j < |ys| ensures key(ys[i]) != key(ys[j]) {
      DifferentElsewhere(key, xs, ys, i, j);
    }
  }
}

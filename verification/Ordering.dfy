/** The stable sort that Python's sorted and list.sort perform. */
module Ordering {
  import opened Prelude

  ghost predicate IsSorted<T>(xs: seq<T>, key: T -> real) {
    forall i, j :: 0 <= i < j < |xs| ==> key(xs[i]) <= key(xs[j])
  }

  function Insert<T>(sorted: seq<T>, x: T, key: T -> real): (r: seq<T>)
    ensures multiset(r) == multiset(sorted) + multiset{x}
  {
    var n := |sorted|;
    if n == 0 || key(sorted[n - 1]) <= key(x) then
      sorted + [x]
    else
      assert sorted == sorted[..n - 1] + [sorted[n - 1]];
      Insert(sorted[..n - 1], x, key) + [sorted[n - 1]]
  }

  lemma {:induction false} InsertKeepsSorted<T>(sorted: seq<T>, x: T, key: T -> real)
    requires IsSorted(sorted, key)
    ensures IsSorted(Insert(sorted, x, key), key)
  {
    var n := |sorted|;
    if n > 0 && key(x) < key(sorted[n - 1]) {
      var front, last := sorted[..n - 1], sorted[n - 1];
      var r := Insert(front, x, key);
      InsertKeepsSorted(front, x, key);
      forall i | 0 <= i < |r| ensures key(r[i]) <= key(last) {
        assert r[i] in multiset(r);
        assert r[i] in multiset(front) || r[i] == x;
      }
    }
  }

  /** Elements in nondecreasing key order; equal keys keep their order. */
  function SortBy<T>(xs: seq<T>, key: T -> real): (sorted: seq<T>)
    ensures multiset(sorted) == multiset(xs)
    ensures |sorted| == |xs|
    ensures IsSorted(sorted, key)
  {
    if xs == [] then []
    else
      var n := |xs| - 1;
      assert xs == xs[..n] + [xs[n]];
      var front := SortBy(xs[..n], key);
      var sorted := Insert(front, xs[n], key);
      InsertKeepsSorted(front, xs[n], key);
      assert |multiset(sorted)| == |multiset(xs)|;
      sorted
  }

  lemma SameElements<T>(xs: seq<T>, ys: seq<T>)
    requires multiset(xs) == multiset(ys)
    ensures forall x :: x in xs <==> x in ys
  {
    forall x ensures x in xs <==> x in ys {
      assert x in xs <==> x in multiset(xs);
      assert x in ys <==> x in multiset(ys);
    }
  }

  ghost predicate Distinct<T>(xs: seq<T>) {
    forall i, j :: 0 <= i < j < |xs| ==> xs[i] != xs[j]
  }

  lemma {:induction false} OccursAtMostOnce<T>(xs: seq<T>, x: T)
    requires Distinct(xs)
    ensures multiset(xs)[x] <= 1
  {
    if xs != [] {
      var n := |xs| - 1;
      OccursAtMostOnce(xs[..n], x);
      assert xs == xs[..n] + [xs[n]];
      if x == xs[n] {
        assert x !in xs[..n];
      }
    }
  }

  lemma OccursTwice<T>(xs: seq<T>, i: nat, j: nat)
    requires i < j < |xs| && xs[i] == xs[j]
    ensures multiset(xs)[xs[i]] >= 2
  {
    assert xs == xs[..j] + [xs[j]] + xs[j + 1..];
    assert xs[..j][i] == xs[i];
    assert xs[i] in multiset(xs[..j]);
  }

  /** Rearranging a list without repeats leaves it without repeats. */
  lemma DistinctRearranged<T>(xs: seq<T>, ys: seq<T>)
    requires multiset(xs) == multiset(ys) && Distinct(ys)
    ensures Distinct(xs)
  {
    forall i, j | 0 <= i < j < |xs| && xs[i] == xs[j] ensures false {
      OccursTwice(xs, i, j);
      OccursAtMostOnce(ys, xs[i]);
    }
  }

  function Indices(n: nat): (indices: seq<nat>)
    ensures |indices| == n && forall i :: 0 <= i < n ==> indices[i] == i
  {
    seq(n, (i: nat) => i)
  }

  function Map<T, U>(xs: seq<T>, f: T -> U): (ys: seq<U>)
    ensures |ys| == |xs| && forall i :: 0 <= i < |xs| ==> ys[i] == f(xs[i])
  {
    seq(|xs|, i requires 0 <= i < |xs| => f(xs[i]))
  }

  lemma MapConcat<T, U>(xs: seq<T>, ys: seq<T>, f: T -> U)
    ensures Map(xs + ys, f) == Map(xs, f) + Map(ys, f)
  {
  }

  /** Mapping a rearranged list rearranges the mapped list. */
  lemma {:induction false} MapRearranged<T, U>(xs: seq<T>, ys: seq<T>, f: T -> U)
    requires multiset(xs) == multiset(ys)
    ensures multiset(Map(xs, f)) == multiset(Map(ys, f))
  {
    hide Map;
    assert |multiset(xs)| == |xs| && |multiset(ys)| == |ys|;
    if xs != [] {
      assert xs[0] in multiset(ys);
      var i :| 0 <= i < |ys| && ys[i] == xs[0];
      RemoveFront(xs, ys, i);
      var head, left, right := [xs[0]], ys[..i], ys[i + 1..];
      MapRearranged(xs[1..], left + right, f);
      assert xs == head + xs[1..] && ys == left + (head + right);
      MapConcat(head, xs[1..], f);
      MapConcat(left, right, f);
      MapConcat(head, right, f);
      MapConcat(left, head + right, f);
    } else {
      assert ys == [];
    }
  }

  /** keys.__getitem__, the sort key for positions. */
  function KeyAt(keys: seq<real>): nat -> real {
    (i: nat) => if i < |keys| then keys[i] else 0.0
  }

  /** The positions of the keys, sorted by key. */
  function ArgSort(keys: seq<real>): (order: seq<nat>)
    ensures |order| == |keys|
  {
    SortBy(Indices(|keys|), KeyAt(keys))
  }

  lemma ArgSortVisitsEachOnce(keys: seq<real>)
    ensures Distinct(ArgSort(keys))
    ensures forall i: nat :: i in ArgSort(keys) <==> i < |keys|
  {
    var indices := Indices(|keys|);
    SameElements(ArgSort(keys), indices);
    DistinctRearranged(ArgSort(keys), indices);
    forall i: nat ensures i in ArgSort(keys) <==> i < |keys| {
      assert i in ArgSort(keys) <==> i in indices;
      if i < |keys| {
        assert indices[i] == i;
      }
    }
  }

  /** The keys in the order of ArgSort: the same keys, nondecreasing. */
  function SortedKeys(keys: seq<real>): seq<real> {
    Map(ArgSort(keys), KeyAt(keys))
  }

  lemma SortedKeysFacts(keys: seq<real>)
    ensures multiset(SortedKeys(keys)) == multiset(keys)
    ensures Increasing(SortedKeys(keys))
  {
    MapRearranged(ArgSort(keys), Indices(|keys|), KeyAt(keys));
    assert Map(Indices(|keys|), KeyAt(keys)) == keys;
  }

  ghost predicate Increasing(xs: seq<real>) {
    forall i, j :: 0 <= i < j < |xs| ==> xs[i] <= xs[j]
  }
}

/** Values, sums and counting facts shared by every component of the model. */
module Prelude {

  datatype Option<+T> = None | Some(value: T)

  /** The two delivery modes every experiment compares. */
  datatype Qos = Reliable | BestEffort

  /** A floating-point value as the analysis scripts see it: finite or not. */
  datatype Number = NaN | Finite(value: real)

  function Abs(x: real): real {
    if x < 0.0 then -x else x
  }

  function Min(x: real, y: real): real {
    if x <= y then x else y
  }

  function Max(x: real, y: real): real {
    if x < y then y else x
  }

  function Pow2(n: nat): (p: nat)
    ensures p >= 1
  {
    if n == 0 then 1 else 2 * Pow2(n - 1)
  }

  // ---------- sums ----------

  function Sum(xs: seq<real>): real {
    if xs == [] then 0.0 else xs[0] + Sum(xs[1..])
  }

  function Mean(xs: seq<real>): real
    requires xs != []
  {
    Sum(xs) / (|xs| as real)
  }

  lemma {:induction false} SumConcat(xs: seq<real>, ys: seq<real>)
    ensures Sum(xs + ys) == Sum(xs) + Sum(ys)
  {
    if xs == [] {
      assert xs + ys == ys;
    } else {
      assert (xs + ys)[1..] == xs[1..] + ys;
      SumConcat(xs[1..], ys);
    }
  }

  lemma {:induction false} SumSnoc(xs: seq<real>, x: real)
    ensures Sum(xs + [x]) == Sum(xs) + x
  {
    SumConcat(xs, [x]);
  }

  /** A sum does not depend on the order of its terms. */
  lemma {:induction false} SumOfMultiset(xs: seq<real>, ys: seq<real>)
    requires multiset(xs) == multiset(ys)
    ensures Sum(xs) == Sum(ys) && |xs| == |ys|
  {
    assert |multiset(xs)| == |xs| && |multiset(ys)| == |ys|;
    if xs != [] {
      assert xs[0] in multiset(ys);
      var i :| 0 <= i < |ys| && ys[i] == xs[0];
      RemoveFront(xs, ys, i);
      SumOfMultiset(xs[1..], ys[..i] + ys[i + 1..]);
      SumConcat(ys[..i], ys[i + 1..]);
      assert ys == ys[..i] + ([ys[i]] + ys[i + 1..]);
      SumConcat(ys[..i], [ys[i]] + ys[i + 1..]);
    }
  }

  lemma RemoveFront<T>(xs: seq<T>, ys: seq<T>, i: nat)
    requires multiset(xs) == multiset(ys) && xs != []
    requires i < |ys| && ys[i] == xs[0]
    ensures multiset(xs[1..]) == multiset(ys[..i] + ys[i + 1..])
  {
    assert xs == [xs[0]] + xs[1..];
    assert ys == ys[..i] + [ys[i]] + ys[i + 1..];
    assert multiset(xs) == multiset{xs[0]} + multiset(xs[1..]);
    assert multiset(ys) == multiset{ys[i]} + multiset(ys[..i] + ys[i + 1..]);
    assert multiset(xs[1..]) == multiset(xs) - multiset{xs[0]};
  }

  // ---------- states written one after another ----------

  /** The last state written, or the state before when nothing was. */
  function LastOf<T>(written: seq<T>, before: T): T {
    if written == [] then before else written[|written| - 1]
  }

  lemma LastOfTwo<T>(first: seq<T>, second: seq<T>, before: T)
    ensures LastOf(first + second, before) == LastOf(second, LastOf(first, before))
  {
  }

  lemma LastOfOne<T>(x: T, before: T)
    ensures LastOf([x], before) == x && LastOf([], before) == before
  {
  }

  lemma Appended<T>(before: seq<T>, first: seq<T>, second: seq<T>)
    ensures before + first + second == before + (first + second)
    ensures before + [] == before
  {
  }

  /** What a process killed after `survives` of its writes leaves behind. */
  function CutOff<T>(before: T, written: seq<T>, survives: nat): T {
    if survives >= |written| then LastOf(written, before) else if survives == 0 then before else written[survives - 1]
  }

  // ---------- filters ----------

  function Filter<T>(xs: seq<T>, p: T -> bool): (ys: seq<T>)
    ensures forall y | y in ys :: y in xs && p(y)
    ensures forall x | x in xs :: p(x) ==> x in ys
  {
    if xs == [] then []
    else (if p(xs[0]) then [xs[0]] else []) + Filter(xs[1..], p)
  }

  lemma {:induction false} FilterHead<T>(xs: seq<T>, p: T -> bool)
    requires xs != []
    ensures Filter(xs, p) == (if p(xs[0]) then [xs[0]] else []) + Filter(xs[1..], p)
  {
  }

  lemma {:induction false} FilterConcat<T>(xs: seq<T>, ys: seq<T>, p: T -> bool)
    ensures Filter(xs + ys, p) == Filter(xs, p) + Filter(ys, p)
  {
    if xs == [] {
      assert xs + ys == ys;
    } else {
      assert (xs + ys)[1..] == xs[1..] + ys;
      FilterConcat(xs[1..], ys, p);
    }
  }

  lemma {:induction false} FilterSnoc<T>(xs: seq<T>, x: T, p: T -> bool)
    ensures Filter(xs + [x], p) == Filter(xs, p) + if p(x) then [x] else []
  {
    FilterConcat(xs, [x], p);
  }

  // ---------- counting ----------

  function Below(n: nat): (s: set<nat>)
    ensures forall i: nat :: i in s <==> i < n
  {
    if n == 0 then {} else Below(n - 1) + {n - 1}
  }

  lemma {:induction false} CountBelow(n: nat)
    ensures |Below(n)| == n
  {
    if n > 0 {
      CountBelow(n - 1);
    }
  }

  lemma {:induction false} CountSubset<T>(a: set<T>, b: set<T>)
    requires a <= b
    ensures |a| <= |b|
  {
    assert b == a + (b - a);
  }

  /** An injective map into b shows that b is at least as large. */
  lemma {:induction false} CountInjection<A, B>(a: set<A>, b: set<B>, f: A -> B)
    requires forall x :: x in a ==> f(x) in b
    requires forall x, y :: x in a && y in a && f(x) == f(y) ==> x == y
    ensures |a| <= |b|
  {
    if a != {} {
      var x :| x in a;
      CountInjection(a - {x}, b - {f(x)}, f);
    }
  }

  /** How many of the values reach the bar. */
  function CountAtLeast(values: seq<real>, bar: real): nat {
    if values == [] then 0
    else CountAtLeast(values[..|values| - 1], bar) + if values[|values| - 1] >= bar then 1 else 0
  }

  ghost function Positions(values: seq<real>, bar: real): set<nat> {
    set j: nat | j < |values| && values[j] >= bar
  }

  lemma {:induction false} CountAtLeastIsCount(values: seq<real>, bar: real)
    ensures CountAtLeast(values, bar) == |Positions(values, bar)|
  {
    if values != [] {
      var n := |values| - 1;
      CountAtLeastIsCount(values[..n], bar);
      assert Positions(values, bar) == Positions(values[..n], bar) + if values[n] >= bar then {n} else {};
    }
  }

  lemma {:induction false} CountAtLeastConcat(xs: seq<real>, ys: seq<real>, bar: real)
    ensures CountAtLeast(xs + ys, bar) == CountAtLeast(xs, bar) + CountAtLeast(ys, bar)
  {
    if ys == [] {
      assert xs + ys == xs;
    } else {
      var n := |ys| - 1;
      assert (xs + ys)[..|xs| + n] == xs + ys[..n];
      CountAtLeastConcat(xs, ys[..n], bar);
    }
  }

  lemma {:induction false} CountAtLeastOfMultiset(xs: seq<real>, ys: seq<real>, bar: real)
    requires multiset(xs) == multiset(ys)
    ensures CountAtLeast(xs, bar) == CountAtLeast(ys, bar)
  {
    assert |multiset(xs)| == |xs| && |multiset(ys)| == |ys|;
    if xs != [] {
      assert xs[0] in multiset(ys);
      var i :| 0 <= i < |ys| && ys[i] == xs[0];
      RemoveFront(xs, ys, i);
      CountAtLeastOfMultiset(xs[1..], ys[..i] + ys[i + 1..], bar);
      assert xs == [xs[0]] + xs[1..] && ys == ys[..i] + ([ys[i]] + ys[i + 1..]);
      CountAtLeastConcat([xs[0]], xs[1..], bar);
      CountAtLeastConcat(ys[..i], ys[i + 1..], bar);
      CountAtLeastConcat(ys[..i], [ys[i]] + ys[i + 1..], bar);
      CountAtLeastConcat([ys[i]], ys[i + 1..], bar);
    }
  }
}

/** Holm's step-down adjustment of p-values, and what it promises. */
module Holm {
  import opened Prelude
  import opened Ordering
  import opened SignFlip

  // ---------- the adjustment without a sort ----------

  function Times(n: int, x: real): real {
    n as real * x
  }

  /** A p-value times the number of p-values at least as large. */
  function Scaled(p: seq<real>, x: real): real {
    Times(CountAtLeast(p, x), x)
  }

  /** The largest scaled p-value among those up to x, and at least zero. */
  function Running(p: seq<real>, x: real, among: seq<real>): real {
    if among == [] then 0.0
    else
      var rest := Running(p, x, among[1..]);
      if among[0] <= x then Max(rest, Scaled(p, among[0])) else rest
  }

  function AdjustedValue(p: seq<real>, x: real): real {
    Min(1.0, Running(p, x, p))
  }

  function Adjusted(p: seq<real>, i: nat): real
    requires i < |p|
  {
    AdjustedValue(p, p[i])
  }

  lemma {:induction false} RunningBounds(p: seq<real>, x: real, among: seq<real>, y: real)
    requires y in among && y <= x
    ensures Scaled(p, y) <= Running(p, x, among)
  {
    hide Times, CountAtLeast;
    if y != among[0] {
      RunningBounds(p, x, among[1..], y);
    }
  }

  lemma {:induction false} RunningIsLeast(p: seq<real>, x: real, among: seq<real>, bound: real)
    requires 0.0 <= bound
    requires forall y :: y in among && y <= x ==> Scaled(p, y) <= bound
    ensures 0.0 <= Running(p, x, among) <= bound
  {
    hide Times, CountAtLeast;
    if among != [] {
      assert among[0] in among;
      RunningIsLeast(p, x, among[1..], bound);
    }
  }

  lemma {:induction false} RunningNonnegative(p: seq<real>, x: real, among: seq<real>)
    ensures 0.0 <= Running(p, x, among)
  {
    if among != [] {
      RunningNonnegative(p, x, among[1..]);
    }
  }

  // ---------- the running maximum over ranks ----------

  /** The running maximum after the first ranks of the sorted p-values. */
  function RankMax(sorted: seq<real>, ranks: nat): (m: real)
    requires ranks <= |sorted|
    ensures m >= 0.0
  {
    if ranks == 0 then 0.0
    else Max(RankMax(sorted, ranks - 1), Times(|sorted| - (ranks - 1), sorted[ranks - 1]))
  }

  lemma {:induction false} RankMaxBounds(sorted: seq<real>, ranks: nat, rank: nat)
    requires rank < ranks <= |sorted|
    ensures Times(|sorted| - rank, sorted[rank]) <= RankMax(sorted, ranks)
  {
    hide Times, CountAtLeast;
    if rank < ranks - 1 {
      RankMaxBounds(sorted, ranks - 1, rank);
    }
  }

  lemma {:induction false} RankMaxIsLeast(sorted: seq<real>, ranks: nat, bound: real)
    requires ranks <= |sorted| && 0.0 <= bound
    requires forall rank :: 0 <= rank < ranks ==> Times(|sorted| - rank, sorted[rank]) <= bound
    ensures RankMax(sorted, ranks) <= bound
  {
    hide Times, CountAtLeast;
    if ranks > 0 {
      RankMaxIsLeast(sorted, ranks - 1, bound);
    }
  }

  lemma Scale(a: int, b: int, x: real, bound: real)
    requires 0 <= a <= b && 0.0 <= bound && Times(b, x) <= bound
    ensures Times(a, x) <= bound
  {
  }

  lemma {:induction false} CountFromRank(sorted: seq<real>, rank: nat)
    requires Increasing(sorted) && rank < |sorted|
    ensures CountAtLeast(sorted, sorted[rank]) >= |sorted| - rank
    ensures (rank > 0 ==> sorted[rank - 1] < sorted[rank]) ==>
      CountAtLeast(sorted, sorted[rank]) == |sorted| - rank
  {
    var low, high := sorted[..rank], sorted[rank..];
    assert sorted == low + high;
    CountAtLeastConcat(low, high, sorted[rank]);
    CountAll(high, sorted[rank]);
    if rank > 0 && sorted[rank - 1] < sorted[rank] {
      CountNone(low, sorted[rank]);
    }
  }

  lemma {:induction false} CountAll(xs: seq<real>, bar: real)
    requires forall i :: 0 <= i < |xs| ==> xs[i] >= bar
    ensures CountAtLeast(xs, bar) == |xs|
  {
    if xs != [] {
      CountAll(xs[..|xs| - 1], bar);
    }
  }

  lemma {:induction false} CountNone(xs: seq<real>, bar: real)
    requires forall i :: 0 <= i < |xs| ==> xs[i] < bar
    ensures CountAtLeast(xs, bar) == 0
  {
    if xs != [] {
      CountNone(xs[..|xs| - 1], bar);
    }
  }

  /** The first rank that holds the value at a given rank. */
  function FirstRank(sorted: seq<real>, rank: nat): (first: nat)
    requires Increasing(sorted) && rank < |sorted|
    ensures first <= rank && sorted[first] == sorted[rank]
    ensures first > 0 ==> sorted[first - 1] < sorted[first]
  {
    if rank > 0 && sorted[rank - 1] == sorted[rank] then FirstRank(sorted, rank - 1) else rank
  }

  /** The running maximum of the loop is the order-free value, also inside a tie. */
  lemma {:induction false} RankMaxIsRunning(p: seq<real>, sorted: seq<real>, rank: nat)
    requires multiset(sorted) == multiset(p) && Increasing(sorted) && rank < |sorted|
    ensures RankMax(sorted, rank + 1) == Running(p, sorted[rank], p)
  {
    hide Times, CountAtLeast, Running, RankMax, Scaled;
    var x := sorted[rank];
    SameElements(sorted, p);
    var running, ranked := Running(p, x, p), RankMax(sorted, rank + 1);
    RunningNonnegative(p, x, p);
    forall r | 0 <= r <= rank ensures Times(|sorted| - r, sorted[r]) <= running {
      assert sorted[r] in sorted;
      RankIsBounded(p, sorted, r, x);
    }
    RankMaxIsLeast(sorted, rank + 1, running);
    forall y | y in p && y <= x ensures Scaled(p, y) <= ranked {
      assert y in sorted;
      ValueIsBounded(p, sorted, rank, y);
    }
    RunningIsLeast(p, x, p, ranked);
  }

  lemma {:induction false} RankIsBounded(p: seq<real>, sorted: seq<real>, r: nat, x: real)
    requires multiset(sorted) == multiset(p) && Increasing(sorted) && r < |sorted|
    requires sorted[r] in p && sorted[r] <= x
    ensures Times(|sorted| - r, sorted[r]) <= Running(p, x, p)
  {
    hide Times, Running, CountAtLeast;
    CountFromRank(sorted, r);
    CountAtLeastOfMultiset(sorted, p, sorted[r]);
    RunningBounds(p, x, p, sorted[r]);
    RunningNonnegative(p, x, p);
    Scale(|sorted| - r, CountAtLeast(p, sorted[r]), sorted[r], Running(p, x, p));
  }

  lemma {:induction false} ValueIsBounded(p: seq<real>, sorted: seq<real>, rank: nat, y: real)
    requires multiset(sorted) == multiset(p) && Increasing(sorted) && rank < |sorted|
    requires y in sorted && y <= sorted[rank]
    ensures Scaled(p, y) <= RankMax(sorted, rank + 1)
  {
    hide Times, Running, RankMax, CountAtLeast;
    var at: nat :| at < |sorted| && sorted[at] == y;
    var first := FirstRank(sorted, if at <= rank then at else rank);
    assert sorted[first] == y;
    CountFromRank(sorted, first);
    CountAtLeastOfMultiset(sorted, p, y);
    RankMaxBounds(sorted, rank + 1, first);
  }

  // ---------- the two implementations ----------

  /** Adjust every p-value, writing each result at its original position. */
  method HolmAdjust(p: seq<real>) returns (adjusted: seq<real>)
    ensures |adjusted| == |p|
    ensures forall i :: 0 <= i < |p| ==> adjusted[i] == Adjusted(p, i)
  {
    hide Times, Running, Distinct, SortBy, ArgSort, CountAtLeast;
    var order := ArgSort(p);
    ghost var sorted := SortedKeys(p);
    ArgSortVisitsEachOnce(p);
    SortedKeysFacts(p);
    adjusted := seq(|p|, _ => 0.0);
    var running := 0.0;
    var total := |p|;
    for rank := 0 to |order|
      invariant |adjusted| == |p|
      invariant running == RankMax(sorted, rank)
      invariant forall r :: 0 <= r < rank ==> order[r] < |p| && adjusted[order[r]] == Adjusted(p, order[r])
    {
      var index := order[rank];
      assert index in order;
      running := Max(running, Times(total - rank, p[index]));
      RankMaxIsRunning(p, sorted, rank);
      adjusted := adjusted[index := Min(1.0, running)];
    }
    forall i: nat | i < |p| ensures adjusted[i] == Adjusted(p, i) {
      assert i in order;
    }
  }

  /** The finite entries with their positions. */
  function FiniteEntries(p: seq<Number>): seq<(nat, real)> {
    if p == [] then []
    else
      var n := |p| - 1;
      FiniteEntries(p[..n]) + if p[n].Finite? then [(n as nat, p[n].value)] else []
  }

  function Position(entry: (nat, real)): nat {
    entry.0
  }

  function Value(entry: (nat, real)): real {
    entry.1
  }

  lemma {:induction false} FiniteEntryPositions(p: seq<Number>)
    ensures forall i: nat, v: real :: (i, v) in FiniteEntries(p) <==> i < |p| && p[i] == Finite(v)
    ensures Distinct(Map(FiniteEntries(p), Position))
  {
    if p != [] {
      var n: nat := |p| - 1;
      var front := FiniteEntries(p[..n]);
      FiniteEntryPositions(p[..n]);
      forall r | 0 <= r < |front| ensures Position(front[r]) < n {
        var (i, v) := front[r];
        assert front[r] in front;
        assert (i, v) in FiniteEntries(p[..n]);
      }
    }
  }

  lemma {:induction false} FiniteEntryValues(p: seq<Number>)
    ensures Map(FiniteEntries(p), Value) == FiniteValues(p)
  {
    if p != [] {
      var n := |p| - 1;
      FiniteEntryValues(p[..n]);
      FiniteValuesSnoc(p[..n], p[n]);
      assert p == p[..n] + [p[n]];
    }
  }

  lemma {:induction false} FiniteValuesHead(p: seq<Number>)
    requires p != []
    ensures FiniteValues(p) == (if p[0].Finite? then [p[0].value] else []) + FiniteValues(p[1..])
    ensures FiniteValues([]) == []
  {
  }

  lemma {:induction false} FiniteValuesSnoc(p: seq<Number>, x: Number)
    ensures FiniteValues(p + [x]) == FiniteValues(p) + if x.Finite? then [x.value] else []
  {
    hide FiniteValues;
    FiniteValuesHead(p + [x]);
    if p == [] {
      assert (p + [x])[1..] == [];
    } else {
      assert (p + [x])[1..] == p[1..] + [x];
      FiniteValuesHead(p);
      FiniteValuesSnoc(p[1..], x);
    }
  }

  /** Adjust the finite p-values among themselves and leave the others not a number. */
  method HolmAdjustFinite(p: seq<Number>) returns (adjusted: seq<Number>)
    ensures |adjusted| == |p|
    ensures forall i :: 0 <= i < |p| ==> (
      adjusted[i] == if p[i].Finite? then Finite(AdjustedValue(FiniteValues(p), p[i].value)) else NaN)
  {
    hide Times, Running, SortBy, CountAtLeast, FiniteEntries, FiniteValues, Map;
    ghost var values := FiniteValues(p);
    var valid := FiniteEntries(p);
    var ordered := SortBy(valid, Value);
    ghost var sorted := Map(ordered, Value);
    OrderedEntries(p, ordered);
    adjusted := seq(|p|, _ => NaN);
    var running := 0.0;
    var total := |ordered|;
    for rank := 0 to |ordered|
      invariant |adjusted| == |p|
      invariant running == Min(1.0, RankMax(sorted, rank))
      invariant forall r :: 0 <= r < rank ==>
        adjusted[ordered[r].0] == Finite(AdjustedValue(values, ordered[r].1))
      invariant forall i :: 0 <= i < |p| && p[i] == NaN ==> adjusted[i] == NaN
    {
      var (index, v) := ordered[rank];
      running := Max(running, Min(1.0, Times(total - rank, v)));
      assert sorted[rank] == v;
      RankMaxIsRunning(values, sorted, rank);
      adjusted := adjusted[index := Finite(running)];
    }
    forall i: nat | i < |p| && p[i].Finite?
      ensures adjusted[i] == Finite(AdjustedValue(values, p[i].value))
    {
      assert (i, p[i].value) in ordered;
    }
  }

  /** Sorting the entries visits each finite position once, in the order of the values. */
  lemma {:induction false} OrderedEntries(p: seq<Number>, ordered: seq<(nat, real)>)
    requires ordered == SortBy(FiniteEntries(p), Value)
    ensures multiset(Map(ordered, Value)) == multiset(FiniteValues(p))
    ensures Increasing(Map(ordered, Value))
    ensures forall r :: 0 <= r < |ordered| ==> ordered[r].0 < |p| && p[ordered[r].0] == Finite(ordered[r].1)
    ensures forall q, r :: 0 <= q < r < |ordered| ==> ordered[q].0 != ordered[r].0
    ensures forall i: nat :: i < |p| && p[i].Finite? ==> (i, p[i].value) in ordered
  {
    hide SortBy, FiniteEntries, FiniteValues;
    var valid := FiniteEntries(p);
    FiniteEntryPositions(p);
    FiniteEntryValues(p);
    SameElements(ordered, valid);
    MapRearranged(ordered, valid, Value);
    MapRearranged(ordered, valid, Position);
    DistinctRearranged(Map(ordered, Position), Map(valid, Position));
    forall r | 0 <= r < |ordered| ensures ordered[r].0 < |p| && p[ordered[r].0] == Finite(ordered[r].1) {
      assert (ordered[r].0, ordered[r].1) in ordered;
    }
    forall q, r | 0 <= q < r < |ordered| ensures ordered[q].0 != ordered[r].0 {
      assert Map(ordered, Position)[q] != Map(ordered, Position)[r];
    }
  }

  // ---------- what the adjustment promises ----------

  /** The number of p-values at least y, times y. */
  function Bonferroni(p: seq<real>, y: real): real {
    CountAtLeast(p, y) as real * y
  }

  lemma {:induction false} RunningIsReached(p: seq<real>, x: real, among: seq<real>)
    ensures Running(p, x, among) == 0.0 ||
            exists y :: y in among && y <= x && Running(p, x, among) == Scaled(p, y)
  {
    hide Times, CountAtLeast, Scaled;
    if among != [] {
      var rest := Running(p, x, among[1..]);
      RunningIsReached(p, x, among[1..]);
      if Running(p, x, among) == rest {
        if rest != 0.0 {
          var y :| y in among[1..] && y <= x && rest == Scaled(p, y);
          assert y in among;
        }
      } else {
        assert among[0] in among;
      }
    }
  }

  /**
   * The adjusted value lies between 0 and 1 and no value up to x has a larger product; it is 1 only when some
   * product reaches 1, and otherwise the largest product itself, or 0 when there is none above it.
   */
  lemma AdjustedIs(p: seq<real>, x: real)
    ensures var a := AdjustedValue(p, x);
      && 0.0 <= a <= 1.0
      && (a == 1.0 <==> exists y :: y in p && y <= x && Bonferroni(p, y) >= 1.0)
      && (a < 1.0 ==> forall y :: y in p && y <= x ==> Bonferroni(p, y) <= a)
      && (0.0 < a < 1.0 ==> exists y :: y in p && y <= x && Bonferroni(p, y) == a)
  {
    hide CountAtLeast, Running;
    RunningNonnegative(p, x, p);
    RunningIsReached(p, x, p);
    forall y | y in p && y <= x ensures Bonferroni(p, y) == Scaled(p, y) <= Running(p, x, p) {
      RunningBounds(p, x, p, y);
    }
  }

  /** An adjusted p-value is never smaller than the p-value. */
  lemma AdjustedIsLarger(p: seq<real>, i: nat)
    requires i < |p| && 0.0 <= p[i] <= 1.0
    ensures p[i] <= Adjusted(p, i) <= 1.0
  {
    hide Running;
    RunningNonnegative(p, p[i], p);
    RunningBounds(p, p[i], p, p[i]);
    CountAtLeastIsCount(p, p[i]);
    assert i in Positions(p, p[i]);
    assert {i} <= Positions(p, p[i]);
    CountSubset({i}, Positions(p, p[i]));
    AtLeastOnce(CountAtLeast(p, p[i]), p[i]);
  }

  lemma AtLeastOnce(n: nat, x: real)
    requires n >= 1 && x >= 0.0
    ensures Times(n, x) >= x
  {
  }

  /** Smaller p-values get smaller adjusted values; ties get equal ones. */
  lemma AdjustedMonotone(p: seq<real>, x: real, y: real)
    requires x <= y
    ensures AdjustedValue(p, x) <= AdjustedValue(p, y)
  {
    hide Times, CountAtLeast, Scaled;
    forall z | z in p && z <= x ensures Scaled(p, z) <= Running(p, y, p) {
      RunningBounds(p, y, p, z);
    }
    RunningNonnegative(p, y, p);
    RunningIsLeast(p, x, p, Running(p, y, p));
  }

  /** Permuting the p-values permutes the adjusted values with them. */
  lemma AdjustedOfMultiset(p: seq<real>, q: seq<real>, x: real)
    requires multiset(p) == multiset(q)
    ensures AdjustedValue(p, x) == AdjustedValue(q, x)
  {
    RunningOfMultiset(p, q, x);
    RunningOfMultiset(q, p, x);
  }

  lemma {:induction false} RunningOfMultiset(p: seq<real>, q: seq<real>, x: real)
    requires multiset(p) == multiset(q)
    ensures Running(p, x, p) <= Running(q, x, q)
  {
    hide Times, Running, CountAtLeast;
    SameElements(p, q);
    forall y | y in p && y <= x ensures Scaled(p, y) <= Running(q, x, q) {
      assert y in q;
      CountAtLeastOfMultiset(p, q, y);
      RunningBounds(q, x, q, y);
    }
    RunningNonnegative(q, x, q);
    RunningIsLeast(p, x, p, Running(q, x, q));
  }

  /** Rejection at alpha means that every rank up to the p-value's own passes its own test. */
  lemma RejectedExactly(p: seq<real>, sorted: seq<real>, rank: nat, alpha: real)
    requires multiset(sorted) == multiset(p) && Increasing(sorted) && rank < |sorted|
    requires 0.0 <= alpha < 1.0
    ensures AdjustedValue(p, sorted[rank]) <= alpha <==>
      forall r :: 0 <= r <= rank ==> Times(|sorted| - r, sorted[r]) <= alpha
  {
    hide Times, CountAtLeast, RankMax, Running;
    RankMaxIsRunning(p, sorted, rank);
    if AdjustedValue(p, sorted[rank]) <= alpha {
      forall r | 0 <= r <= rank ensures Times(|sorted| - r, sorted[r]) <= alpha {
        RankMaxBounds(sorted, rank + 1, r);
      }
    }
    if forall r :: 0 <= r <= rank ==> Times(|sorted| - r, sorted[r]) <= alpha {
      RankMaxIsLeast(sorted, rank + 1, alpha);
    }
  }

  ghost function Smallest(p: seq<real>, indices: set<nat>): (j: nat)
    requires indices != {} && forall i :: i in indices ==> i < |p|
    ensures j in indices && forall i :: i in indices ==> p[j] <= p[i]
  {
    var i :| i in indices;
    var rest := indices - {i};
    if rest == {} then
      assert indices == {i};
      i
    else
      var j := Smallest(p, rest);
      assert indices == rest + {i};
      if p[i] <= p[j] then i else j
  }

  /**
   * The deterministic core of family-wise error control: a rejection anywhere in a family
   * of true hypotheses needs some member to pass its Bonferroni test for that family alone.
   */
  lemma FamilywiseCore(p: seq<real>, family: set<nat>, alpha: real, i: nat)
    requires forall j :: j in family ==> j < |p|
    requires i in family && Adjusted(p, i) <= alpha < 1.0
    ensures exists j :: j in family && Times(|family|, p[j]) <= alpha
  {
    hide Times, CountAtLeast, Running;
    var j := Smallest(p, family);
    RunningBounds(p, p[i], p, p[j]);
    RunningNonnegative(p, p[i], p);
    CountAtLeastIsCount(p, p[j]);
    CountSubset(family, Positions(p, p[j]));
    Scale(|family|, CountAtLeast(p, p[j]), p[j], Running(p, p[i], p));
  }
}

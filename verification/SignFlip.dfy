/** Exact sign-flip randomization tests over block effects. */
module SignFlip {
  import opened Prelude
  import opened Binary

  type Signs = seq<bool>

  // ---------- the reference definition ----------

  /** The block effects with the sign of every unmarked block reversed. */
  function Flip(effects: seq<real>, s: Signs): (flipped: seq<real>)
    requires |s| == |effects|
    ensures |flipped| == |effects|
  {
    seq(|effects|, i requires 0 <= i < |effects| => if s[i] then effects[i] else -effects[i])
  }

  function Statistic(effects: seq<real>, s: Signs): real
    requires effects != [] && |s| == |effects|
  {
    Abs(Mean(Flip(effects, s)))
  }

  /** All 2^n sign assignments. */
  function AllSigns(n: nat): (all: set<Signs>)
    ensures forall s: Signs :: s in all <==> |s| == n
  {
    if n == 0 then {[]}
    else
      var shorter := AllSigns(n - 1);
      var all := (set s | s in shorter :: [true] + s) + (set s | s in shorter :: [false] + s);
      assert forall s: Signs | |s| == n :: s in all by {
        forall s: Signs | |s| == n ensures s in all {
          assert s[1..] in shorter;
          if s[0] {
            assert s == [true] + s[1..];
          } else {
            assert s == [false] + s[1..];
          }
        }
      }
      all
  }

  predicate IsHit(effects: seq<real>, s: Signs, tolerance: real)
    requires effects != [] && |s| == |effects|
  {
    Statistic(effects, s) >= Abs(Mean(effects)) - tolerance
  }

  /** The assignments at least as extreme as the observed effects. */
  function Hits(effects: seq<real>, tolerance: real): set<Signs>
    requires effects != []
  {
    set s | s in AllSigns(|effects|) && |s| == |effects| && IsHit(effects, s, tolerance)
  }

  function PValue(effects: seq<real>, tolerance: real): real
    requires effects != []
  {
    |Hits(effects, tolerance)| as real / Pow2(|effects|) as real
  }

  // ---------- enumerating the assignments ----------

  /** The order of the mask loop: bit i of the mask is the sign of block i. */
  function MaskOrder(n: nat): (order: seq<Signs>)
    ensures |order| == Pow2(n)
  {
    seq(Pow2(n), mask requires 0 <= mask => Bits(mask, n))
  }

  /** One more coordinate of a Cartesian product, the new one varying fastest. */
  function Extend(prefixes: seq<Signs>): (order: seq<Signs>)
    ensures |order| == 2 * |prefixes|
  {
    seq(2 * |prefixes|, j requires 0 <= j < 2 * |prefixes| => prefixes[j / 2] + [j % 2 == 1])
  }

  /** The order of itertools.product over (-1, 1): the last block varies fastest. */
  function ProductOrder(n: nat): (order: seq<Signs>)
    ensures |order| == Pow2(n)
  {
    if n == 0 then [[]] else Extend(ProductOrder(n - 1))
  }

  ghost predicate Enumerates(order: seq<Signs>, n: nat) {
    && |order| == Pow2(n)
    && (forall j :: 0 <= j < |order| ==> |order[j]| == n)
    && (forall s: Signs :: |s| == n ==> s in order)
    && (forall j, k :: 0 <= j < k < |order| ==> order[j] != order[k])
  }

  lemma MaskOrderEnumerates(n: nat)
    ensures Enumerates(MaskOrder(n), n)
  {
    var order := MaskOrder(n);
    forall s: Signs | |s| == n ensures s in order {
      BitsOfValue(s);
      assert order[Value(s)] == s;
    }
    forall j, k | 0 <= j < k < |order| ensures order[j] != order[k] {
      ValueOfBits(j, n);
      ValueOfBits(k, n);
    }
  }

  lemma {:induction false} ProductOrderEnumerates(n: nat)
    ensures Enumerates(ProductOrder(n), n)
  {
    if n == 0 {
      assert ProductOrder(0) == [[]];
    } else {
      hide Extend, Enumerates;
      ProductOrderEnumerates(n - 1);
      ExtendEnumerates(ProductOrder(n - 1), n - 1);
    }
  }

  lemma ExtendEnumerates(shorter: seq<Signs>, n: nat)
    requires Enumerates(shorter, n)
    ensures Enumerates(Extend(shorter), n + 1)
  {
    var order := Extend(shorter);
    forall s: Signs | |s| == n + 1 ensures s in order {
      var front := s[..n];
      assert front in shorter;
      var i :| 0 <= i < |shorter| && shorter[i] == front;
      var j := 2 * i + if s[n] then 1 else 0;
      assert order[j] == front + [s[n]] == s;
    }
    forall j, k | 0 <= j < k < |order| ensures order[j] != order[k] {
      ExtendedParts(shorter, n, j);
      ExtendedParts(shorter, n, k);
    }
  }

  lemma ExtendedParts(shorter: seq<Signs>, n: nat, j: nat)
    requires j < 2 * |shorter| && |shorter[j / 2]| == n
    ensures Extend(shorter)[j][..n] == shorter[j / 2]
    ensures |Extend(shorter)[j]| == n + 1 && Extend(shorter)[j][n] == (j % 2 == 1)
  {
  }

  function Statistics(effects: seq<real>, order: seq<Signs>): (statistics: seq<real>)
    requires effects != [] && forall j :: 0 <= j < |order| ==> |order[j]| == |effects|
    ensures |statistics| == |order|
  {
    seq(|order|, j requires 0 <= j < |order| => Statistic(effects, order[j]))
  }

  ghost function PositionOf(order: seq<Signs>, s: Signs): (j: nat)
    ensures s in order ==> j < |order| && order[j] == s
  {
    if s in order then (var j: nat :| j < |order| && order[j] == s; j) else 0
  }

  /** Every position whose statistic reaches the bar holds a hit, and a different one. */
  lemma {:induction false} PositionsAreHits(effects: seq<real>, tolerance: real, order: seq<Signs>)
    requires effects != [] && Enumerates(order, |effects|)
    ensures var bar := Abs(Mean(effects)) - tolerance;
      |Positions(Statistics(effects, order), bar)| <= |Hits(effects, tolerance)|
  {
    hide Statistic, AllSigns, Mean;
    var bar := Abs(Mean(effects)) - tolerance;
    CountInjection(Positions(Statistics(effects, order), bar), Hits(effects, tolerance),
                   (j: nat) => if j < |order| then order[j] else []);
  }

  /** Every hit is met at some position, and different hits at different ones. */
  lemma {:induction false} HitsHavePositions(effects: seq<real>, tolerance: real, order: seq<Signs>)
    requires effects != [] && Enumerates(order, |effects|)
    ensures var bar := Abs(Mean(effects)) - tolerance;
      |Hits(effects, tolerance)| <= |Positions(Statistics(effects, order), bar)|
  {
    hide Statistic, AllSigns, Mean;
    var positions := Positions(Statistics(effects, order), Abs(Mean(effects)) - tolerance);
    forall s | s in Hits(effects, tolerance) ensures PositionOf(order, s) in positions {
      assert s in order;
    }
    CountInjection(Hits(effects, tolerance), positions, s => PositionOf(order, s));
  }

  /** Walking any enumeration of the assignments finds exactly the hits. */
  lemma {:induction false} EnumerationCountsHits(effects: seq<real>, tolerance: real, order: seq<Signs>)
    requires effects != [] && Enumerates(order, |effects|)
    ensures CountAtLeast(Statistics(effects, order), Abs(Mean(effects)) - tolerance)
         == |Hits(effects, tolerance)|
  {
    hide Statistic, AllSigns, CountAtLeast, Positions, Hits, Mean;
    CountAtLeastIsCount(Statistics(effects, order), Abs(Mean(effects)) - tolerance);
    PositionsAreHits(effects, tolerance, order);
    HitsHavePositions(effects, tolerance, order);
  }

  lemma {:induction false} AssignmentCount(n: nat)
    ensures |AllSigns(n)| == Pow2(n)
  {
    hide AllSigns;
    CountBelow(Pow2(n));
    forall mask: nat | mask < Pow2(n) ensures Value(Bits(mask, n)) == mask {
      ValueOfBits(mask, n);
    }
    CountInjection(Below(Pow2(n)), AllSigns(n), (mask: nat) => Bits(mask, n));
    forall s | s in AllSigns(n) ensures Value(s) in Below(Pow2(n)) && Bits(Value(s), n) == s {
      BitsOfValue(s);
    }
    CountInjection(AllSigns(n), Below(Pow2(n)), Value);
  }

  // ---------- exactness of the test ----------

  /** Signs applied after other signs: blocks where the two agree keep their effect. */
  function Agree(s: Signs, u: Signs): (r: Signs)
    requires |s| == |u|
    ensures |r| == |s|
  {
    seq(|s|, i requires 0 <= i < |s| => s[i] == u[i])
  }

  lemma FlipTwice(effects: seq<real>, s: Signs, u: Signs)
    requires |s| == |effects| == |u|
    ensures Flip(Flip(effects, s), u) == Flip(effects, Agree(s, u))
    ensures Agree(s, Agree(s, u)) == u
  {
  }

  function AsExtremeAs(effects: seq<real>, s: Signs, tolerance: real): set<Signs>
    requires effects != [] && |s| == |effects|
  {
    set v | v in AllSigns(|effects|) && |v| == |effects|
            && Statistic(effects, v) >= Statistic(effects, s) - tolerance
  }

  /** The null set of flipped effects is the null set of the effects themselves. */
  lemma HitsOfFlipped(effects: seq<real>, s: Signs, tolerance: real)
    requires effects != [] && |s| == |effects|
    ensures |Hits(Flip(effects, s), tolerance)| == |AsExtremeAs(effects, s, tolerance)|
  {
    var flipped := Flip(effects, s);
    var hits := Hits(flipped, tolerance);
    var extreme := AsExtremeAs(effects, s, tolerance);
    var turn := (u: Signs) => if |u| == |s| then Agree(s, u) else u;
    forall u: Signs | |u| == |s|
      ensures Statistic(flipped, u) == Statistic(effects, turn(u))
      ensures Statistic(flipped, turn(u)) == Statistic(effects, u)
      ensures turn(turn(u)) == u && turn(u) in AllSigns(|s|)
    {
      FlipTwice(effects, s, u);
      FlipTwice(effects, s, Agree(s, u));
    }
    CountInjection(hits, extreme, turn);
    CountInjection(extreme, hits, turn);
  }

  ghost function LeastExtreme(effects: seq<real>, candidates: set<Signs>): (s: Signs)
    requires effects != [] && candidates != {}
    requires forall c :: c in candidates ==> |c| == |effects|
    ensures s in candidates
    ensures forall c :: c in candidates ==> Statistic(effects, s) <= Statistic(effects, c)
  {
    var c :| c in candidates;
    if candidates == {c} then c
    else
      var rest := candidates - {c};
      assert candidates == rest + {c};
      var d := LeastExtreme(effects, rest);
      if Statistic(effects, c) <= Statistic(effects, d) then c else d
  }

  function FewHits(effects: seq<real>, tolerance: real, k: nat): set<Signs>
    requires effects != []
  {
    set s | s in AllSigns(|effects|) && |s| == |effects|
            && |Hits(Flip(effects, s), tolerance)| <= k
  }

  /** At most k of the 2^n assignments see a hit count of k or less. */
  lemma ExactValidity(effects: seq<real>, tolerance: real, k: nat)
    requires effects != [] && tolerance >= 0.0
    ensures |FewHits(effects, tolerance, k)| <= k
  {
    var few := FewHits(effects, tolerance, k);
    if few != {} {
      var s := LeastExtreme(effects, few);
      HitsOfFlipped(effects, s, tolerance);
      CountSubset(few, AsExtremeAs(effects, s, tolerance));
    }
  }

  function SmallPValue(effects: seq<real>, tolerance: real, alpha: real): set<Signs>
    requires effects != []
  {
    set s | s in AllSigns(|effects|) && |s| == |effects|
            && PValue(Flip(effects, s), tolerance) <= alpha
  }

  /** alpha * 2^n, the number of assignments a test of level alpha may reject. */
  function Budget(alpha: real, n: nat): real {
    alpha * Pow2(n) as real
  }

  /** The test has its nominal level: p <= alpha for at most alpha * 2^n assignments. */
  lemma ExactLevel(effects: seq<real>, tolerance: real, alpha: real)
    requires effects != [] && tolerance >= 0.0 && alpha >= 0.0
    ensures |SmallPValue(effects, tolerance, alpha)| as real <= Budget(alpha, |effects|)
  {
    var k := LargestCount(|effects|, alpha);
    SmallMeansFew(effects, tolerance, alpha);
    ExactValidity(effects, tolerance, k);
    CountSubset(SmallPValue(effects, tolerance, alpha), FewHits(effects, tolerance, k));
  }

  /** The largest hit count whose p-value is at most alpha. */
  function LargestCount(n: nat, alpha: real): (k: nat)
    requires alpha >= 0.0
    ensures k as real <= Budget(alpha, n)
  {
    Budget(alpha, n).Floor
  }

  lemma {:induction false} LargestCountIsLargest(n: nat, alpha: real, count: nat)
    requires alpha >= 0.0 && count as real / Pow2(n) as real <= alpha
    ensures count <= LargestCount(n, alpha)
  {
  }

  lemma SmallMeansFew(effects: seq<real>, tolerance: real, alpha: real)
    requires effects != [] && alpha >= 0.0
    ensures SmallPValue(effects, tolerance, alpha)
         <= FewHits(effects, tolerance, LargestCount(|effects|, alpha))
  {
    hide LargestCount, Hits, Flip, AllSigns, Pow2;
    forall s | s in SmallPValue(effects, tolerance, alpha)
      ensures s in FewHits(effects, tolerance, LargestCount(|effects|, alpha))
    {
      LargestCountIsLargest(|effects|, alpha, |Hits(Flip(effects, s), tolerance)|);
    }
  }

  // ---------- symmetries ----------

  function Opposite(s: Signs): (r: Signs)
    ensures |r| == |s|
  {
    seq(|s|, i requires 0 <= i < |s| => !s[i])
  }

  function Negated(effects: seq<real>): (r: seq<real>)
    ensures |r| == |effects|
  {
    seq(|effects|, i requires 0 <= i < |effects| => -effects[i])
  }

  lemma {:induction false} SumNegated(effects: seq<real>)
    ensures Sum(Negated(effects)) == -Sum(effects)
  {
    if effects != [] {
      SumNegated(effects[1..]);
      assert Negated(effects)[1..] == Negated(effects[1..]);
    }
  }

  lemma MeanNegated(effects: seq<real>)
    requires effects != []
    ensures Mean(Negated(effects)) == -Mean(effects)
  {
    SumNegated(effects);
    var n := |effects| as real;
    assert Sum(effects) == Mean(effects) * n;
    assert Sum(Negated(effects)) == Mean(Negated(effects)) * n;
  }

  lemma StatisticOfOpposite(effects: seq<real>, s: Signs)
    requires effects != [] && |s| == |effects|
    ensures Statistic(effects, Opposite(s)) == Statistic(effects, s) == Statistic(Negated(effects), s)
  {
    var flipped := Flip(effects, s);
    assert Flip(effects, Opposite(s)) == Negated(flipped) == Flip(Negated(effects), s);
    MeanNegated(flipped);
  }

  function HitsStarting(effects: seq<real>, tolerance: real, sign: bool): set<Signs>
    requires effects != []
  {
    set s | s in Hits(effects, tolerance) && s[0] == sign
  }

  lemma OppositeHits(effects: seq<real>, tolerance: real, sign: bool)
    requires effects != []
    ensures |HitsStarting(effects, tolerance, sign)| <= |HitsStarting(effects, tolerance, !sign)|
  {
    var from, to := HitsStarting(effects, tolerance, sign), HitsStarting(effects, tolerance, !sign);
    forall s | s in from ensures Opposite(s) in to {
      StatisticOfOpposite(effects, s);
    }
    forall s, u | s in from && u in from && Opposite(s) == Opposite(u) ensures s == u {
      assert Opposite(Opposite(s)) == s && Opposite(Opposite(u)) == u;
    }
    CountInjection(from, to, Opposite);
  }

  lemma ObservedIsHit(effects: seq<real>, tolerance: real)
    requires effects != [] && tolerance >= 0.0
    ensures |HitsStarting(effects, tolerance, true)| >= 1
  {
    var observed: Signs := seq(|effects|, _ => true);
    assert Flip(effects, observed) == effects;
    assert observed in HitsStarting(effects, tolerance, true);
  }

  /** Every hit pairs with its opposite, and the observed assignment is a hit. */
  lemma HitsComeInPairs(effects: seq<real>, tolerance: real)
    requires effects != []
    ensures |Hits(effects, tolerance)| % 2 == 0
    ensures tolerance >= 0.0 ==> |Hits(effects, tolerance)| >= 2
  {
    hide Hits, HitsStarting;
    OppositeHits(effects, tolerance, true);
    OppositeHits(effects, tolerance, false);
    HitsSplit(effects, tolerance);
    if tolerance >= 0.0 {
      ObservedIsHit(effects, tolerance);
    }
  }

  lemma HitsSplit(effects: seq<real>, tolerance: real)
    requires effects != []
    ensures |Hits(effects, tolerance)|
         == |HitsStarting(effects, tolerance, true)| + |HitsStarting(effects, tolerance, false)|
  {
    hide IsHit, AllSigns;
    var kept, turned := HitsStarting(effects, tolerance, true), HitsStarting(effects, tolerance, false);
    assert Hits(effects, tolerance) == kept + turned;
    assert |kept + turned| == |kept| + |turned|;
  }

  lemma NegationKeepsHits(effects: seq<real>, tolerance: real)
    requires effects != []
    ensures Hits(Negated(effects), tolerance) == Hits(effects, tolerance)
  {
    MeanNegated(effects);
    forall s: Signs | |s| == |effects|
      ensures Statistic(Negated(effects), s) == Statistic(effects, s)
    {
      StatisticOfOpposite(effects, s);
    }
  }

  // ---------- the order of the blocks ----------

  /** The number of sign choices for the remaining effects that end in an accepted total. */
  function Tally(effects: seq<real>, total: real, accept: real -> bool): nat {
    if effects == [] then (if accept(total) then 1 else 0)
    else Tally(effects[1..], total + effects[0], accept) + Tally(effects[1..], total - effects[0], accept)
  }

  function Accepted(effects: seq<real>, total: real, accept: real -> bool): set<Signs> {
    set s | s in AllSigns(|effects|) && |s| == |effects| && accept(total + Sum(Flip(effects, s)))
  }

  function AcceptedStarting(effects: seq<real>, total: real, accept: real -> bool, sign: bool): set<Signs>
    requires effects != []
  {
    set s | s in Accepted(effects, total, accept) && s[0] == sign
  }

  lemma TallyOfNothing(total: real, accept: real -> bool)
    ensures Accepted([], total, accept) == if accept(total) then {[]} else {}
  {
  }

  lemma {:induction false} TallyCounts(effects: seq<real>, total: real, accept: real -> bool)
    ensures |Accepted(effects, total, accept)| == Tally(effects, total, accept)
  {
    hide Accepted, AcceptedStarting;
    if effects == [] {
      TallyOfNothing(total, accept);
    } else {
      TallyCounts(effects[1..], total + effects[0], accept);
      TallyCounts(effects[1..], total - effects[0], accept);
      TallyHalf(effects, total, accept, true);
      TallyHalf(effects, total, accept, false);
      AcceptedSplits(effects, total, accept);
      assert total - effects[0] == total + Signed(effects[0], false);
    }
  }

  lemma AcceptedSplits(effects: seq<real>, total: real, accept: real -> bool)
    requires effects != []
    ensures |Accepted(effects, total, accept)|
         == |AcceptedStarting(effects, total, accept, true)| + |AcceptedStarting(effects, total, accept, false)|
  {
    hide Flip, AllSigns, Sum;
    var kept := AcceptedStarting(effects, total, accept, true);
    var turned := AcceptedStarting(effects, total, accept, false);
    assert Accepted(effects, total, accept) == kept + turned;
    assert |kept + turned| == |kept| + |turned|;
  }

  function Signed(x: real, sign: bool): real {
    if sign then x else -x
  }

  lemma FlipHead(effects: seq<real>, s: Signs)
    requires effects != [] && |s| == |effects|
    ensures Sum(Flip(effects, s)) == Signed(effects[0], s[0]) + Sum(Flip(effects[1..], s[1..]))
  {
    assert Flip(effects, s)[1..] == Flip(effects[1..], s[1..]);
  }

  lemma TallyHalf(effects: seq<real>, total: real, accept: real -> bool, sign: bool)
    requires effects != []
    ensures |AcceptedStarting(effects, total, accept, sign)|
         == |Accepted(effects[1..], total + Signed(effects[0], sign), accept)|
  {
    hide Accepted, AcceptedStarting;
    var half := AcceptedStarting(effects, total, accept, sign);
    var tails := Accepted(effects[1..], total + Signed(effects[0], sign), accept);
    DropSign(effects, total, accept, sign);
    CountInjection(half, tails, (s: Signs) => if s == [] then s else s[1..]);
    GrowSign(effects, total, accept, sign);
    CountInjection(tails, half, (t: Signs) => [sign] + t);
  }

  lemma DropSign(effects: seq<real>, total: real, accept: real -> bool, sign: bool)
    requires effects != []
    ensures forall s :: s in AcceptedStarting(effects, total, accept, sign) ==>
      |s| > 0 && s[1..] in Accepted(effects[1..], total + Signed(effects[0], sign), accept)
      && [sign] + s[1..] == s
  {
    hide Sum, Flip, AllSigns, Signed;
    forall s | s in AcceptedStarting(effects, total, accept, sign)
      ensures |s| > 0 && s[1..] in Accepted(effects[1..], total + Signed(effects[0], sign), accept)
      ensures [sign] + s[1..] == s
    {
      FlipHead(effects, s);
      SameTotal(total, Signed(effects[0], sign), Sum(Flip(effects[1..], s[1..])), accept);
    }
  }

  lemma GrowSign(effects: seq<real>, total: real, accept: real -> bool, sign: bool)
    requires effects != []
    ensures forall t :: t in Accepted(effects[1..], total + Signed(effects[0], sign), accept) ==>
      [sign] + t in AcceptedStarting(effects, total, accept, sign) && ([sign] + t)[1..] == t
  {
    hide Sum, Flip, AllSigns, Signed;
    forall t | t in Accepted(effects[1..], total + Signed(effects[0], sign), accept)
      ensures [sign] + t in AcceptedStarting(effects, total, accept, sign) && ([sign] + t)[1..] == t
    {
      assert ([sign] + t)[1..] == t;
      FlipHead(effects, [sign] + t);
      SameTotal(total, Signed(effects[0], sign), Sum(Flip(effects[1..], t)), accept);
    }
  }

  lemma SameTotal(total: real, head: real, rest: real, accept: real -> bool)
    ensures accept(total + (head + rest)) == accept(total + head + rest)
  {
  }

  lemma {:induction false} TallyHead(x: real, rest: seq<real>, total: real, accept: real -> bool)
    ensures Tally([x] + rest, total, accept)
         == Tally(rest, total + x, accept) + Tally(rest, total - x, accept)
  {
  }

  lemma {:induction false} TallySwap(x: real, y: real, rest: seq<real>, total: real, accept: real -> bool)
    ensures Tally([x] + ([y] + rest), total, accept) == Tally([y] + ([x] + rest), total, accept)
  {
  }

  lemma {:induction false} TallyMoveToFront(effects: seq<real>, i: nat, total: real, accept: real -> bool)
    requires i < |effects|
    ensures Tally(effects, total, accept)
         == Tally([effects[i]] + (effects[..i] + effects[i + 1..]), total, accept)
  {
    hide Tally;
    if i == 0 {
      assert [effects[0]] + (effects[..0] + effects[1..]) == effects;
    } else {
      var x, y, rest := effects[0], effects[i], effects[1..];
      var others := rest[..i - 1] + rest[i..];
      assert rest[i - 1] == y && effects == [x] + rest;
      TallyMoveToFront(rest, i - 1, total + x, accept);
      TallyMoveToFront(rest, i - 1, total - x, accept);
      TallyHead(x, rest, total, accept);
      TallyHead(x, [y] + others, total, accept);
      TallySwap(x, y, others, total, accept);
      assert effects[..i] + effects[i + 1..] == [x] + others;
    }
  }

  lemma {:induction false} TallyOfMultiset(xs: seq<real>, ys: seq<real>, total: real, accept: real -> bool)
    requires multiset(xs) == multiset(ys)
    ensures Tally(xs, total, accept) == Tally(ys, total, accept)
  {
    assert |multiset(xs)| == |xs| && |multiset(ys)| == |ys|;
    if xs != [] {
      assert xs[0] in multiset(ys);
      var i :| 0 <= i < |ys| && ys[i] == xs[0];
      RemoveFront(xs, ys, i);
      var rest := ys[..i] + ys[i + 1..];
      TallyMoveToFront(ys, i, total, accept);
      TallyOfMultiset(xs[1..], rest, total + xs[0], accept);
      TallyOfMultiset(xs[1..], rest, total - xs[0], accept);
      TallyHead(xs[0], rest, total, accept);
    }
  }

  /** The p-value does not depend on the order of the blocks. */
  lemma PValueOfMultiset(xs: seq<real>, ys: seq<real>, tolerance: real)
    requires xs != [] && ys != [] && multiset(xs) == multiset(ys)
    ensures PValue(xs, tolerance) == PValue(ys, tolerance)
  {
    SumOfMultiset(xs, ys);
    var n, bar := |xs| as real, Abs(Mean(xs)) - tolerance;
    var accept := (t: real) => Abs(t / n) >= bar;
    assert Hits(xs, tolerance) == Accepted(xs, 0.0, accept);
    assert Hits(ys, tolerance) == Accepted(ys, 0.0, accept);
    TallyCounts(xs, 0.0, accept);
    TallyCounts(ys, 0.0, accept);
    TallyOfMultiset(xs, ys, 0.0, accept);
  }

  // ---------- what the p-value counts ----------

  /** The observed sum made non-negative, less the tolerance of the means. */
  function Bar(effects: seq<real>, tolerance: real): real {
    (if Sum(effects) < 0.0 then -Sum(effects) else Sum(effects)) - |effects| as real * tolerance
  }

  /** The sign choices for the remaining effects whose signed sum ends in one of the two tails. */
  function TailCount(effects: seq<real>, total: real, bar: real): nat {
    if effects == [] then (if total >= bar || total <= -bar then 1 else 0)
    else TailCount(effects[1..], total + effects[0], bar) + TailCount(effects[1..], total - effects[0], bar)
  }

  /** The share of the 2^n sign choices that end in a tail. */
  function TailShare(effects: seq<real>, tolerance: real): real {
    TailCount(effects, 0.0, Bar(effects, tolerance)) as real / Pow2(|effects|) as real
  }

  lemma {:induction false} TailCountIsTally(effects: seq<real>, total: real, bar: real, accept: real -> bool)
    requires forall t :: accept(t) <==> t >= bar || t <= -bar
    ensures TailCount(effects, total, bar) == Tally(effects, total, accept)
  {
    if effects != [] {
      TailCountIsTally(effects[1..], total + effects[0], bar, accept);
      TailCountIsTally(effects[1..], total - effects[0], bar, accept);
    }
  }

  lemma ScaledTails(t: real, sum: real, n: real, tolerance: real)
    requires n > 0.0
    ensures var bar := (if sum < 0.0 then -sum else sum) - n * tolerance;
      Abs(t / n) >= Abs(sum / n) - tolerance <==> t >= bar || t <= -bar
  {
    var x, y := t / n, sum / n;
    assert t == x * n && sum == y * n;
    assert Abs(x) * n == Abs(t) && Abs(y) * n == Abs(sum) by {
      assert (-x) * n == -t && (-y) * n == -sum;
      assert x < 0.0 <==> t < 0.0 by { SameSign(x, n); }
      assert y < 0.0 <==> sum < 0.0 by { SameSign(y, n); }
    }
    SameOrder(Abs(x), Abs(y) - tolerance, n);
    assert (Abs(y) - tolerance) * n == Abs(sum) - n * tolerance;
  }

  lemma SameSign(x: real, n: real)
    requires n > 0.0
    ensures x < 0.0 <==> x * n < 0.0
  {
    if x >= 0.0 {
      assert x * n >= 0.0;
    }
  }

  lemma SameOrder(x: real, y: real, n: real)
    requires n > 0.0
    ensures x >= y <==> x * n >= y * n
  {
    SameSign(x - y, n);
    assert (x - y) * n == x * n - y * n;
  }

  /** p * 2^n sign choices have a signed sum at least as far from zero, on either side, as the observed one. */
  lemma {:induction false} PValueCountsTails(effects: seq<real>, tolerance: real)
    requires effects != []
    ensures PValue(effects, tolerance) == TailShare(effects, tolerance)
  {
    hide TailCount, Tally, Accepted, Flip, AllSigns, Sum;
    var n, bar := |effects| as real, Bar(effects, tolerance);
    var accept := (t: real) => t >= bar || t <= -bar;
    forall t ensures Abs(t / n) >= Abs(Mean(effects)) - tolerance <==> accept(t) {
      ScaledTails(t, Sum(effects), n, tolerance);
    }
    AcceptedAreHits(effects, tolerance, accept);
    TallyCounts(effects, 0.0, accept);
    TailCountIsTally(effects, 0.0, bar, accept);
  }

  lemma AcceptedAreHits(effects: seq<real>, tolerance: real, accept: real -> bool)
    requires effects != []
    requires forall t :: accept(t) <==> Abs(t / |effects| as real) >= Abs(Mean(effects)) - tolerance
    ensures Hits(effects, tolerance) == Accepted(effects, 0.0, accept)
  {
    hide Flip, AllSigns, Sum;
    forall s: Signs | |s| == |effects| ensures IsHit(effects, s, tolerance) <==> accept(0.0 + Sum(Flip(effects, s))) {
      assert 0.0 + Sum(Flip(effects, s)) == Sum(Flip(effects, s));
    }
  }

  /** A bar at or below zero is reached by every sign choice. */
  lemma {:induction false} LowBarIsAlwaysReached(effects: seq<real>, total: real, bar: real)
    requires bar <= 0.0
    ensures TailCount(effects, total, bar) == Pow2(|effects|)
  {
    if effects != [] {
      LowBarIsAlwaysReached(effects[1..], total + effects[0], bar);
      LowBarIsAlwaysReached(effects[1..], total - effects[0], bar);
    }
  }

  ghost predicate AllPositive(effects: seq<real>) {
    forall i :: 0 <= i < |effects| ==> effects[i] > 0.0
  }

  lemma {:induction false} PositiveSum(effects: seq<real>)
    requires AllPositive(effects)
    ensures Sum(effects) >= 0.0
  {
    if effects != [] {
      PositiveSum(effects[1..]);
    }
  }

  lemma {:induction false} OutOfReach(effects: seq<real>, total: real, bar: real)
    requires AllPositive(effects) && total + Sum(effects) < bar && total - Sum(effects) > -bar
    ensures TailCount(effects, total, bar) == 0
  {
    if effects != [] {
      OutOfReach(effects[1..], total + effects[0], bar);
      OutOfReach(effects[1..], total - effects[0], bar);
    }
  }

  /** Turning any one effect misses the bar, so only adding all of them reaches it. */
  lemma {:induction false} OnlyAllReach(effects: seq<real>, total: real, bar: real)
    requires AllPositive(effects) && total + Sum(effects) >= bar && total - Sum(effects) > -bar
    requires forall i :: 0 <= i < |effects| ==> total + Sum(effects) - 2.0 * effects[i] < bar
    ensures TailCount(effects, total, bar) == 1
  {
    if effects != [] {
      OnlyAllReach(effects[1..], total + effects[0], bar);
      OutOfReach(effects[1..], total - effects[0], bar);
    }
  }

  lemma {:induction false} TailCountMirrored(effects: seq<real>, total: real, bar: real)
    ensures TailCount(effects, -total, bar) == TailCount(effects, total, bar)
  {
    if effects != [] {
      assert -total + effects[0] == -(total - effects[0]) && -total - effects[0] == -(total + effects[0]);
      TailCountMirrored(effects[1..], total - effects[0], bar);
      TailCountMirrored(effects[1..], total + effects[0], bar);
    }
  }

  lemma {:induction false} PositivesAreMostExtreme(effects: seq<real>, tolerance: real)
    requires effects != [] && tolerance >= 0.0 && AllPositive(effects)
    requires forall i :: 0 <= i < |effects| ==> |effects| as real * tolerance < 2.0 * effects[i]
    ensures TailCount(effects, 0.0, Bar(effects, tolerance)) == 2
  {
    PositiveSum(effects);
    var bar, first, rest := Bar(effects, tolerance), effects[0], effects[1..];
    assert |effects| as real * tolerance >= 0.0;
    assert forall i :: 0 <= i < |rest| ==> rest[i] == effects[i + 1];
    PositiveSum(rest);
    OnlyAllReach(rest, first, bar);
    TailCountMirrored(rest, first, bar);
  }

  /** Effects of one sign are the most extreme outcome: the p-value is the smallest there is, 2 of 2^n. */
  lemma {:induction false} OneSignIsMostExtreme(effects: seq<real>, tolerance: real)
    requires effects != [] && tolerance >= 0.0
    requires AllPositive(effects) || AllPositive(Negated(effects))
    requires forall i :: 0 <= i < |effects| ==>
      |effects| as real * tolerance < 2.0 * (if effects[i] < 0.0 then -effects[i] else effects[i])
    ensures PValue(effects, tolerance) == 2.0 / Pow2(|effects|) as real
  {
    hide PValue, Negated, TailCount, Bar;
    if AllPositive(effects) {
      PositivesAreMostExtreme(effects, tolerance);
      PValueCountsTails(effects, tolerance);
    } else {
      var negated := Negated(effects);
      assert forall i :: 0 <= i < |effects| ==> negated[i] == -effects[i] by { NegatedAt(effects); }
      PositivesAreMostExtreme(negated, tolerance);
      PValueCountsTails(negated, tolerance);
      NegationKeepsPValue(effects, tolerance);
    }
  }

  lemma NegatedAt(effects: seq<real>)
    ensures forall i :: 0 <= i < |effects| ==> Negated(effects)[i] == -effects[i]
  {
  }

  lemma NegationKeepsPValue(effects: seq<real>, tolerance: real)
    requires effects != []
    ensures PValue(Negated(effects), tolerance) == PValue(effects, tolerance)
  {
    NegationKeepsHits(effects, tolerance);
  }

  /** Effects that cancel are the least extreme outcome. */
  lemma {:induction false} CancellingIsLeastExtreme(effects: seq<real>, tolerance: real)
    requires effects != [] && tolerance >= 0.0 && Sum(effects) == 0.0
    ensures PValue(effects, tolerance) == 1.0
  {
    hide PValue, TailCount, Bar, Pow2;
    CancellingBar(effects, tolerance);
    LowBarIsAlwaysReached(effects, 0.0, Bar(effects, tolerance));
    PValueCountsTails(effects, tolerance);
    WholeShare(Pow2(|effects|));
  }

  lemma {:induction false} CancellingBar(effects: seq<real>, tolerance: real)
    requires tolerance >= 0.0 && Sum(effects) == 0.0
    ensures Bar(effects, tolerance) <= 0.0
  {
    hide Sum;
    assert |effects| as real * tolerance >= 0.0;
  }

  lemma WholeShare(n: nat)
    requires n > 0
    ensures n as real / n as real == 1.0
  {
  }

  // ---------- the two implementations ----------

  /** Mean block effect and its p-value, from the loop over bit masks. */
  method BlockedSignFlip(effects: seq<real>, tolerance: real) returns (observed: Number, p: real)
    ensures effects == [] ==> observed == NaN && p == 0.0
    ensures effects != [] ==> observed == Finite(Mean(effects)) && p == PValue(effects, tolerance)
    ensures effects != [] ==> p == TailShare(effects, tolerance)
  {
    hide Mean, Flip, AllSigns, Hits, Enumerates, Bits, CountAtLeast, PValue, TailShare;
    if effects == [] {
      // The mean of nothing is not a number, and no comparison with it holds.
      return NaN, 0.0;
    }
    var center := Mean(effects);
    var n := |effects|;
    var means: seq<real> := [];
    for mask := 0 to Pow2(n)
      invariant |means| == mask
      invariant forall j: nat :: j < mask ==> means[j] == Mean(Flip(effects, Bits(j, n)))
    {
      var signed := seq(n, index requires 0 <= index < n =>
        if Bit(mask, index) then effects[index] else -effects[index]);
      SignedIsFlip(effects, mask, signed);
      means := means + [Mean(signed)];
    }
    var statistics := seq(|means|, j requires 0 <= j < |means| => Abs(means[j]));
    MasksGivePValue(effects, tolerance, means, statistics);
    PValueCountsTails(effects, tolerance);
    observed := Finite(center);
    p := CountAtLeast(statistics, Abs(center) - tolerance) as real / |means| as real;
  }

  lemma {:induction false} MaskStatistics(effects: seq<real>, means: seq<real>, statistics: seq<real>)
    requires effects != [] && |means| == Pow2(|effects|) == |statistics|
    requires forall j: nat :: j < |means| ==> means[j] == Mean(Flip(effects, Bits(j, |effects|)))
    requires forall j: nat :: j < |means| ==> statistics[j] == Abs(means[j])
    ensures statistics == Statistics(effects, MaskOrder(|effects|))
  {
  }

  lemma {:induction false} MasksGivePValue(effects: seq<real>, tolerance: real,
                                           means: seq<real>, statistics: seq<real>)
    requires effects != [] && |means| == Pow2(|effects|) == |statistics|
    requires forall j: nat :: j < |means| ==> means[j] == Mean(Flip(effects, Bits(j, |effects|)))
    requires forall j: nat :: j < |means| ==> statistics[j] == Abs(means[j])
    ensures CountAtLeast(statistics, Abs(Mean(effects)) - tolerance) as real / |means| as real
         == PValue(effects, tolerance)
  {
    hide Mean, Flip, AllSigns, Hits, Enumerates, Bits, CountAtLeast, Statistics;
    MaskOrderEnumerates(|effects|);
    EnumerationCountsHits(effects, tolerance, MaskOrder(|effects|));
    MaskStatistics(effects, means, statistics);
  }

  lemma {:induction false} SignedIsFlip(effects: seq<real>, mask: nat, signed: seq<real>)
    requires |signed| == |effects|
    requires forall i :: 0 <= i < |effects| ==>
      signed[i] == if Bit(mask, i) then effects[i] else -effects[i]
    ensures signed == Flip(effects, Bits(mask, |effects|))
  {
  }

  function FiniteValues(xs: seq<Number>): seq<real> {
    if xs == [] then []
    else (if xs[0].Finite? then [xs[0].value] else []) + FiniteValues(xs[1..])
  }

  /** The p-value of the finite differences, from the product of signs. */
  function ExactSignFlip(differences: seq<Number>, tolerance: real): Number {
    var values := FiniteValues(differences);
    if values == [] then NaN
    else
      var order := ProductOrder(|values|);
      ProductOrderEnumerates(|values|);
      var statistics := Statistics(values, order);
      Finite(CountAtLeast(statistics, Abs(Mean(values)) - tolerance) as real / |statistics| as real)
  }

  lemma {:induction false} ExactSignFlipIsPValue(differences: seq<Number>, tolerance: real)
    ensures var values := FiniteValues(differences);
      ExactSignFlip(differences, tolerance) == if values == [] then NaN else Finite(PValue(values, tolerance))
    ensures var values := FiniteValues(differences);
      ExactSignFlip(differences, tolerance) == if values == [] then NaN else Finite(TailShare(values, tolerance))
  {
    hide FiniteValues, Statistics, Hits, Mean, CountAtLeast, ProductOrder, TailShare;
    var values := FiniteValues(differences);
    if values != [] {
      PValueCountsTails(values, tolerance);
      ProductOrderEnumerates(|values|);
      EnumerationCountsHits(values, tolerance, ProductOrder(|values|));
    }
  }

  function AsNumbers(xs: seq<real>): (values: seq<Number>)
    ensures |values| == |xs| && forall i :: 0 <= i < |xs| ==> values[i] == Finite(xs[i])
  {
    seq(|xs|, i requires 0 <= i < |xs| => Finite(xs[i]))
  }

  /** The mask loop over some effects and the product loop over a permutation of them, or of their negations. */
  method OnePValue(effects: seq<real>, other: seq<real>, tolerance: real)
    returns (fromMasks: real, fromProducts: Number)
    requires effects != []
    requires multiset(other) == multiset(effects) || multiset(other) == multiset(Negated(effects))
    ensures fromMasks == PValue(effects, tolerance)
    ensures fromProducts == ExactSignFlip(AsNumbers(other), tolerance)
    ensures fromProducts == Finite(fromMasks)
  {
    var _, p := BlockedSignFlip(effects, tolerance);
    fromMasks := p;
    fromProducts := ExactSignFlip(AsNumbers(other), tolerance);
    AllFinite(other, AsNumbers(other));
    ExactSignFlipIsPValue(AsNumbers(other), tolerance);
    if multiset(other) == multiset(effects) {
      SumOfMultiset(other, effects);
      PValueOfMultiset(other, effects, tolerance);
    } else {
      SumOfMultiset(other, Negated(effects));
      PValueOfMultiset(other, Negated(effects), tolerance);
      NegationKeepsPValue(effects, tolerance);
    }
  }

  lemma {:induction false} AllFinite(xs: seq<real>, values: seq<Number>)
    requires |values| == |xs| && forall i :: 0 <= i < |xs| ==> values[i] == Finite(xs[i])
    ensures FiniteValues(values) == xs
  {
    if xs != [] {
      AllFinite(xs[1..], values[1..]);
    }
  }
}

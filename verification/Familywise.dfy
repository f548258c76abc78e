/** The whole inference pipeline: exact sign-flip p-values adjusted by Holm's method. */
module Familywise {
  import opened Prelude
  import opened SignFlip
  import Holm

  /**
   * The assignments under which some true null contrast is rejected. The p-values of the
   * true nulls come from the flipped effects; all others may be anything.
   */
  ghost function FalseRejections(n: nat, pValues: Signs -> seq<real>, nulls: set<nat>, alpha: real): set<Signs> {
    set s | s in AllSigns(n) &&
      exists i: nat :: i in nulls && i < |pValues(s)| && Holm.Adjusted(pValues(s), i) <= alpha
  }

  ghost predicate NullsAreFlipped(contrasts: map<nat, seq<real>>, n: nat, pValues: Signs -> seq<real>, tolerance: real)
    requires n > 0
  {
    && (forall i :: i in contrasts ==> |contrasts[i]| == n)
    && forall s: Signs, i :: |s| == n && i in contrasts ==>
      i < |pValues(s)| && pValues(s)[i] == PValue(Flip(contrasts[i], s), tolerance)
  }

  /** The assignments that give one of the contrasts a p-value of at most the threshold. */
  ghost function AnySmall(contrasts: map<nat, seq<real>>, n: nat, among: set<nat>, tolerance: real,
                          threshold: real): set<Signs>
    requires n > 0 && forall i :: i in contrasts ==> |contrasts[i]| == n
    requires among <= contrasts.Keys
  {
    set s | s in AllSigns(n) && exists i :: i in among && s in SmallPValue(contrasts[i], tolerance, threshold)
  }

  function Share(alpha: real, k: nat): real
    requires k > 0
  {
    alpha / k as real
  }

  lemma {:induction false} UnionBound(contrasts: map<nat, seq<real>>, n: nat, among: set<nat>, tolerance: real,
                                      threshold: real)
    requires n > 0 && forall i :: i in contrasts ==> |contrasts[i]| == n
    requires among <= contrasts.Keys && tolerance >= 0.0 && threshold >= 0.0
    ensures |AnySmall(contrasts, n, among, tolerance, threshold)| as real
         <= Holm.Times(|among|, Budget(threshold, n))
  {
    hide SmallPValue, AllSigns, Holm.Times, Budget;
    var all := AnySmall(contrasts, n, among, tolerance, threshold);
    if among == {} {
      assert all == {};
      Distribute(0, Budget(threshold, n));
    } else {
      var i :| i in among;
      var rest := among - {i};
      UnionBound(contrasts, n, rest, tolerance, threshold);
      ExactLevel(contrasts[i], tolerance, threshold);
      var others := AnySmall(contrasts, n, rest, tolerance, threshold);
      var one := SmallPValue(contrasts[i], tolerance, threshold);
      assert all <= others + one;
      CountSubset(all, others + one);
      assert |others + one| <= |others| + |one|;
      Distribute(|rest|, Budget(threshold, n));
    }
  }

  lemma Distribute(k: nat, each: real)
    ensures Holm.Times(k, each) + each == Holm.Times(k + 1, each)
    ensures Holm.Times(0, each) == 0.0
  {
  }

  /**
   * Family-wise error control, counted exactly: whichever null contrasts are true and however
   * the other p-values behave, at most alpha * 2^n assignments reject any true null.
   */
  lemma FamilywiseError(contrasts: map<nat, seq<real>>, n: nat, pValues: Signs -> seq<real>, tolerance: real,
                        alpha: real)
    requires n > 0 && contrasts.Keys != {} && tolerance >= 0.0 && 0.0 <= alpha < 1.0
    requires NullsAreFlipped(contrasts, n, pValues, tolerance)
    ensures |FalseRejections(n, pValues, contrasts.Keys, alpha)| as real <= Budget(alpha, n)
  {
    hide Budget, Share, FalseRejections, AnySmall, Holm.Times;
    var nulls := contrasts.Keys;
    var threshold := Share(alpha, |nulls|);
    var rejections := FalseRejections(n, pValues, nulls, alpha);
    var small := AnySmall(contrasts, n, nulls, tolerance, threshold);
    forall s | s in rejections ensures s in small {
      RejectionNeedsSmall(contrasts, n, pValues, tolerance, alpha, s);
    }
    CountSubset(rejections, small);
    ShareFacts(|nulls|, alpha, n);
    UnionBound(contrasts, n, nulls, tolerance, threshold);
  }

  lemma ShareFacts(k: nat, alpha: real, n: nat)
    requires k > 0 && alpha >= 0.0
    ensures Share(alpha, k) >= 0.0
    ensures Holm.Times(k, Budget(Share(alpha, k), n)) == Budget(alpha, n)
  {
  }

  lemma RejectionNeedsSmall(contrasts: map<nat, seq<real>>, n: nat, pValues: Signs -> seq<real>, tolerance: real,
                            alpha: real, s: Signs)
    requires n > 0 && contrasts.Keys != {} && 0.0 <= alpha < 1.0
    requires NullsAreFlipped(contrasts, n, pValues, tolerance)
    requires s in FalseRejections(n, pValues, contrasts.Keys, alpha)
    ensures s in AnySmall(contrasts, n, contrasts.Keys, tolerance, Share(alpha, |contrasts.Keys|))
  {
    hide Holm.Adjusted, AllSigns, PValue, Flip, Share, Holm.Times;
    var nulls, p := contrasts.Keys, pValues(s);
    var i: nat :| i in nulls && i < |p| && Holm.Adjusted(p, i) <= alpha;
    Holm.FamilywiseCore(p, nulls, alpha, i);
    var j :| j in nulls && Holm.Times(|nulls|, p[j]) <= alpha;
    Divide(|nulls|, p[j], alpha);
    assert p[j] == PValue(Flip(contrasts[j], s), tolerance);
    assert s in SmallPValue(contrasts[j], tolerance, Share(alpha, |nulls|));
  }

  lemma Divide(k: nat, x: real, alpha: real)
    requires k > 0 && Holm.Times(k, x) <= alpha
    ensures x <= Share(alpha, k)
  {
  }
}

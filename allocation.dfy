/**
 * Apportioning a cost pool over the active vehicles in proportion to a
 * weight (time coefficient or kilometres), and the profitability figures
 * built on the shares: contribution ratio and break-even, with 0 standing
 * in for a figure that cannot be computed.
 */
module Allocation {
  import opened Collections

  /**
   * A vehicle's share of `pool` for weight `w` out of a total weight:
   * `total > 0 ? pool * w / total : 0`.
   */
  function Share(pool: real, w: real, total: real): (r: real)
    ensures total <= 0.0 ==> r == 0.0
    ensures total > 0.0 ==> r * total == pool * w
  {
    if total > 0.0 then pool * w / total else 0.0
  }

  /** The page's other spelling of a share, `pool * (total > 0 ? w / total : 0)`, is the same share. */
  lemma ShareByRatio(pool: real, w: real, total: real)
    ensures pool * (if total > 0.0 then w / total else 0.0) == Share(pool, w, total)
  {
  }

  /** `units > 0 ? amount / units : 0`, e.g. the cost per kilometre. */
  function PerUnit(amount: real, units: real): (r: real)
    ensures units <= 0.0 ==> r == 0.0
    ensures units > 0.0 ==> r * units == amount
  {
    if units > 0.0 then amount / units else 0.0
  }

  /** A share is at most the pool when the weight is a part of the total. */
  lemma ShareBounds(pool: real, w: real, total: real)
    requires pool >= 0.0 && 0.0 <= w <= total
    ensures 0.0 <= Share(pool, w, total) <= pool
  {
    if total > 0.0 {
      UnitFraction(w, total);
      assert Share(pool, w, total) == pool * (w / total);
      ScaledPart(pool, w / total);
    }
  }

  lemma UnitFraction(w: real, total: real)
    requires 0.0 <= w <= total && total > 0.0
    ensures 0.0 <= w / total <= 1.0
  {
  }

  lemma ScaledPart(pool: real, q: real)
    requires pool >= 0.0 && 0.0 <= q <= 1.0
    ensures 0.0 <= pool * q <= pool
  {
  }

  /**
   * Conservation: when the weights have a positive total, the shares of
   * all the vehicles add up to the pool.
   */
  lemma Conservation<T>(s: seq<T>, weight: T -> real, pool: real, share: T -> real)
    requires SumBy(s, weight) > 0.0
    requires forall i :: 0 <= i < |s| ==> share(s[i]) == Share(pool, weight(s[i]), SumBy(s, weight))
    ensures SumBy(s, share) == pool
  {
    var total := SumBy(s, weight);
    var c := pool / total;
    forall i | 0 <= i < |s|
      ensures share(s[i]) == c * weight(s[i])
    {
      var r := share(s[i]);
      assert r * total == pool * weight(s[i]);
      assert c * total == pool;
      assert r * total == (c * weight(s[i])) * total;
    }
    SumByScale(s, weight, share, c);
  }

  /** When the weights total 0 or less, nothing is apportioned. */
  lemma NothingApportioned<T>(s: seq<T>, weight: T -> real, pool: real, share: T -> real)
    requires SumBy(s, weight) <= 0.0
    requires forall i :: 0 <= i < |s| ==> share(s[i]) == Share(pool, weight(s[i]), SumBy(s, weight))
    ensures SumBy(s, share) == 0.0
  {
    SumByScale(s, weight, share, 0.0);
  }

  /** `income > 0 ? (income - variable) / income : 0`. */
  function ContributionRatio(income: real, variable: real): (r: real)
    ensures income <= 0.0 ==> r == 0.0
    ensures income > 0.0 ==> r * income == income - variable
    ensures income > 0.0 && variable <= income ==> r >= 0.0
  {
    if income > 0.0 then (income - variable) / income else 0.0
  }

  /** `ratio > 0 ? fixed / ratio : 0`: the income at which the contribution covers the fixed costs. */
  function BreakEven(fixed: real, ratio: real): (r: real)
    ensures ratio <= 0.0 ==> r == 0.0
    ensures ratio > 0.0 ==> r * ratio == fixed
  {
    PerUnit(fixed, ratio)
  }

  /** At the break-even income the contribution margin equals the fixed costs. */
  lemma BreakEvenCoversFixed(income: real, fixed: real, variable: real)
    requires income > 0.0 && variable < income
    ensures var be := BreakEven(fixed, ContributionRatio(income, variable));
            be * (income - variable) == fixed * income
  {
    var ratio := ContributionRatio(income, variable);
    assert ratio * income == income - variable;
    assert ratio > 0.0;
    var be := BreakEven(fixed, ratio);
    assert be * ratio == fixed;
    calc {
      be * (income - variable);
      be * (ratio * income);
      (be * ratio) * income;
      fixed * income;
    }
  }
}

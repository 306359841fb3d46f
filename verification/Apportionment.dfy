/** Largest-remainder apportionment over exact quotas (orchard_chia/allocation/engine.py).

    Python's Fraction is Dafny's real. Quotas are non-negative and add up to a whole number of
    mojos; each is floored, and the mojos left over go one each to some of the claims. What is
    proved here holds for any choice of those claims that prefers larger discarded fractions. */
module Apportionment {
  import opened Sums

  // Proportional quotas.

  function Share(weight: real, total: real): real
    requires total != 0.0
  {
    weight / total
  }

  function Quota(budget: int, share: real): real { budget as real * share }

  function Shares(weights: seq<real>, total: real): (r: seq<real>)
    requires total != 0.0
    ensures |r| == |weights|
  {
    seq(|weights|, i requires 0 <= i < |weights| => Share(weights[i], total))
  }

  function Quotas(shares: seq<real>, budget: int): (r: seq<real>)
    ensures |r| == |shares|
  {
    seq(|shares|, i requires 0 <= i < |shares| => Quota(budget, shares[i]))
  }

  lemma SharesPrefix(weights: seq<real>, total: real, m: nat)
    requires total != 0.0 && m <= |weights|
    ensures Shares(weights[..m], total) == Shares(weights, total)[..m]
  {
    forall i | 0 <= i < m ensures Shares(weights[..m], total)[i] == Shares(weights, total)[i] {}
  }

  lemma QuotasPrefix(shares: seq<real>, budget: int, m: nat)
    requires m <= |shares|
    ensures Quotas(shares[..m], budget) == Quotas(shares, budget)[..m]
  {
    forall i | 0 <= i < m ensures Quotas(shares[..m], budget)[i] == Quotas(shares, budget)[i] {}
  }

  lemma {:induction false} QuotasSum(weights: seq<real>, total: real, budget: int)
    requires total != 0.0
    ensures Sum(Quotas(Shares(weights, total), budget)) == Quota(budget, Share(Sum(weights), total))
  {
    if weights == [] {
      assert Share(0.0, total) == 0.0;
    } else {
      var m := |weights| - 1;
      QuotasSum(weights[..m], total, budget);
      SharesPrefix(weights, total, m);
      QuotasPrefix(Shares(weights, total), budget, m);
      assert Quotas(Shares(weights, total), budget)[m] == Quota(budget, Share(weights[m], total));
      hide Quotas, Shares, Quota, Share;
      Distribute(budget, Sum(weights[..m]), weights[m], total);
    }
  }

  lemma Distribute(b: int, x: real, y: real, t: real)
    requires t != 0.0
    ensures Quota(b, Share(x, t)) + Quota(b, Share(y, t)) == Quota(b, Share(x + y, t))
  {
    assert (x + y) / t == x / t + y / t;
  }

  lemma FullShare(x: real)
    requires x != 0.0
    ensures Share(x, x) == 1.0
  {}

  lemma QuotasSumToBudget(weights: seq<real>, budget: int)
    requires Sum(weights) != 0.0
    ensures Sum(Quotas(Shares(weights, Sum(weights)), budget)) == budget as real
  {
    QuotasSum(weights, Sum(weights), budget);
    FullShare(Sum(weights));
  }

  function Floors(q: seq<real>): (r: seq<int>)
    ensures |r| == |q|
  {
    seq(|q|, i requires 0 <= i < |q| => q[i].Floor)
  }

  function Fraction(x: real): real { x - x.Floor as real }

  /** How many mojos the floors leave over. */
  function Leftover(q: seq<real>, budget: int): int { budget - Total(Floors(q)) }

  function Plus(a: seq<int>, b: seq<int>): (r: seq<int>)
    requires |a| == |b|
    ensures |r| == |a|
  {
    seq(|a|, i requires 0 <= i < |a| => a[i] + b[i])
  }

  function Distance(x: real, y: real): real { if x < y then y - x else x - y }

  /** The total absolute deviation of a split from the quotas. */
  function Deviation(x: seq<int>, q: seq<real>): real
    requires |x| == |q|
  {
    if x == [] then 0.0
    else Deviation(x[..|x| - 1], q[..|q| - 1]) + Distance(x[|x| - 1] as real, q[|q| - 1])
  }

  /** One mojo each for `left` of the claims, none of which has a smaller fraction than one passed over. */
  predicate FairBump(bump: seq<int>, q: seq<real>, left: int) {
    && |bump| == |q|
    && Total(bump) == left
    && (forall i :: 0 <= i < |bump| ==> bump[i] == 0 || bump[i] == 1)
    && (forall i, j :: 0 <= i < |q| && 0 <= j < |q| && bump[i] == 1 && bump[j] == 0
          ==> Fraction(q[i]) >= Fraction(q[j]))
  }

  lemma {:induction false} TotalPlus(a: seq<int>, b: seq<int>)
    requires |a| == |b|
    ensures Total(Plus(a, b)) == Total(a) + Total(b)
  {
    if a != [] {
      TotalPlus(a[..|a| - 1], b[..|b| - 1]);
      assert Plus(a, b)[..|a| - 1] == Plus(a[..|a| - 1], b[..|b| - 1]);
    }
  }

  /** Every mojo is handed out. */
  lemma NothingLeftOver(bump: seq<int>, q: seq<real>, budget: int)
    requires FairBump(bump, q, Leftover(q, budget))
    ensures Total(Plus(Floors(q), bump)) == budget
  {
    TotalPlus(Floors(q), bump);
  }

  /** The discarded fractions add up to the mojos left over. */
  lemma {:induction false} FractionsSum(q: seq<real>)
    ensures Sum(q) == Total(Floors(q)) as real + Sum(Fractions(q))
  {
    if q != [] {
      var p := q[..|q| - 1];
      FractionsSum(p);
      assert Floors(q)[..|p|] == Floors(p) && Fractions(q)[..|p|] == Fractions(p);
    }
  }

  function Fractions(q: seq<real>): (r: seq<real>)
    ensures |r| == |q|
  {
    seq(|q|, i requires 0 <= i < |q| => Fraction(q[i]))
  }

  lemma {:induction false} SumBelowTotal(d: seq<real>, bump: seq<int>)
    requires |d| == |bump|
    requires forall i :: 0 <= i < |d| ==> d[i] <= bump[i] as real
    ensures Sum(d) <= Total(bump) as real
    ensures (exists i :: 0 <= i < |d| && d[i] < bump[i] as real) ==> Sum(d) < Total(bump) as real
  {
    if d != [] {
      var m := |d| - 1;
      SumBelowTotal(d[..m], bump[..m]);
      if i :| 0 <= i < |d| && d[i] < bump[i] as real && i < m {
        assert d[..m][i] < bump[..m][i] as real;
      }
    }
  }

  lemma {:induction false} SumNonNegative(d: seq<real>)
    requires forall i :: 0 <= i < |d| ==> d[i] >= 0.0
    ensures Sum(d) >= 0.0
  {
    if d != [] { SumNonNegative(d[..|d| - 1]); }
  }

  /** Fewer mojos are left over than there are claims, so no claim is given two. */
  lemma LeftoverRange(q: seq<real>, budget: int)
    requires q != [] && Sum(q) == budget as real
    ensures 0 <= Leftover(q, budget) < |q|
  {
    var d := Fractions(q);
    FractionsSum(q);
    SumNonNegative(d);
    assert d[0] < Ones(|q|)[0] as real;
    SumBelowTotal(d, Ones(|q|));
    TotalOnes(|q|);
  }

  /** A claim that is given a mojo had a fraction to round up. */
  lemma BumpedHasFraction(bump: seq<int>, q: seq<real>, budget: int, i: nat)
    requires Sum(q) == budget as real && FairBump(bump, q, Leftover(q, budget))
    requires i < |q| && bump[i] == 1
    ensures Fraction(q[i]) > 0.0
  {
    if Fraction(q[i]) == 0.0 {
      var d := Fractions(q);
      FractionsSum(q);
      assert d[i] < bump[i] as real;
      forall j | 0 <= j < |q| ensures d[j] <= bump[j] as real {
        if bump[j] == 0 { assert Fraction(q[i]) >= Fraction(q[j]); }
      }
      SumBelowTotal(d, bump);
      assert false;
    }
  }

  function Ceil(x: real): int { -((-x).Floor) }

  /** The quota rule: every claim gets its quota rounded down or up. */
  lemma QuotaRule(bump: seq<int>, q: seq<real>, budget: int, i: nat)
    requires Sum(q) == budget as real && FairBump(bump, q, Leftover(q, budget))
    requires i < |q|
    ensures Plus(Floors(q), bump)[i] == q[i].Floor || Plus(Floors(q), bump)[i] == Ceil(q[i])
    ensures q[i] == 0.0 ==> Plus(Floors(q), bump)[i] == 0
    ensures q[i] >= 0.0 ==> Plus(Floors(q), bump)[i] >= 0
  {
    if bump[i] == 1 {
      BumpedHasFraction(bump, q, budget, i);
      CeilOfFraction(q[i]);
    }
  }

  lemma CeilOfFraction(x: real)
    requires Fraction(x) > 0.0
    ensures Ceil(x) == x.Floor + 1
  {}

  /** A larger quota never gets less. */
  lemma NeverReversed(bump: seq<int>, q: seq<real>, left: int, i: nat, j: nat)
    requires FairBump(bump, q, left) && i < |q| && j < |q| && q[i] < q[j]
    ensures Plus(Floors(q), bump)[i] <= Plus(Floors(q), bump)[j]
  {
    assert bump[i] == 1 && bump[j] == 0 ==> Fraction(q[i]) >= Fraction(q[j]);
  }

  // Optimality, by a threshold between the fractions that were rounded up and those that were not.

  function Threshold(bump: seq<int>, q: seq<real>): real
    requires |bump| == |q|
  {
    if q == [] then 1.0
    else
      var m := |q| - 1;
      var t := Threshold(bump[..m], q[..m]);
      if bump[m] == 1 && Fraction(q[m]) < t then Fraction(q[m]) else t
  }

  lemma {:induction false} ThresholdBounds(bump: seq<int>, q: seq<real>)
    requires |bump| == |q|
    ensures 0.0 <= Threshold(bump, q) <= 1.0
    ensures forall i :: 0 <= i < |q| && bump[i] == 1 ==> Fraction(q[i]) >= Threshold(bump, q)
    ensures Threshold(bump, q) == 1.0 || Attained(bump, q)
  {
    if q != [] {
      var m := |q| - 1;
      ThresholdBounds(bump[..m], q[..m]);
      forall i | 0 <= i < m && bump[i] == 1 ensures Fraction(q[i]) >= Threshold(bump, q) {
        assert bump[..m][i] == 1;
      }
      if Attained(bump[..m], q[..m]) {
        var i :| 0 <= i < m && bump[..m][i] == 1 && Fraction(q[..m][i]) == Threshold(bump[..m], q[..m]);
        assert bump[i] == 1 && Fraction(q[i]) == Threshold(bump[..m], q[..m]);
      }
    }
  }

  ghost predicate Attained(bump: seq<int>, q: seq<real>)
    requires |bump| == |q|
  {
    exists i :: 0 <= i < |q| && bump[i] == 1 && Fraction(q[i]) == Threshold(bump, q)
  }

  /** At one claim: no whole number of extra mojos beats the chosen one, at the price the threshold sets. */
  lemma BestAtOne(d: real, t: real, b: int, k: int)
    requires 0.0 <= d < 1.0 && 0.0 <= t <= 1.0 && (b == 0 || b == 1)
    requires (b == 1 ==> d >= t) && (b == 0 ==> d <= t)
    ensures Distance(b as real, d) - Price(t, b) <= Distance(k as real, d) - Price(t, k)
  {
    if k >= 1 {
      NonNegativeProduct(t, (k - 1) as real);
    } else {
      NonNegativeProduct(1.0 - t, -k as real);
    }
  }

  function Price(t: real, k: int): real { k as real - 2.0 * (t * k as real) }

  lemma NonNegativeProduct(x: real, y: real)
    requires x >= 0.0 && y >= 0.0
    ensures x * y >= 0.0
  {}

  lemma PriceAdds(t: real, a: int, b: int)
    ensures Price(t, a + b) == Price(t, a) + Price(t, b)
  {}

  lemma DistanceShifts(x: int, y: int, q: real)
    ensures Distance((x + y) as real, q) == Distance(y as real, q - x as real)
  {}

  lemma {:induction false} BestOverall(bump: seq<int>, q: seq<real>, y: seq<int>, t: real)
    requires |bump| == |q| == |y| && 0.0 <= t <= 1.0
    requires forall i :: 0 <= i < |q| ==> bump[i] == 0 || bump[i] == 1
    requires forall i :: 0 <= i < |q| ==>
               (bump[i] == 1 ==> Fraction(q[i]) >= t) && (bump[i] == 0 ==> Fraction(q[i]) <= t)
    ensures Deviation(Plus(Floors(q), bump), q) - Price(t, Total(Plus(Floors(q), bump)))
            <= Deviation(y, q) - Price(t, Total(y))
    decreases |q|
  {
    hide Price, Distance, Fraction;
    if q == [] {
    } else {
      var m := |q| - 1;
      var x := Plus(Floors(q), bump);
      BestOverall(bump[..m], q[..m], y[..m], t);
      assert Plus(Floors(q[..m]), bump[..m]) == x[..m];
      BestLast(q[m], t, bump[m], y[m]);
      PriceAdds(t, Total(x[..m]), x[m]);
      PriceAdds(t, Total(y[..m]), y[m]);
    }
  }

  lemma BestLast(q: real, t: real, b: int, y: int)
    requires 0.0 <= t <= 1.0 && (b == 0 || b == 1)
    requires (b == 1 ==> Fraction(q) >= t) && (b == 0 ==> Fraction(q) <= t)
    ensures Distance((q.Floor + b) as real, q) - Price(t, q.Floor + b) <= Distance(y as real, q) - Price(t, y)
  {
    hide Price, Distance;
    var f := q.Floor;
    var k := y - f;
    BestAtOne(Fraction(q), t, b, k);
    DistanceShifts(f, b, q);
    DistanceShifts(f, k, q);
    PriceAdds(t, f, b);
    PriceAdds(t, f, k);
    assert f + k == y;
  }

  /** No split of the budget into whole mojos is closer to the quotas in total. */
  lemma LeastDeviation(bump: seq<int>, q: seq<real>, budget: int, y: seq<int>)
    requires FairBump(bump, q, Leftover(q, budget))
    requires |y| == |q| && Total(y) == budget
    ensures Deviation(Plus(Floors(q), bump), q) <= Deviation(y, q)
  {
    var t := Threshold(bump, q);
    ThresholdBounds(bump, q);
    forall j | 0 <= j < |q| && bump[j] == 0 ensures Fraction(q[j]) <= t {
      if t != 1.0 {
        var i :| 0 <= i < |q| && bump[i] == 1 && Fraction(q[i]) == t;
        assert Fraction(q[i]) >= Fraction(q[j]);
      }
    }
    BestOverall(bump, q, y, t);
    NothingLeftOver(bump, q, budget);
  }
}

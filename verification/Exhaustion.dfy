/** When the programme is over (orchard_chia/economics/emission.py against
    orchard_chia/economics/rewards.py).

    `is_exhausted` says so once the pool holds fewer mojos than there are eligible Trees. That is
    right when all weights are equal; with unequal weights a pool between four fifths of the Trees
    and the Trees can still pay one of them. */
module Exhaustion {
  import opened Ordering
  import opened Sums
  import opened Apportionment
  import opened Emission
  import opened Rewards
  import RewardInvariance

  function Pays(trees: seq<Tree>, ceiling: nat): int
    requires !SomeNegative(trees)
  {
    Distributed(Daily(trees, ceiling).value.rewards)
  }

  ghost predicate EqualWeights(trees: seq<Tree>) {
    forall s, t :: s in trees && t in trees && Counts(s) && Counts(t) ==> WeightOf(s) == WeightOf(t)
  }

  /** Not exhausted, and a schedule that allows a mojo for each Tree: full uptime is paid something. */
  lemma NotExhaustedPays(trees: seq<Tree>, day: nat, pool: nat)
    requires !SomeNegative(trees) && FullUptime(trees) && Weighted(trees) != []
    requires !IsExhausted(pool, |Weighted(trees)|) && |Weighted(trees)| <= Scheduled(day)
    ensures Pays(trees, DailyCeilingMojos(day, pool).value.ceiling) >= 1
  {
    CeilingIsTheSmaller(day, pool);
    var n := |Weighted(trees)|;
    AtLeastOneEach(pool, n);
    hide Weighted, Scheduled, DailyCeilingMojos, Distributed, FullUptime, SomeNegative, TotalWeight;
    DistributedWithinCeiling(trees, DailyCeilingMojos(day, pool).value.ceiling);
  }

  lemma AtLeastOneEach(pool: int, n: nat)
    requires n > 0 && pool > 0
    ensures IsExhausted(pool, n) <==> pool < n
  {}

  // No Tree's share is worth a mojo.

  /** Nothing is paid when no Tree's unrounded share reaches one. */
  lemma SharesBelowOne(trees: seq<Tree>, ceiling: nat)
    requires !SomeNegative(trees)
    requires forall t :: t in trees && Counts(t) ==>
               TotalWeight(trees) > 0.0 && Quota(ceiling, Share(WeightOf(t), TotalWeight(trees))) < 1.0
    ensures Pays(trees, ceiling) == 0
  {
    EmptyTotal();
    if Weighted(trees) != [] {
      RewardInvariance.DistributedIsEarned(trees, ceiling);
      WeightedCount(trees);
      var total := TotalWeight(trees);
      var amounts := Map(AmountOf, Map(Rewarder(total, ceiling), Weighted(trees)));
      hide Quota, Share, TotalWeight, WeightOf, Counts;
      forall i | 0 <= i < |amounts| ensures amounts[i] == 0 {
        var t := Weighted(trees)[i];
        WeightedMembers(trees, t);
        RewardBounds(t, total, ceiling);
      }
      AllZero(amounts);
    }
  }

  lemma {:induction false} AllZero(a: seq<int>)
    requires forall i :: 0 <= i < |a| ==> a[i] == 0
    ensures Total(a) == 0
  {
    if a != [] { AllZero(a[..|a| - 1]); }
  }

  lemma {:induction false} SumOfEqual(s: seq<real>, w: real)
    requires forall i :: 0 <= i < |s| ==> s[i] == w
    ensures Sum(s) == |s| as real * w
  {
    if s != [] { SumOfEqual(s[..|s| - 1], w); }
  }

  lemma EqualWeightsTotal(trees: seq<Tree>, t: Tree)
    requires EqualWeights(trees) && t in trees && Counts(t)
    ensures TotalWeight(trees) == |Weighted(trees)| as real * WeightOf(t)
  {
    var ws := Weighted(trees);
    WeightedCount(trees);
    hide Counts, WeightOf, Weighted;
    forall i | 0 <= i < |ws| ensures Map(WeightOf, ws)[i] == WeightOf(t) {
      WeightedMembers(trees, ws[i]);
    }
    SumOfEqual(Map(WeightOf, ws), WeightOf(t));
  }

  lemma EqualWeightsUnpaid(trees: seq<Tree>, ceiling: nat)
    requires !SomeNegative(trees) && EqualWeights(trees) && ceiling < |Weighted(trees)|
    ensures Pays(trees, ceiling) == 0
  {
    hide Weighted, WeightOf, Quota, Share, TotalWeight, EqualWeights, SomeNegative, Pays;
    forall t | t in trees && Counts(t)
      ensures TotalWeight(trees) > 0.0 && Quota(ceiling, Share(WeightOf(t), TotalWeight(trees))) < 1.0
    {
      EqualWeightsTotal(trees, t);
      EqualShare(ceiling, |Weighted(trees)|, WeightOf(t));
    }
    SharesBelowOne(trees, ceiling);
  }

  /** With equal weights, fewer mojos than Trees pay nobody, and at full uptime that is the only way. */
  lemma EqualWeightsPayExactlyWhen(trees: seq<Tree>, ceiling: nat)
    requires !SomeNegative(trees) && EqualWeights(trees) && Weighted(trees) != []
    ensures ceiling < |Weighted(trees)| ==> Pays(trees, ceiling) == 0
    ensures FullUptime(trees) ==> (Pays(trees, ceiling) >= 1 <==> ceiling >= |Weighted(trees)|)
  {
    hide Weighted, TotalWeight, Distributed, FullUptime, SomeNegative, EqualWeights, Counts;
    if ceiling < |Weighted(trees)| { EqualWeightsUnpaid(trees, ceiling); }
    DistributedWithinCeiling(trees, ceiling);
  }

  lemma EqualShare(ceiling: nat, n: nat, w: real)
    requires ceiling < n && w > 0.0
    ensures n as real * w > 0.0 && Quota(ceiling, Share(w, n as real * w)) < 1.0
  {
    ProductPositive(n as real, w);
    QuotaBelowOne(ceiling, w, n as real * w);
  }

  /** A share is worth less than a mojo when ceiling times weight is below the total. */
  lemma QuotaBelowOne(ceiling: nat, w: real, total: real)
    requires total > 0.0 && w >= 0.0
    ensures Quota(ceiling, Share(w, total)) < 1.0 <==> ceiling as real * w < total
  {
    var s := Share(w, total);
    assert s * total == w;
    var q := Quota(ceiling, s);
    QuotaTimesTotal(ceiling as real, s, total);
    if q < 1.0 {
      ProductPositive(1.0 - q, total);
    } else {
      ProductSign(q - 1.0, total);
    }
  }

  lemma QuotaTimesTotal(c: real, s: real, total: real)
    ensures (c * s) * total == c * (s * total)
  {}

  lemma {:induction false} TotalAtLeast(s: seq<Tree>, t: Tree)
    requires t in s && forall i :: 0 <= i < |s| ==> Counts(s[i])
    ensures Sum(Map(WeightOf, s)) >= WeightOf(t) + (|s| - 1) as real
  {
    var m := |s| - 1;
    var front, last := s[..m], s[m];
    assert Map(WeightOf, s)[..m] == Map(WeightOf, front);
    WeightRange(last.sensors, last.sensors);
    assert s == front + [last];
    if t in front {
      TotalAtLeast(front, t);
    } else {
      AtLeastCount(front);
    }
  }

  lemma {:induction false} AtLeastCount(s: seq<Tree>)
    requires forall i :: 0 <= i < |s| ==> Counts(s[i])
    ensures Sum(Map(WeightOf, s)) >= |s| as real
  {
    if s != [] {
      var m := |s| - 1;
      assert Map(WeightOf, s)[..m] == Map(WeightOf, s[..m]);
      WeightRange(s[m].sensors, s[m].sensors);
      AtLeastCount(s[..m]);
    }
  }

  /** Whatever the weights and the uptime: four mojos for every five Trees, or fewer, pay nobody. */
  lemma FourFifthsPayNobody(trees: seq<Tree>, ceiling: nat)
    requires !SomeNegative(trees) && 5 * ceiling <= 4 * |Weighted(trees)|
    ensures Pays(trees, ceiling) == 0
  {
    var n := |Weighted(trees)|;
    WeightsArePositive(trees);
    WeightedCount(trees);
    forall t | t in trees && Counts(t)
      ensures TotalWeight(trees) > 0.0 && Quota(ceiling, Share(WeightOf(t), TotalWeight(trees))) < 1.0
    {
      WeightedMembers(trees, t);
      WeightRange(t.sensors, t.sensors);
      TotalAtLeast(Weighted(trees), t);
      ShareIsSmall(ceiling, n, WeightOf(t), TotalWeight(trees));
    }
    hide Weighted, TotalWeight, WeightOf, Counts, Quota, Share;
    SharesBelowOne(trees, ceiling);
  }

  lemma ShareIsSmall(ceiling: nat, n: nat, w: real, total: real)
    requires 1.0 <= w <= 1.25 && total >= w + n as real - 1.0 && n >= 1 && 5 * ceiling <= 4 * n
    ensures total > 0.0 && Quota(ceiling, Share(w, total)) < 1.0
  {
    if ceiling > 0 { ProductMonotone((ceiling - 1) as real, w, (ceiling - 1) as real, 1.25); }
    QuotaBelowOne(ceiling, w, total);
  }

  // ... and that is the exact limit.

  function Name(i: nat): string { seq(i + 1, _ => 'a') }

  function FleetTree(i: nat): Tree {
    TreeDay(Name(i), "w", if i == 0 then 6 else 1, 24, true, None, "oracle-hours")
  }

  /** n Trees with different ids, all up all day, the first with six sensors and the others with one. */
  function Fleet(n: nat): (r: seq<Tree>)
    ensures |r| == n
  {
    seq(n, i requires 0 <= i < n => FleetTree(i))
  }

  lemma {:induction false} AllWeighted(trees: seq<Tree>)
    requires forall i :: 0 <= i < |trees| ==> Counts(trees[i])
    ensures Weighted(trees) == trees
  {
    if trees != [] {
      AllWeighted(trees[..|trees| - 1]);
      assert trees == trees[..|trees| - 1] + [trees[|trees| - 1]];
    }
  }

  lemma {:induction false} FleetTotal(n: nat)
    requires n >= 1
    ensures Sum(Map(WeightOf, Fleet(n))) == n as real + 0.25
  {
    assert SensorWeight(6) == 1.25 && SensorWeight(1) == 1.0;
    hide SensorWeight;
    var ws := Map(WeightOf, Fleet(n));
    assert ws[n - 1] == if n == 1 then 1.25 else 1.0;
    assert ws[..n - 1] == Map(WeightOf, Fleet(n - 1));
    EmptySum();
    if n > 1 {
      FleetTotal(n - 1);
    } else {
      assert ws[..0] == [];
    }
  }

  /** Above four fifths of a mojo per Tree, this fleet is paid: `is_exhausted` says otherwise whenever
      the pool is smaller than the number of Trees. */
  lemma FleetIsPaid(n: nat, ceiling: nat)
    requires n >= 1 && 5 * ceiling > 4 * n
    ensures !SomeNegative(Fleet(n)) && FullUptime(Fleet(n)) && |Weighted(Fleet(n))| == n
    ensures forall i, j :: 0 <= i < j < n ==> Fleet(n)[i].tree != Fleet(n)[j].tree
    ensures Pays(Fleet(n), ceiling) >= 1
  {
    FleetFacts(n);
    FirstIsPaid(n, ceiling);
    assert Fleet(n)[0] == FleetTree(0);
    hide *;
    SomebodyIsPaid(Fleet(n), ceiling, 0);
  }

  /** One reward of a mojo is enough for the day to pay. */
  lemma SomebodyIsPaid(trees: seq<Tree>, ceiling: nat, i: nat)
    requires !SomeNegative(trees) && Weighted(trees) == trees && i < |trees| && TotalWeight(trees) > 0.0
    requires RewardOf(trees[i], TotalWeight(trees), ceiling).reward >= 1
    ensures Pays(trees, ceiling) >= 1
  {
    hide TotalWeight, Weighted, Counts, RewardOf, Distributed, SomeNegative;
    RewardInvariance.DistributedIsEarned(trees, ceiling);
    WeightedCount(trees);
    SumOfRewards(trees, TotalWeight(trees), ceiling, i);
  }

  lemma SumOfRewards(trees: seq<Tree>, total: real, ceiling: nat, i: nat)
    requires i < |trees| && total > 0.0 && forall k :: 0 <= k < |trees| ==> Counts(trees[k])
    ensures Distributed(Map(Rewarder(total, ceiling), trees)) >= RewardOf(trees[i], total, ceiling).reward
  {
    hide Counts, Quota, Share, RewardOf;
    var amounts := Map(AmountOf, Map(Rewarder(total, ceiling), trees));
    forall k | 0 <= k < |trees| ensures amounts[k] >= 0 {
      RewardBounds(trees[k], total, ceiling);
    }
    OneOfTotal(amounts, i);
  }

  lemma FleetFacts(n: nat)
    requires n >= 1
    ensures !SomeNegative(Fleet(n)) && FullUptime(Fleet(n)) && Weighted(Fleet(n)) == Fleet(n)
    ensures TotalWeight(Fleet(n)) == n as real + 0.25
    ensures forall i, j :: 0 <= i < j < n ==> Fleet(n)[i].tree != Fleet(n)[j].tree
  {
    var trees := Fleet(n);
    forall i | 0 <= i < n ensures Counts(trees[i]) { FleetCounts(i); }
    hide Weighted, WeightOf;
    AllWeighted(trees);
    FleetTotal(n);
    forall i, j | 0 <= i < j < n ensures trees[i].tree != trees[j].tree {
      assert |trees[i].tree| == i + 1 && |trees[j].tree| == j + 1;
    }
  }

  lemma FleetCounts(i: nat)
    ensures Counts(FleetTree(i))
  {}

  lemma FirstIsPaid(n: nat, ceiling: nat)
    requires n >= 1 && 5 * ceiling > 4 * n
    ensures RewardOf(FleetTree(0), n as real + 0.25, ceiling).reward >= 1
  {
    var t, total := FleetTree(0), n as real + 0.25;
    FleetCounts(0);
    assert WeightOf(t) == 1.25;
    hide WeightOf, Counts;
    RewardBounds(t, total, ceiling);
    QuotaBelowOne(ceiling, 1.25, total);
    hide Quota, Share;
  }

  lemma {:induction false} OneOfTotal(a: seq<int>, i: nat)
    requires i < |a| && forall k :: 0 <= k < |a| ==> a[k] >= 0
    ensures Total(a) >= a[i]
  {
    TotalNonNegative(a[..|a| - 1]);
    if i < |a| - 1 { OneOfTotal(a[..|a| - 1], i); }
  }

  /** Nothing can be paid to any fleet of n rewarded Trees exactly up to four fifths of a mojo each. */
  lemma NothingPayableExactlyWhen(n: nat, ceiling: nat)
    requires n >= 1
    ensures (forall trees: seq<Tree> :: !SomeNegative(trees) && |Weighted(trees)| == n ==> Pays(trees, ceiling) == 0)
            <==> 5 * ceiling <= 4 * n
  {
    if 5 * ceiling <= 4 * n {
      forall trees: seq<Tree> | !SomeNegative(trees) && |Weighted(trees)| == n ensures Pays(trees, ceiling) == 0 {
        FourFifthsPayNobody(trees, ceiling);
      }
    } else {
      FleetIsPaid(n, ceiling);
    }
  }

  /** n Trees with one sensor each, all up all day. */
  function Plain(n: nat): (r: seq<Tree>)
    ensures |r| == n
  {
    seq(n, i requires 0 <= i < n => FleetTree(i + 1))
  }

  lemma PlainFacts(n: nat)
    ensures !SomeNegative(Plain(n)) && FullUptime(Plain(n)) && EqualWeights(Plain(n)) && Weighted(Plain(n)) == Plain(n)
  {
    var trees := Plain(n);
    assert forall t :: t in trees ==> t.sensors == 1 && t.heartbeats == 24;
    assert !SomeNegative(trees) && FullUptime(trees) && EqualWeights(trees);
    hide Weighted, Plain, WeightOf, SensorWeight, SomeNegative, FullUptime, EqualWeights;
    forall i | 0 <= i < n ensures Counts(trees[i]) { PlainCounts(n, i); }
    AllWeighted(trees);
  }

  lemma PlainCounts(n: nat, i: nat)
    requires i < n
    ensures Counts(Plain(n)[i])
  {
    FleetCounts(i + 1);
  }

  /** Full uptime pays every fleet of n rewarded Trees something, whatever their weights, exactly when the
      programme is not exhausted and the day's schedule allows a mojo for each. */
  lemma FullUptimePaysExactlyWhen(n: nat, day: nat, pool: nat)
    requires n >= 1
    ensures DailyCeilingMojos(day, pool).Ok?
    ensures (forall trees: seq<Tree> :: !SomeNegative(trees) && FullUptime(trees) && |Weighted(trees)| == n ==>
               Pays(trees, DailyCeilingMojos(day, pool).value.ceiling) >= 1)
            <==> !IsExhausted(pool, n) && n <= Scheduled(day)
  {
    CeilingIsTheSmaller(day, pool);
    if pool > 0 { AtLeastOneEach(pool, n); }
    var ceiling := DailyCeilingMojos(day, pool).value.ceiling;
    hide Weighted, Scheduled, DailyCeilingMojos, FullUptime, SomeNegative, Pays, EqualWeights, Plain;
    if !IsExhausted(pool, n) && n <= Scheduled(day) {
      forall trees: seq<Tree> | !SomeNegative(trees) && FullUptime(trees) && |Weighted(trees)| == n
        ensures Pays(trees, ceiling) >= 1
      {
        NotExhaustedPays(trees, day, pool);
      }
    } else {
      PlainFacts(n);
      EqualWeightsPayExactlyWhen(Plain(n), ceiling);
    }
  }

  /** Five mojos and six Trees: declared exhausted, and still a Tree is paid. */
  lemma ExhaustedTooSoon()
    ensures IsExhausted(5, 6) && Pays(Fleet(6), DailyCeilingMojos(0, 5).value.ceiling) >= 1
  {
    FleetIsPaid(6, 5);
  }
}

/** One day's rewards (orchard_chia/economics/rewards.py).

    The day's ceiling is shared in proportion to sensor weights, each share is scaled by uptime and
    floored, and what is not earned stays in the pool. The fractions are exact, so reals stand for
    them. */
module Rewards {
  import opened Ordering
  import opened Sums
  import opened Apportionment

  const HEARTBEATS_PER_DAY := 24

  datatype TreeDay = TreeDay(tree: string, wallet: string, sensors: int, heartbeats: int, eligible: bool,
                             reason: Option<string>, basis: string)

  /** What the constructor enforces. */
  predicate WellFormed(t: TreeDay) {
    t.tree != "" && 0 <= t.heartbeats <= HEARTBEATS_PER_DAY && (t.eligible ==> t.wallet != "")
  }

  type Tree = t: TreeDay | WellFormed(t) witness TreeDay("t", "w", 1, 0, true, None, "oracle-hours")

  datatype TreeReward = TreeReward(tree: string, wallet: string, weight: real, heartbeats: nat, factor: real,
                                   potential: int, reward: int, share: real, basis: string)

  datatype DailyRewards = DailyRewards(ceiling: int, totalWeight: real, rewards: seq<TreeReward>,
                                       ineligible: seq<Tree>, noEligibleTrees: bool)

  datatype RewardError = NegativeCeiling | NegativeSensors | OverCeiling

  // Weights.

  function SensorWeight(sensors: int): real {
    if sensors < 1 then 0.0
    else
      var w := 1.0 + (sensors - 1) as real / 20.0;
      if w < 1.25 then w else 1.25
  }

  function WeightOf(t: Tree): real { SensorWeight(t.sensors) }

  /** One sensor counts once, six count 1.25, and no more than that. */
  lemma WeightRange(a: int, b: int)
    ensures a >= 1 ==> 1.0 <= SensorWeight(a) <= 1.25
    ensures a < 1 ==> SensorWeight(a) == 0.0
    ensures a <= b ==> SensorWeight(a) <= SensorWeight(b)
    ensures a >= 6 ==> SensorWeight(a) == 1.25
  {}

  /** Each sensor from the second to the sixth adds exactly one twentieth. */
  lemma EachSensorAddsATwentieth(sensors: int)
    ensures SensorWeight(1) == 1.0
    ensures SensorWeight(sensors) - SensorWeight(sensors - 1) == 0.05 <==> 2 <= sensors <= 6
  {
    assert sensors <= 6 ==> (sensors - 1) as real / 20.0 <= 0.25;
  }

  predicate Counts(t: Tree) { t.eligible && WeightOf(t) > 0.0 }

  /** The Trees that share the day, in the order given. */
  function Weighted(trees: seq<Tree>): seq<Tree> {
    if trees == [] then []
    else
      var front, t := Weighted(trees[..|trees| - 1]), trees[|trees| - 1];
      if Counts(t) then front + [t] else front
  }

  function TotalWeight(trees: seq<Tree>): real { Sum(Map(WeightOf, Weighted(trees))) }

  function NotEligible(trees: seq<Tree>): seq<Tree> {
    if trees == [] then []
    else
      var front, t := NotEligible(trees[..|trees| - 1]), trees[|trees| - 1];
      if t.eligible then front else front + [t]
  }

  function Dropped(t: Tree): Tree {
    t.(eligible := false,
       reason := if t.reason.Some? && t.reason.value != "" then t.reason else Some("no qualifying sensor this season"))
  }

  function WithoutSensor(trees: seq<Tree>): seq<Tree> {
    if trees == [] then []
    else
      var front, t := WithoutSensor(trees[..|trees| - 1]), trees[|trees| - 1];
      if t.eligible && WeightOf(t) <= 0.0 then front + [Dropped(t)] else front
  }

  predicate SomeNegative(trees: seq<Tree>) {
    exists t :: t in trees && t.eligible && t.sensors < 0
  }

  // Rewards.

  function Factor(t: Tree): real { t.heartbeats as real / 24.0 }

  /** What a Tree earned, before the floor. */
  function Exact(ceiling: int, weight: real, total: real, factor: real): real
    requires total != 0.0
  {
    Quota(ceiling, Share(weight, total)) * factor
  }

  function RewardOf(t: Tree, total: real, ceiling: int): TreeReward
    requires total != 0.0
  {
    var w := WeightOf(t);
    TreeReward(t.tree, t.wallet, w, t.heartbeats, Factor(t), Quota(ceiling, Share(w, total)).Floor,
               Exact(ceiling, w, total, Factor(t)).Floor, Share(w, total), t.basis)
  }

  function Rewarder(total: real, ceiling: int): Tree -> TreeReward
    requires total != 0.0
  {
    (t: Tree) => RewardOf(t, total, ceiling)
  }

  function KeyOf(t: Tree): (string, string) { (t.tree, t.wallet) }

  predicate KeyLe(a: Tree, b: Tree) { TextPairLe(KeyOf(a), KeyOf(b)) }

  lemma KeyOrder()
    ensures TotalPreorder(KeyLe)
  {
    TextPairOrder();
    hide TextPairLe;
  }

  function AmountOf(r: TreeReward): int { r.reward }

  function Distributed(rewards: seq<TreeReward>): int { Total(Map(AmountOf, rewards)) }

  function Daily(trees: seq<Tree>, ceiling: int): Result<DailyRewards, RewardError> {
    var ineligible := NotEligible(trees) + WithoutSensor(trees);
    if ceiling < 0 then Err(NegativeCeiling)
    else if SomeNegative(trees) then Err(NegativeSensors)
    else if Weighted(trees) == [] then Ok(DailyRewards(ceiling, 0.0, [], ineligible, true))
    else
      WeightsArePositive(trees);
      var total := TotalWeight(trees);
      Ok(DailyRewards(ceiling, total, Map(Rewarder(total, ceiling), Sort(KeyLe, Weighted(trees))), ineligible, false))
  }

  lemma {:induction false} WeightedCount(trees: seq<Tree>)
    ensures forall i :: 0 <= i < |Weighted(trees)| ==> Counts(Weighted(trees)[i])
    ensures |Weighted(trees)| <= |trees|
  {
    if trees != [] { WeightedCount(trees[..|trees| - 1]); }
  }

  lemma WeightsArePositive(trees: seq<Tree>)
    ensures TotalWeight(trees) >= 0.0 && (TotalWeight(trees) > 0.0 <==> Weighted(trees) != [])
  {
    WeightedCount(trees);
    var ws := Map(WeightOf, Weighted(trees));
    SumSign(ws);
    if Weighted(trees) != [] { assert ws[0] > 0.0; }
  }

  // The loops.

  method Sift(trees: seq<Tree>) returns (weighted: seq<Tree>, ineligible: seq<Tree>)
    ensures weighted == Weighted(trees) && ineligible == NotEligible(trees) + WithoutSensor(trees)
  {
    weighted := [];
    var out, dropped: seq<Tree> := [], [];
    for i := 0 to |trees|
      invariant weighted == Weighted(trees[..i])
      invariant out == NotEligible(trees[..i]) && dropped == WithoutSensor(trees[..i])
    {
      assert trees[..i + 1][..i] == trees[..i];
      var t := trees[i];
      if !t.eligible {
        out := out + [t];
      } else if WeightOf(t) > 0.0 {
        weighted := weighted + [t];
      } else {
        dropped := dropped + [Dropped(t)];
      }
    }
    assert trees[..|trees|] == trees;
    ineligible := out + dropped;
  }

  method RewardAll(ordered: seq<Tree>, total: real, ceiling: int) returns (rewards: seq<TreeReward>)
    requires total != 0.0
    ensures rewards == Map(Rewarder(total, ceiling), ordered)
  {
    hide RewardOf;
    rewards := [];
    for i := 0 to |ordered|
      invariant rewards == Map(Rewarder(total, ceiling), ordered)[..i]
    {
      rewards := rewards + [RewardOf(ordered[i], total, ceiling)];
    }
  }

  /** OverCeiling, the program's own last check, is never returned. */
  method CalculateDailyRewards(trees: seq<Tree>, ceiling: int) returns (r: Result<DailyRewards, RewardError>)
    ensures r == Daily(trees, ceiling)
  {
    hide Weighted, NotEligible, WithoutSensor, TotalWeight, Rewarder, Sort;
    if ceiling < 0 { return Err(NegativeCeiling); }
    if SomeNegative(trees) { return Err(NegativeSensors); }
    var weighted, ineligible := Sift(trees);
    if weighted == [] {
      return Ok(DailyRewards(ceiling, 0.0, [], ineligible, true));
    }
    WeightsArePositive(trees);
    assert TotalWeight(trees) == Sum(Map(WeightOf, weighted)) by { TotalWeightIs(trees); }
    var total := Sum(Map(WeightOf, weighted));
    var rewards := RewardAll(Sort(KeyLe, weighted), total, ceiling);
    DistributedWithinCeiling(trees, ceiling);
    if Distributed(rewards) > ceiling { return Err(OverCeiling); }
    return Ok(DailyRewards(ceiling, total, rewards, ineligible, false));
  }

  lemma TotalWeightIs(trees: seq<Tree>)
    ensures TotalWeight(trees) == Sum(Map(WeightOf, Weighted(trees)))
  {}

  // What one Tree earns.

  lemma ExactBounds(ceiling: nat, weight: real, total: real, factor: real)
    requires 0.0 <= weight && 0.0 < total && 0.0 <= factor <= 1.0
    ensures 0.0 <= Exact(ceiling, weight, total, factor) <= Quota(ceiling, Share(weight, total))
    ensures factor == 1.0 ==> Exact(ceiling, weight, total, factor) == Quota(ceiling, Share(weight, total))
  {
    ShareSign(weight, total);
    var q := Quota(ceiling, Share(weight, total));
    ProductSign(ceiling as real, Share(weight, total));
    ProductSign(q, factor);
    ProductSign(q, 1.0 - factor);
  }

  lemma ShareSign(weight: real, total: real)
    requires 0.0 <= weight && 0.0 < total
    ensures Share(weight, total) >= 0.0
  {}

  lemma ProductSign(x: real, y: real)
    requires x >= 0.0 && y >= 0.0
    ensures x * y >= 0.0
  {}

  lemma ProductMonotone(x: real, y: real, x': real, y': real)
    requires 0.0 <= x <= x' && 0.0 <= y <= y'
    ensures 0.0 <= x * y <= x' * y'
  {
    ProductSign(x, y);
    ProductSign(x, y' - y);
    ProductSign(x' - x, y');
  }

  /** More share or more uptime never earns less. */
  lemma ExactMonotone(ceiling: nat, w: real, t: real, f: real, w': real, t': real, f': real)
    requires 0.0 <= w && 0.0 <= w' && 0.0 < t && 0.0 < t' && 0.0 <= f <= f'
    requires Share(w, t) <= Share(w', t')
    ensures Exact(ceiling, w, t, f) <= Exact(ceiling, w', t', f')
  {
    ShareSign(w, t);
    ProductMonotone(ceiling as real, Share(w, t), ceiling as real, Share(w', t'));
    ProductMonotone(Quota(ceiling, Share(w, t)), f, Quota(ceiling, Share(w', t')), f');
  }

  lemma ShareFalls(w: real, t: real, t': real)
    requires 0.0 <= w && 0.0 < t <= t'
    ensures Share(w, t') <= Share(w, t)
  {
    ProductMonotone(w, t, w, t');
    CrossMultiply(w, t', w, t);
  }

  lemma CrossMultiply(a: real, b: real, c: real, d: real)
    requires b > 0.0 && d > 0.0 && a * d <= c * b
    ensures Share(a, b) <= Share(c, d)
  {
    var x, y := a / b, c / d;
    assert a == x * b && c == y * d;
    if x > y {
      ProductPositive(x - y, b * d);
      assert (x - y) * (b * d) == (x * b) * d - (y * d) * b;
    }
  }

  lemma ProductPositive(x: real, y: real)
    requires x > 0.0 && y > 0.0
    ensures x * y > 0.0
  {}

  /** What a Tree earns on a day with these Trees. */
  function Earned(trees: seq<Tree>, ceiling: nat, t: Tree): int
    requires Weighted(trees) != []
  {
    WeightsArePositive(trees);
    RewardOf(t, TotalWeight(trees), ceiling).reward
  }

  lemma FactorRange(t: Tree)
    ensures 0.0 <= Factor(t) <= 1.0 && (t.heartbeats == 24 ==> Factor(t) == 1.0)
  {}

  /** The unrounded shares of the ceiling, in the order the Trees are rewarded. */
  function SharesOf(ordered: seq<Tree>, total: real, ceiling: int): (r: seq<real>)
    requires total != 0.0
    ensures |r| == |ordered|
  {
    Quotas(Shares(Map(WeightOf, ordered), total), ceiling)
  }

  lemma SharesSumToCeiling(ordered: seq<Tree>, ceiling: int)
    requires Sum(Map(WeightOf, ordered)) != 0.0
    ensures Sum(SharesOf(ordered, Sum(Map(WeightOf, ordered)), ceiling)) == ceiling as real
  {
    QuotasSumToBudget(Map(WeightOf, ordered), ceiling);
  }

  lemma RewardBounds(t: Tree, total: real, ceiling: nat)
    requires Counts(t) && total > 0.0
    ensures var q := Quota(ceiling, Share(WeightOf(t), total));
            var r := RewardOf(t, total, ceiling);
            0 <= r.reward <= r.potential && r.potential as real <= q
            && (t.heartbeats == 24 ==> r.reward == r.potential && q < r.reward as real + 1.0)
  {
    FactorRange(t);
    ExactBounds(ceiling, WeightOf(t), total, Factor(t));
  }

  lemma OrderedTrees(trees: seq<Tree>)
    ensures var s := Sort(KeyLe, Weighted(trees));
            && multiset(s) == multiset(Weighted(trees)) && |s| == |Weighted(trees)|
            && Sum(Map(WeightOf, s)) == TotalWeight(trees)
            && (forall i :: 0 <= i < |s| ==> Counts(s[i]) && s[i] in trees)
  {
    KeyOrder();
    hide KeyLe;
    SortIsSortedPermutation(KeyLe, Weighted(trees));
    var s := Sort(KeyLe, Weighted(trees));
    MapPermutes(WeightOf, s, Weighted(trees));
    SumPermutes(Map(WeightOf, s), Map(WeightOf, Weighted(trees)));
    forall i | 0 <= i < |s| ensures Counts(s[i]) && s[i] in trees {
      assert s[i] in multiset(Weighted(trees));
      WeightedMembers(trees, s[i]);
    }
  }

  lemma {:induction false} WeightedMembers(trees: seq<Tree>, t: Tree)
    ensures t in Weighted(trees) <==> t in trees && Counts(t)
  {
    if trees != [] {
      WeightedMembers(trees[..|trees| - 1], t);
      assert trees == trees[..|trees| - 1] + [trees[|trees| - 1]];
    }
  }

  predicate FullUptime(trees: seq<Tree>) {
    forall t :: t in trees && Counts(t) ==> t.heartbeats == 24
  }

  /** A day never distributes more than its ceiling, and at full uptime leaves less than one mojo for
      every rewarded Tree. */
  lemma DistributedWithinCeiling(trees: seq<Tree>, ceiling: nat)
    ensures Daily(trees, ceiling).Ok? ==>
              var r := Daily(trees, ceiling).value;
              && 0 <= Distributed(r.rewards) <= ceiling
              && |r.rewards| == |Weighted(trees)|
              && (r.rewards != [] && FullUptime(trees) ==> ceiling - Distributed(r.rewards) < |r.rewards|)
  {
    EmptyTotal();
    if Daily(trees, ceiling).Ok? && Weighted(trees) != [] {
      WeightsArePositive(trees);
      OrderedTrees(trees);
      var total, s := TotalWeight(trees), Sort(KeyLe, Weighted(trees));
      var rewards := Map(Rewarder(total, ceiling), s);
      hide Weighted, TotalWeight, Sort, KeyLe, Counts, Quota, Share;
      var q, a := SharesOf(s, total, ceiling), Map(AmountOf, rewards);
      SharesSumToCeiling(s, ceiling);
      forall i | 0 <= i < |s|
        ensures 0 <= a[i] && a[i] as real <= q[i] && (s[i].heartbeats == 24 ==> q[i] < a[i] as real + 1.0)
      {
        RewardBounds(s[i], total, ceiling);
      }
      TotalWithinSum(a, q);
      TotalNonNegative(a);
    }
  }

  lemma {:induction false} TotalNonNegative(a: seq<int>)
    requires forall i :: 0 <= i < |a| ==> a[i] >= 0
    ensures Total(a) >= 0
  {
    if a != [] { TotalNonNegative(a[..|a| - 1]); }
  }

  // What changing one thing changes.

  /** The rewards of a day, whatever their order: what each weighted Tree earned. */
  lemma RewardsAreEarned(trees: seq<Tree>, ceiling: nat)
    ensures Daily(trees, ceiling).Ok? && Weighted(trees) != [] ==>
              && TotalWeight(trees) > 0.0
              && multiset(Daily(trees, ceiling).value.rewards)
                 == multiset(Map(Rewarder(TotalWeight(trees), ceiling), Weighted(trees)))
  {
    if Daily(trees, ceiling).Ok? && Weighted(trees) != [] {
      WeightsArePositive(trees);
      OrderedTrees(trees);
      MapPermutes(Rewarder(TotalWeight(trees), ceiling), Sort(KeyLe, Weighted(trees)), Weighted(trees));
    }
  }

  lemma {:induction false} WeightedAppend(a: seq<Tree>, b: seq<Tree>)
    ensures Weighted(a + b) == Weighted(a) + Weighted(b)
  {
    if b == [] {
      assert a + b == a;
    } else {
      assert (a + b)[..|a + b| - 1] == a + b[..|b| - 1];
      WeightedAppend(a, b[..|b| - 1]);
    }
  }

  lemma WeightedOne(t: Tree)
    ensures Weighted([t]) == Kept(t)
  {
    assert [t][..0] == [];
  }

  lemma MapAppend<A, B>(f: A -> B, a: seq<A>, b: seq<A>)
    ensures Map(f, a + b) == Map(f, a) + Map(f, b)
  {}

  function Kept(t: Tree): seq<Tree> { if Counts(t) then [t] else [] }

  lemma TotalWeightAppend(a: seq<Tree>, b: seq<Tree>)
    ensures TotalWeight(a + b) == TotalWeight(a) + TotalWeight(b)
  {
    WeightedAppend(a, b);
    hide Weighted;
    MapAppend(WeightOf, Weighted(a), Weighted(b));
    SumAppend(Map(WeightOf, Weighted(a)), Map(WeightOf, Weighted(b)));
  }

  lemma TotalWeightOne(t: Tree)
    ensures TotalWeight([t]) == WeightIn(t)
  {
    WeightedOne(t);
    OneSum(t);
    hide Weighted, WeightIn, Kept;
  }

  lemma MapWeightedAppend<B>(f: Tree -> B, a: seq<Tree>, b: seq<Tree>)
    ensures multiset(Map(f, Weighted(a + b))) == multiset(Map(f, Weighted(a))) + multiset(Map(f, Weighted(b)))
  {
    WeightedAppend(a, b);
    hide Weighted;
    MapAppend(f, Weighted(a), Weighted(b));
  }

  /** The Trees before, at and after position i. */
  lemma MapWeightedSplit<B>(f: Tree -> B, trees: seq<Tree>, i: nat)
    requires i < |trees|
    ensures multiset(Map(f, Weighted(trees))) ==
            multiset(Map(f, Weighted(trees[..i]))) + multiset(Map(f, Kept(trees[i])))
            + multiset(Map(f, Weighted(trees[i + 1..])))
  {
    hide Weighted, Kept, Map;
    var t := trees[i];
    assert trees == trees[..i] + trees[i..];
    assert trees[i..] == [t] + trees[i + 1..];
    MapWeightedAppend(f, trees[..i], trees[i..]);
    MapWeightedAppend(f, [t], trees[i + 1..]);
    assert multiset(Map(f, Weighted(trees[i..])))
           == multiset(Map(f, Weighted([t]))) + multiset(Map(f, Weighted(trees[i + 1..])));
    assert multiset(Map(f, Weighted(trees)))
           == multiset(Map(f, Weighted(trees[..i]))) + multiset(Map(f, Weighted(trees[i..])));
    WeightedOne(t);
    hide *;
  }

  lemma TotalWeightSplit(trees: seq<Tree>, i: nat)
    requires i < |trees|
    ensures TotalWeight(trees) == TotalWeight(trees[..i]) + WeightIn(trees[i]) + TotalWeight(trees[i + 1..])
  {
    hide TotalWeight, WeightIn;
    var t := trees[i];
    assert trees == trees[..i] + trees[i..] && trees[i..] == [t] + trees[i + 1..];
    TotalWeightAppend(trees[..i], trees[i..]);
    TotalWeightAppend([t], trees[i + 1..]);
    TotalWeightOne(t);
  }

  /** What a Tree adds to the day's total weight. */
  function WeightIn(t: Tree): real { if Counts(t) then WeightOf(t) else 0.0 }

  lemma OneSum(t: Tree)
    ensures Sum(Map(WeightOf, Kept(t))) == WeightIn(t)
  {
    assert Map(WeightOf, [t])[..0] == [];
  }

  lemma SwapRewards<B>(f: Tree -> B, trees: seq<Tree>, i: nat, t': Tree)
    requires i < |trees| && Counts(t') == Counts(trees[i])
    ensures var before, after := multiset(Map(f, Weighted(trees))), multiset(Map(f, Weighted(trees[i := t'])));
            if Counts(trees[i]) then after + multiset{f(trees[i])} == before + multiset{f(t')} else after == before
  {
    hide Weighted, Counts;
    var t, trees' := trees[i], trees[i := t'];
    assert trees'[..i] == trees[..i] && trees'[i + 1..] == trees[i + 1..];
    MapWeightedSplit(f, trees, i);
    MapWeightedSplit(f, trees', i);
    assert Map(f, Kept(t)) == if Counts(t) then [f(t)] else [];
    assert Map(f, Kept(t')) == if Counts(t') then [f(t')] else [];
  }

  lemma SwapKeepsTotal(trees: seq<Tree>, i: nat, t': Tree)
    requires i < |trees| && WeightIn(t') == WeightIn(trees[i])
    ensures TotalWeight(trees[i := t']) == TotalWeight(trees)
  {
    hide TotalWeight, WeightIn;
    var trees' := trees[i := t'];
    TotalWeightSplit(trees, i);
    TotalWeightSplit(trees', i);
    assert trees'[..i] == trees[..i] && trees'[i + 1..] == trees[i + 1..];
  }

  /** Changing one Tree's heartbeats changes that Tree's reward only, and more of them never earn less. */
  lemma HeartbeatsAreLocal(trees: seq<Tree>, i: nat, heartbeats: nat, ceiling: nat)
    requires i < |trees| && heartbeats <= HEARTBEATS_PER_DAY
    requires Daily(trees, ceiling).Ok? && Weighted(trees) != []
    ensures var t, t' := trees[i], trees[i].(heartbeats := heartbeats);
            var total := TotalWeight(trees);
            var before, after := Daily(trees, ceiling), Daily(trees[i := t'], ceiling);
            && total > 0.0 && after.Ok? && TotalWeight(trees[i := t']) == total
            && (!Counts(t) ==> multiset(after.value.rewards) == multiset(before.value.rewards))
            && (Counts(t) ==>
                  && multiset(after.value.rewards) + multiset{RewardOf(t, total, ceiling)}
                     == multiset(before.value.rewards) + multiset{RewardOf(t', total, ceiling)}
                  && (t.heartbeats <= heartbeats ==>
                        RewardOf(t, total, ceiling).reward <= RewardOf(t', total, ceiling).reward))
  {
    hide Weighted, TotalWeight, RewardOf, KeyLe, Sort, NotEligible, WithoutSensor;
    var t, t' := trees[i], trees[i].(heartbeats := heartbeats);
    var trees' := trees[i := t'];
    var total := TotalWeight(trees);
    WeightsArePositive(trees);
    WeightsArePositive(trees');
    NegativesStay(trees, i, t');
    SwapKeepsTotal(trees, i, t');
    RewardsAreEarned(trees, ceiling);
    RewardsAreEarned(trees', ceiling);
    SwapRewards(Rewarder(total, ceiling), trees, i, t');
    if Counts(t) && t.heartbeats <= heartbeats { MoreHeartbeats(t, heartbeats, total, ceiling); }
    hide Daily, Counts;
  }

  lemma NegativesStay(trees: seq<Tree>, i: nat, t': Tree)
    requires i < |trees| && (t'.eligible && t'.sensors < 0 ==> trees[i].eligible && trees[i].sensors < 0)
    ensures SomeNegative(trees[i := t']) ==> SomeNegative(trees)
  {
    if SomeNegative(trees[i := t']) {
      var k :| 0 <= k < |trees| && trees[i := t'][k].eligible && trees[i := t'][k].sensors < 0;
      assert trees[k] in trees;
    }
  }

  lemma MoreHeartbeats(t: Tree, heartbeats: nat, total: real, ceiling: nat)
    requires Counts(t) && total > 0.0 && t.heartbeats <= heartbeats <= 24
    ensures RewardOf(t, total, ceiling).reward <= RewardOf(t.(heartbeats := heartbeats), total, ceiling).reward
  {
    var t' := t.(heartbeats := heartbeats);
    FactorRange(t);
    FactorRange(t');
    assert Factor(t) <= Factor(t');
    ExactMonotone(ceiling, WeightOf(t), total, Factor(t), WeightOf(t), total, Factor(t'));
  }

  /** Another Tree, wherever it is listed, raises nobody's reward. */
  lemma AnotherTreeRaisesNobody(a: seq<Tree>, extra: Tree, b: seq<Tree>, ceiling: nat, t: Tree)
    requires t in a + b && Counts(t)
    ensures Weighted(a + b) != [] && Weighted(a + [extra] + b) != []
    ensures Earned(a + [extra] + b, ceiling, t) <= Earned(a + b, ceiling, t)
  {
    WeightedMembers(a + b, t);
    WeightedMembers(a + [extra] + b, t);
    WeightsArePositive(a + b);
    WeightsArePositive(a + [extra] + b);
    TotalWithExtra(a, extra, b);
    FactorRange(t);
    ShareFalls(WeightOf(t), TotalWeight(a + b), TotalWeight(a + [extra] + b));
    ExactMonotone(ceiling, WeightOf(t), TotalWeight(a + [extra] + b), Factor(t),
                  WeightOf(t), TotalWeight(a + b), Factor(t));
  }

  lemma TotalWithExtra(a: seq<Tree>, extra: Tree, b: seq<Tree>)
    ensures TotalWeight(a + [extra] + b) == TotalWeight(a + b) + WeightIn(extra)
  {
    hide TotalWeight, WeightIn;
    TotalWeightAppend(a, [extra]);
    TotalWeightAppend(a + [extra], b);
    TotalWeightAppend(a, b);
    TotalWeightOne(extra);
  }

  /** More sensors on one Tree earn it no less and nobody else any more. */
  lemma SensorsOnlyHelpTheirOwner(trees: seq<Tree>, i: nat, sensors: int, ceiling: nat, other: Tree)
    requires i < |trees| && trees[i].eligible && trees[i].sensors <= sensors && sensors >= 1
    ensures var t, t' := trees[i], trees[i].(sensors := sensors);
            && Weighted(trees[i := t']) != []
            && (Counts(t) ==> Weighted(trees) != [] && Earned(trees, ceiling, t) <= Earned(trees[i := t'], ceiling, t'))
            && (!Counts(t) ==> 0 <= Earned(trees[i := t'], ceiling, t'))
            && (Weighted(trees) != [] ==> Earned(trees[i := t'], ceiling, other) <= Earned(trees, ceiling, other))
  {
    var t, t' := trees[i], trees[i].(sensors := sensors);
    var trees' := trees[i := t'];
    WeightRange(t.sensors, sensors);
    WeightRange(sensors, sensors);
    WeightRange(other.sensors, other.sensors);
    TotalWeightSplit(trees, i);
    TotalWeightSplit(trees', i);
    WeightedMembers(trees, t);
    assert trees'[i] == t';
    WeightedMembers(trees', t');
    assert trees'[..i] == trees[..i] && trees'[i + 1..] == trees[i + 1..];
    WeightsArePositive(trees);
    WeightsArePositive(trees');
    WeightsArePositive(trees[..i]);
    WeightsArePositive(trees[i + 1..]);
    hide Weighted, TotalWeight, Share;
    FactorRange(t);
    FactorRange(other);
    var u, u' := TotalWeight(trees), TotalWeight(trees');
    assert Factor(t') == Factor(t) && u' == u - WeightIn(t) + WeightIn(t');
    ExactBounds(ceiling, WeightOf(t'), u', Factor(t'));
    if Counts(t) {
      OwnShareGrows(WeightOf(t), WeightOf(t'), u - WeightOf(t));
      ExactMonotone(ceiling, WeightOf(t), u, Factor(t), WeightOf(t'), u', Factor(t'));
    }
    if u > 0.0 {
      ShareFalls(WeightOf(other), u, u');
      ExactMonotone(ceiling, WeightOf(other), u', Factor(other), WeightOf(other), u, Factor(other));
    }
  }

  lemma OwnShareGrows(w: real, w': real, rest: real)
    requires 0.0 < w <= w' && 0.0 <= rest
    ensures Share(w, w + rest) <= Share(w', w' + rest)
  {
    ProductMonotone(w, rest, w', rest);
    CrossMultiply(w, w + rest, w', w' + rest);
  }
}

/** What another Tree, or another sensor, does to a day's total (orchard_chia/economics/rewards.py).

    The ceiling is fixed, so neither raises the ceiling. Both can raise what is distributed: a Tree that
    earns anything takes up share that a Tree with less uptime forfeits. */
module MoreTrees {
  import opened Ordering
  import opened Sums
  import opened Apportionment
  import opened Rewards
  import opened Exhaustion
  import RewardInvariance

  /** What these Trees earn when the weights of all Trees add up to `total`. */
  function Part(trees: seq<Tree>, total: real, ceiling: nat): int
    requires total != 0.0
  {
    if trees == [] then 0
    else
      var front, t := Part(trees[..|trees| - 1], total, ceiling), trees[|trees| - 1];
      if Counts(t) then front + RewardOf(t, total, ceiling).reward else front
  }

  lemma {:induction false} PartOfWeighted(trees: seq<Tree>, total: real, ceiling: nat)
    requires total != 0.0
    ensures Distributed(Map(Rewarder(total, ceiling), Weighted(trees))) == Part(trees, total, ceiling)
  {
    hide Counts, RewardOf;
    EmptyTotal();
    if trees != [] {
      var front, t := trees[..|trees| - 1], trees[|trees| - 1];
      PartOfWeighted(front, total, ceiling);
      var f := Rewarder(total, ceiling);
      MapAppend(f, Weighted(front), [t]);
      MapAppend(AmountOf, Map(f, Weighted(front)), Map(f, [t]));
      assert Map(AmountOf, Map(f, [t])) == [f(t).reward];
      var amounts := Map(AmountOf, Map(f, Weighted(front)));
      assert (amounts + [f(t).reward])[..|amounts|] == amounts;
    }
  }

  lemma PaysPart(trees: seq<Tree>, ceiling: nat)
    requires !SomeNegative(trees)
    ensures Weighted(trees) == [] ==> Pays(trees, ceiling) == 0
    ensures Weighted(trees) != [] ==>
              TotalWeight(trees) > 0.0 && Pays(trees, ceiling) == Part(trees, TotalWeight(trees), ceiling)
  {
    hide Weighted, TotalWeight, Part, RewardOf;
    EmptyTotal();
    if Weighted(trees) != [] {
      RewardInvariance.DistributedIsEarned(trees, ceiling);
      PartOfWeighted(trees, TotalWeight(trees), ceiling);
    }
  }

  lemma {:induction false} PartAppend(a: seq<Tree>, b: seq<Tree>, total: real, ceiling: nat)
    requires total != 0.0
    ensures Part(a + b, total, ceiling) == Part(a, total, ceiling) + Part(b, total, ceiling)
  {
    hide Counts, RewardOf;
    if b == [] {
      assert a + b == a;
    } else {
      assert (a + b)[..|a + b| - 1] == a + b[..|b| - 1];
      PartAppend(a, b[..|b| - 1], total, ceiling);
    }
  }

  /** Among more weight, the same Trees earn no more. */
  lemma {:induction false} PartFalls(trees: seq<Tree>, total: real, more: real, ceiling: nat)
    requires 0.0 < total <= more
    ensures Part(trees, more, ceiling) <= Part(trees, total, ceiling)
  {
    if trees != [] {
      var t := trees[|trees| - 1];
      PartFalls(trees[..|trees| - 1], total, more, ceiling);
      if Counts(t) {
        FactorRange(t);
        ShareFalls(WeightOf(t), total, more);
        ExactMonotone(ceiling, WeightOf(t), more, Factor(t), WeightOf(t), total, Factor(t));
      }
    }
  }

  lemma PartOfOne(x: Tree, total: real, ceiling: nat)
    requires total != 0.0
    ensures Part([x], total, ceiling) == if Counts(x) then RewardOf(x, total, ceiling).reward else 0
  {
    assert [x][..0] == [];
  }

  lemma NegativesAppend(a: seq<Tree>, x: Tree, b: seq<Tree>)
    requires !(x.eligible && x.sensors < 0)
    ensures SomeNegative(a + [x] + b) <==> SomeNegative(a + b)
  {
    if SomeNegative(a + [x] + b) {
      var t :| t in a + [x] + b && t.eligible && t.sensors < 0;
      assert t in a + b;
    }
    if SomeNegative(a + b) {
      var t :| t in a + b && t.eligible && t.sensors < 0;
      assert t in a + [x] + b;
    }
  }

  /** Another Tree, wherever it is listed, raises the total by at most its own reward. */
  lemma RiseIsItsOwnReward(a: seq<Tree>, x: Tree, b: seq<Tree>, ceiling: nat)
    requires !SomeNegative(a + b) && !(x.eligible && x.sensors < 0)
    ensures !SomeNegative(a + [x] + b)
    ensures Counts(x) ==> Weighted(a + [x] + b) != []
    ensures Pays(a + [x] + b, ceiling)
            <= Pays(a + b, ceiling) + if Counts(x) then Earned(a + [x] + b, ceiling, x) else 0
  {
    NegativesAppend(a, x, b);
    TotalWithExtra(a, x, b);
    PaysPart(a + b, ceiling);
    PaysPart(a + [x] + b, ceiling);
    WeightsArePositive(a + b);
    WeightsArePositive(a + [x] + b);
    assert Counts(x) ==> WeightIn(x) > 0.0;
    hide Weighted, TotalWeight, Pays, Part, RewardOf, Counts, SomeNegative;
    var total, more := TotalWeight(a + b), TotalWeight(a + [x] + b);
    if more > 0.0 {
      PartAppend(a + [x], b, more, ceiling);
      PartAppend(a, [x], more, ceiling);
      PartAppend(a, b, more, ceiling);
      PartOfOne(x, more, ceiling);
      if total > 0.0 { PartFalls(a + b, total, more, ceiling); } else { PartOfNobody(a + b, more, ceiling); }
    }
  }

  lemma PartOfNobody(trees: seq<Tree>, total: real, ceiling: nat)
    requires total != 0.0 && Weighted(trees) == []
    ensures Part(trees, total, ceiling) == 0
  {
    PartOfWeighted(trees, total, ceiling);
    EmptyTotal();
    hide Part, Weighted;
  }

  ghost predicate Raises(a: seq<Tree>, x: Tree, b: seq<Tree>, ceiling: nat) {
    !SomeNegative(a + b) && !SomeNegative(a + [x] + b) && Pays(a + [x] + b, ceiling) > Pays(a + b, ceiling)
  }

  /** A Tree never raises the total, whatever the fleet and the ceiling, exactly when it does not count or has
      no heartbeats. */
  lemma HarmlessTreeIff(x: Tree)
    requires !(x.eligible && x.sensors < 0)
    ensures (forall a, b, ceiling :: !Raises(a, x, b, ceiling)) <==> !Counts(x) || x.heartbeats == 0
  {
    if !Counts(x) || x.heartbeats == 0 {
      forall a, b, ceiling ensures !Raises(a, x, b, ceiling) {
        if !SomeNegative(a + b) {
          RiseIsItsOwnReward(a, x, b, ceiling);
          if Counts(x) { WeightsArePositive(a + [x] + b); NothingForNothing(x, TotalWeight(a + [x] + b), ceiling); }
        }
        hide *;
      }
    } else {
      AloneItEarns(x);
    }
  }

  lemma NothingForNothing(x: Tree, total: real, ceiling: nat)
    requires x.heartbeats == 0 && total > 0.0
    ensures RewardOf(x, total, ceiling).reward == 0
  {
    assert Factor(x) == 0.0;
    hide Quota, Share, Factor;
  }

  lemma AloneItEarns(x: Tree)
    requires Counts(x) && x.heartbeats > 0 && x.sensors >= 0
    ensures Raises([], x, [], 24)
  {
    var none: seq<Tree> := [];
    assert none + [x] + none == [x] && none + none == none;
    assert !SomeNegative([x]) && !SomeNegative(none);
    WeightedOne(x);
    TotalWeightOne(x);
    var w := WeightOf(x);
    assert TotalWeight([x]) == w > 0.0;
    WholeShare(x, w);
    PaysPart(none, 24);
    hide TotalWeight, WeightOf, RewardOf, Pays, Share, Quota, Factor;
    assert Weighted(none) == [];
    SomebodyIsPaid([x], 24, 0);
  }

  lemma WholeShare(x: Tree, w: real)
    requires w == WeightOf(x) > 0.0
    ensures RewardOf(x, w, 24).reward == x.heartbeats
  {
    FullShare(w);
    assert Quota(24, 1.0) == 24.0 && 24.0 * Factor(x) == x.heartbeats as real;
    hide WeightOf, Share, Quota, Factor;
  }

  // More sensors on a Tree already there.

  /** What x adds to the day's total among these weights. */
  function Own(x: Tree, total: real, ceiling: nat): int
    requires total != 0.0
  {
    if Counts(x) then RewardOf(x, total, ceiling).reward else 0
  }

  lemma PaysSplit(a: seq<Tree>, x: Tree, b: seq<Tree>, ceiling: nat)
    requires !SomeNegative(a + [x] + b)
    ensures var total := TotalWeight(a + [x] + b);
            && total == TotalWeight(a + b) + WeightIn(x) && total >= 0.0 && TotalWeight(a + b) >= 0.0
            && (total == 0.0 ==> Pays(a + [x] + b, ceiling) == 0)
            && (total > 0.0 ==>
                  Pays(a + [x] + b, ceiling) == Part(a + b, total, ceiling) + Own(x, total, ceiling))
  {
    TotalWithExtra(a, x, b);
    PaysPart(a + [x] + b, ceiling);
    WeightsArePositive(a + b);
    WeightsArePositive(a + [x] + b);
    hide Weighted, TotalWeight, Pays, Part, RewardOf, Counts, SomeNegative;
    var total := TotalWeight(a + [x] + b);
    if total > 0.0 {
      PartAppend(a + [x], b, total, ceiling);
      PartAppend(a, [x], total, ceiling);
      PartAppend(a, b, total, ceiling);
      PartOfOne(x, total, ceiling);
    }
  }

  predicate Heavier(x: Tree, sensors: int) {
    x.eligible && 0 <= x.sensors && WeightOf(x) < SensorWeight(sensors)
  }

  function With(x: Tree, sensors: int): Tree { x.(sensors := sensors) }

  /** More sensors on a Tree raise the total by at most what its owner gains. */
  lemma RiseIsTheOwnersGain(a: seq<Tree>, x: Tree, sensors: int, b: seq<Tree>, ceiling: nat)
    requires Heavier(x, sensors) && !SomeNegative(a + [x] + b)
    ensures !SomeNegative(a + [With(x, sensors)] + b)
    ensures var before, after := TotalWeight(a + [x] + b), TotalWeight(a + [With(x, sensors)] + b);
            && after > 0.0 && before >= 0.0
            && Pays(a + [With(x, sensors)] + b, ceiling) <= Pays(a + [x] + b, ceiling)
                 + Own(With(x, sensors), after, ceiling) - (if before > 0.0 then Own(x, before, ceiling) else 0)
  {
    var x' := With(x, sensors);
    NegativesAppend(a, x, b);
    NegativesAppend(a, x', b);
    PaysSplit(a, x, b, ceiling);
    PaysSplit(a, x', b, ceiling);
    assert 0.0 <= WeightIn(x) < WeightIn(x');
    WeightsArePositive(a + b);
    hide TotalWeight, WeightIn, Pays, Part, RewardOf, SomeNegative, Weighted, Own, With, Heavier;
    var before, after := TotalWeight(a + [x] + b), TotalWeight(a + [x'] + b);
    if before > 0.0 { PartFalls(a + b, before, after, ceiling); } else { PartOfNobody(a + b, after, ceiling); }
  }

  ghost predicate SensorsRaise(a: seq<Tree>, x: Tree, sensors: int, b: seq<Tree>, ceiling: nat) {
    && !SomeNegative(a + [x] + b) && !SomeNegative(a + [With(x, sensors)] + b)
    && Pays(a + [With(x, sensors)] + b, ceiling) > Pays(a + [x] + b, ceiling)
  }

  /** More weight on a Tree never raises the total, whatever the rest of the fleet and the ceiling, exactly when the
      Tree has no heartbeats. */
  lemma HarmlessSensorsIff(x: Tree, sensors: int)
    requires Heavier(x, sensors)
    ensures (forall a, b, ceiling :: !SensorsRaise(a, x, sensors, b, ceiling)) <==> x.heartbeats == 0
  {
    if x.heartbeats == 0 {
      forall a, b, ceiling ensures !SensorsRaise(a, x, sensors, b, ceiling) {
        if !SomeNegative(a + [x] + b) {
          RiseIsTheOwnersGain(a, x, sensors, b, ceiling);
          IdleEarnsNothing(x, TotalWeight(a + [x] + b), ceiling);
          IdleEarnsNothing(With(x, sensors), TotalWeight(a + [With(x, sensors)] + b), ceiling);
        }
        hide *;
      }
    } else {
      BesideAnIdleTree(x, sensors);
    }
  }

  lemma IdleEarnsNothing(x: Tree, total: real, ceiling: nat)
    requires x.heartbeats == 0
    ensures total > 0.0 ==> Own(x, total, ceiling) == 0
  {
    if total > 0.0 { NothingForNothing(x, total, ceiling); }
    hide RewardOf, Counts;
  }

  const IDLE: Tree := TreeDay("idle", "w", 1, 0, true, None, "oracle-hours")

  /** Beside a Tree that is never up, what is paid is what x earns. */
  lemma BesideIdle(x: Tree, ceiling: nat)
    requires x.eligible && x.sensors >= 0
    ensures !SomeNegative([] + [x] + [IDLE])
    ensures WeightIn(x) >= 0.0 && Pays([] + [x] + [IDLE], ceiling) == Own(x, WeightIn(x) + 1.0, ceiling)
  {
    var none: seq<Tree> := [];
    assert SensorWeight(1) == 1.0 && Counts(IDLE) && WeightIn(IDLE) == 1.0;
    assert none + [x] + [IDLE] == [x, IDLE] && [x] + none == [x];
    TotalWeightOne(x);
    PaysSplit([x], IDLE, none, ceiling);
    assert [x] + [IDLE] + none == [x, IDLE];
    PartOfOne(x, WeightIn(x) + 1.0, ceiling);
    IdleEarnsNothing(IDLE, WeightIn(x) + 1.0, ceiling);
    hide TotalWeight, WeightOf, RewardOf, Pays, Part;
  }

  lemma Steps(a: int, b: int)
    requires SensorWeight(a) < SensorWeight(b)
    ensures 1.0 <= SensorWeight(b) <= 1.25
    ensures SensorWeight(a) > 0.0 ==> 1.0 <= SensorWeight(a) && SensorWeight(a) + 0.05 <= SensorWeight(b)
  {}

  /** A step of weight is at least a 120th of the share. */
  lemma ShareStep(w: real, w': real)
    requires 1.0 <= w && w + 0.05 <= w' <= 1.25
    ensures Share(w', w' + 1.0) >= Share(w, w + 1.0) + 1.0 / 120.0
  {
    var u, u' := Share(1.0, w + 1.0), Share(1.0, w' + 1.0);
    Complement(w);
    Complement(w');
    hide Share;
    Difference(u, u', w, w');
    ProductMonotone(4.0 / 9.0, 4.0 / 9.0, u, u');
    ProductMonotone(16.0 / 81.0, 0.05, u * u', w' - w);
  }

  lemma Complement(w: real)
    requires 0.0 <= w <= 1.25
    ensures Share(w, w + 1.0) == 1.0 - Share(1.0, w + 1.0)
    ensures Share(1.0, w + 1.0) * (w + 1.0) == 1.0 && Share(1.0, w + 1.0) >= 4.0 / 9.0
  {
    ShareFalls(1.0, w + 1.0, 2.25);
  }

  lemma Difference(u: real, u': real, w: real, w': real)
    requires u * (w + 1.0) == 1.0 && u' * (w' + 1.0) == 1.0
    ensures u - u' == (u * u') * (w' - w)
  {
    assert u == u * (u' * (w' + 1.0)) && u' == u' * (u * (w + 1.0));
  }

  /** What a share of 2880 mojos is worth at this uptime. */
  function Mojos(share: real, factor: real): int { (Quota(2880, share) * factor).Floor }

  /** With a ceiling of 2880, a 120th of the share is worth a mojo to any Tree that is ever up. */
  lemma WorthAMojo(s: real, s': real, factor: real)
    requires factor >= 1.0 / 24.0 && s' >= s + 1.0 / 120.0
    ensures Mojos(s', factor) > Mojos(s, factor)
  {
    var q, q' := Quota(2880, s), Quota(2880, s');
    assert q' - q >= 24.0;
    hide Quota;
    ProductMonotone(24.0, 1.0 / 24.0, q' - q, factor);
    assert (q' - q) * factor == q' * factor - q * factor;
  }

  /** Beside a Tree that is never up, with a ceiling of 2880, every step of weight is worth a mojo. */
  lemma BesideAnIdleTree(x: Tree, sensors: int)
    requires Heavier(x, sensors) && x.heartbeats > 0
    ensures SensorsRaise([], x, sensors, [IDLE], 2880)
  {
    BesideIdle(x, 2880);
    BesideIdle(With(x, sensors), 2880);
    StepOfReward(x, sensors);
    hide Pays, Own;
  }

  /** What a weight earns beside a weight of one. */
  function Beside(w: real, factor: real): int {
    if w > 0.0 then Mojos(Share(w, w + 1.0), factor) else 0
  }

  lemma OwnBesideIdle(x: Tree)
    requires x.eligible && x.sensors >= 0
    ensures WeightIn(x) == WeightOf(x) >= 0.0
    ensures Own(x, WeightIn(x) + 1.0, 2880) == Beside(WeightOf(x), Factor(x))
  {
    hide SensorWeight, Share, Quota, Factor;
    WeightRange(x.sensors, x.sensors);
  }

  lemma BesideRises(w: real, w': real, factor: real)
    requires 1.0 <= w' <= 1.25 && factor >= 1.0 / 24.0
    requires w == 0.0 || 1.0 <= w <= w' - 0.05
    ensures Beside(w', factor) > Beside(w, factor)
  {
    hide Share, Mojos;
    if w > 0.0 {
      ShareStep(w, w');
      WorthAMojo(Share(w, w + 1.0), Share(w', w' + 1.0), factor);
    } else {
      HalfIsMore(w');
      WorthAMojo(0.0, Share(w', w' + 1.0), factor);
      NoShare(factor);
    }
  }

  lemma StepOfReward(x: Tree, sensors: int)
    requires Heavier(x, sensors) && x.heartbeats > 0
    ensures WeightIn(x) >= 0.0 && WeightIn(With(x, sensors)) >= 0.0
    ensures Own(With(x, sensors), WeightIn(With(x, sensors)) + 1.0, 2880) > Own(x, WeightIn(x) + 1.0, 2880)
  {
    hide SensorWeight, Own, Beside;
    Steps(x.sensors, sensors);
    WeightRange(sensors, sensors);
    OwnBesideIdle(x);
    OwnBesideIdle(With(x, sensors));
    BesideRises(WeightOf(x), SensorWeight(sensors), Factor(x));
  }

  lemma NoShare(factor: real)
    ensures Mojos(0.0, factor) == 0
  {}

  lemma HalfIsMore(w: real)
    requires w >= 1.0
    ensures Share(w, w + 1.0) >= 1.0 / 120.0
  {
    CrossMultiply(1.0, 2.0, w, w + 1.0);
  }
}

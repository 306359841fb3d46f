/** What a day's result says of every Tree (orchard_chia/economics/rewards.py). */
module RewardDetails {
  import opened Ordering
  import opened Sums
  import opened Rewards

  /** `whole` is what is left of y / m without its fraction. */
  ghost predicate WholePart(whole: int, y: real, m: real) {
    whole as real * m <= y && y < (whole + 1) as real * m
  }

  lemma FloorTimes(x: real, y: real, m: real)
    requires m > 0.0 && x * m == y
    ensures WholePart(x.Floor, y, m)
  {
    LessTimes(x, (x.Floor + 1) as real, m);
    NotMoreTimes(x.Floor as real, x, m);
  }

  lemma NotMoreTimes(a: real, b: real, m: real)
    requires a <= b && m > 0.0
    ensures a * m <= b * m
  {}

  lemma LessTimes(a: real, b: real, m: real)
    requires a < b && m > 0.0
    ensures a * m < b * m
  {}

  lemma TimesBack(x: real, total: real)
    requires total > 0.0
    ensures x / total * total == x
  {}

  lemma ShareOfCeiling(c: real, w: real, total: real)
    requires total > 0.0
    ensures c * (w / total) * total == c * w
  {
    TimesBack(w, total);
    assert c * (w / total) * total == c * (w / total * total);
  }

  lemma ShareOfDay(c: real, w: real, total: real, beats: real)
    requires total > 0.0
    ensures c * (w / total) * (beats / 24.0) * (24.0 * total) == c * w * beats
  {
    ShareOfCeiling(c, w, total);
    Rearranged(c * (w / total), beats, total);
  }

  lemma Rearranged(x: real, beats: real, total: real)
    ensures x * (beats / 24.0) * (24.0 * total) == x * total * beats
  {
    calc {
      x * (beats / 24.0) * (24.0 * total);
      x * (beats / 24.0 * 24.0) * total;
      x * beats * total;
    }
  }

  /** What the Tree's weight is worth of the ceiling, and the hours it was heard of that, still to be divided. */
  function Due(ceiling: int, w: real): real { ceiling as real * w }

  function DueFor(ceiling: int, w: real, beats: nat): real { Due(ceiling, w) * beats as real }

  function Day(total: real): real { 24.0 * total }

  /** The Tree's part of the ceiling by weight, and of that part the hours it was heard, each without its fraction. */
  ghost predicate Earns(t: Tree, r: TreeReward, total: real, ceiling: int)
    requires total > 0.0
  {
    var w := SensorWeight(t.sensors);
    && r.tree == t.tree && r.wallet == t.wallet && r.basis == t.basis && r.heartbeats == t.heartbeats
    && r.weight == w && r.share * total == w && r.factor * 24.0 == t.heartbeats as real
    && WholePart(r.potential, Due(ceiling, w), total)
    && WholePart(r.reward, DueFor(ceiling, w, t.heartbeats), Day(total))
  }

  function PartOf(ceiling: int, w: real, total: real): real
    requires total > 0.0
  {
    ceiling as real * (w / total)
  }

  function HeardOf(ceiling: int, w: real, total: real, beats: nat): real
    requires total > 0.0
  {
    ceiling as real * (w / total) * (beats as real / 24.0)
  }

  lemma PartTimes(ceiling: int, w: real, total: real)
    requires total > 0.0
    ensures PartOf(ceiling, w, total) * total == Due(ceiling, w)
  {
    ShareOfCeiling(ceiling as real, w, total);
  }

  lemma HeardTimes(ceiling: int, w: real, total: real, beats: nat)
    requires total > 0.0
    ensures HeardOf(ceiling, w, total, beats) * Day(total) == DueFor(ceiling, w, beats)
  {
    ShareOfDay(ceiling as real, w, total, beats as real);
  }

  lemma RewardFields(t: Tree, total: real, ceiling: int)
    requires total > 0.0
    ensures var r, w := RewardOf(t, total, ceiling), SensorWeight(t.sensors);
            && r.tree == t.tree && r.wallet == t.wallet && r.basis == t.basis && r.heartbeats == t.heartbeats
            && r.weight == w && r.share * total == w && r.factor * 24.0 == t.heartbeats as real
            && r.potential == PartOf(ceiling, w, total).Floor
            && r.reward == HeardOf(ceiling, w, total, t.heartbeats).Floor
  {
    hide SensorWeight;
    TimesBack(WeightOf(t), total);
  }

  lemma RewardEarns(t: Tree, total: real, ceiling: int)
    requires total > 0.0
    ensures Earns(t, RewardOf(t, total, ceiling), total, ceiling)
  {
    var w, beats := SensorWeight(t.sensors), t.heartbeats;
    assert Day(total) > 0.0;
    RewardFields(t, total, ceiling);
    PartTimes(ceiling, w, total);
    HeardTimes(ceiling, w, total, beats);
    hide RewardOf, SensorWeight, WholePart, PartOf, HeardOf, Due, DueFor, Day;
    FloorTimes(PartOf(ceiling, w, total), Due(ceiling, w), total);
    FloorTimes(HeardOf(ceiling, w, total, beats), DueFor(ceiling, w, beats), Day(total));
  }

  /** A Tree that is to be rewarded: eligible, with a sensor. */
  ghost predicate Shares(t: Tree) { t.eligible && t.sensors >= 1 }

  lemma SharesCounts(t: Tree)
    ensures Counts(t) <==> Shares(t)
  {}

  /** One reward for every Tree with a share, and no others. */
  lemma RewardsAreOfTheTrees(trees: seq<Tree>, ceiling: int)
    requires Daily(trees, ceiling).Ok?
    ensures var d := Daily(trees, ceiling).value;
            && (d.noEligibleTrees <==> forall t :: t in trees ==> !Shares(t))
            && (d.noEligibleTrees ==> d.rewards == [])
            && (!d.noEligibleTrees ==> d.totalWeight > 0.0)
            && (forall t :: t in trees && Shares(t) ==>
                  exists r :: r in d.rewards && d.totalWeight > 0.0 && Earns(t, r, d.totalWeight, ceiling))
            && (forall r :: r in d.rewards ==>
                  exists t :: t in trees && Shares(t) && d.totalWeight > 0.0 && Earns(t, r, d.totalWeight, ceiling))
  {
    var d := Daily(trees, ceiling).value;
    WeightsArePositive(trees);
    forall t ensures t in Weighted(trees) <==> t in trees && Shares(t) {
      WeightedMembers(trees, t);
      SharesCounts(t);
    }
    if Weighted(trees) != [] {
      assert Weighted(trees)[0] in Weighted(trees);
      RewardsAreEarned(trees, ceiling);
      hide Daily, Weighted, TotalWeight, Shares, Earns;
      MappedMembers(trees, d.totalWeight, ceiling, d.rewards);
    }
  }

  lemma MappedMembers(trees: seq<Tree>, total: real, ceiling: int, rewards: seq<TreeReward>)
    requires total > 0.0
    requires multiset(rewards) == multiset(Map(Rewarder(total, ceiling), Weighted(trees)))
    ensures forall t :: t in Weighted(trees) ==> exists r :: r in rewards && Earns(t, r, total, ceiling)
    ensures forall r :: r in rewards ==> exists t :: t in Weighted(trees) && Earns(t, r, total, ceiling)
  {
    hide Weighted, Earns, RewardOf;
    var mapped := Map(Rewarder(total, ceiling), Weighted(trees));
    forall t | t in Weighted(trees) ensures exists r :: r in rewards && Earns(t, r, total, ceiling) {
      var i :| 0 <= i < |Weighted(trees)| && Weighted(trees)[i] == t;
      assert mapped[i] in multiset(mapped);
      RewardEarns(t, total, ceiling);
      assert mapped[i] in rewards && Earns(t, mapped[i], total, ceiling);
    }
    forall r | r in rewards ensures exists t :: t in Weighted(trees) && Earns(t, r, total, ceiling) {
      assert r in multiset(mapped);
      var i :| 0 <= i < |mapped| && mapped[i] == r;
      RewardEarns(Weighted(trees)[i], total, ceiling);
      assert Weighted(trees)[i] in Weighted(trees);
    }
  }

  /** Rewards are listed by Tree, and of one Tree by wallet. */
  lemma ListedByTree(trees: seq<Tree>, ceiling: int, i: nat, j: nat)
    requires Daily(trees, ceiling).Ok? && i < j < |Daily(trees, ceiling).value.rewards|
    ensures var a, b := Daily(trees, ceiling).value.rewards[i], Daily(trees, ceiling).value.rewards[j];
            TextLe(a.tree, b.tree) && (a.tree == b.tree ==> TextLe(a.wallet, b.wallet))
  {
    WeightsArePositive(trees);
    KeyOrder();
    TextOrder();
    SortIsSortedPermutation(KeyLe, Weighted(trees));
    hide Sort, Weighted, TotalWeight, TextLe, SensorWeight, SomeNegative, NotEligible, WithoutSensor;
    var ordered := Sort(KeyLe, Weighted(trees));
    assert KeyLe(ordered[i], ordered[j]);
  }

  // Who gets nothing, and why.

  /** An ineligible Tree is listed as it is; an eligible one without a sensor as ineligible, with a reason. */
  ghost predicate ListedAs(t: Tree, x: Tree) {
    if !t.eligible then x == t
    else
      && t.sensors < 1 && x == t.(eligible := false, reason := x.reason)
      && x.reason.Some? && x.reason.value != ""
      && (t.reason.Some? && t.reason.value != "" ==> x.reason == t.reason)
  }

  lemma {:induction false} LeftOut(trees: seq<Tree>)
    ensures forall x :: x in NotEligible(trees) ==> exists t :: t in trees && ListedAs(t, x)
    ensures forall x :: x in WithoutSensor(trees) ==> exists t :: t in trees && ListedAs(t, x)
    ensures forall t :: t in trees && !t.eligible ==> t in NotEligible(trees)
    ensures forall t :: t in trees && t.eligible && t.sensors < 1 ==> Dropped(t) in WithoutSensor(trees)
  {
    hide ListedAs, Dropped;
    if trees != [] {
      var front, t := trees[..|trees| - 1], trees[|trees| - 1];
      LeftOut(front);
      assert t in trees && (forall x :: x in front ==> x in trees) && forall x :: x in trees ==> x in front || x == t;
      DroppedIsListed(t);
    }
  }

  lemma DroppedIsListed(t: Tree)
    ensures !t.eligible ==> ListedAs(t, t)
    ensures t.eligible && t.sensors < 1 ==> ListedAs(t, Dropped(t))
    ensures WeightOf(t) <= 0.0 <==> t.sensors < 1
  {}

  /** Every Tree without a share is listed with a reason it was given or "no qualifying sensor", and nothing else is. */
  lemma EveryOtherTreeIsListed(trees: seq<Tree>, ceiling: int)
    requires Daily(trees, ceiling).Ok?
    ensures var listed := Daily(trees, ceiling).value.ineligible;
            && (forall t :: t in trees && !Shares(t) ==> exists x :: x in listed && ListedAs(t, x))
            && (forall x :: x in listed ==> exists t :: t in trees && ListedAs(t, x))
  {
    LeftOut(trees);
    var listed := Daily(trees, ceiling).value.ineligible;
    assert listed == NotEligible(trees) + WithoutSensor(trees);
    hide Daily, NotEligible, WithoutSensor, ListedAs, Dropped;
    forall t | t in trees && !Shares(t) ensures exists x :: x in listed && ListedAs(t, x) {
      DroppedIsListed(t);
      assert t in listed || Dropped(t) in listed;
    }
  }
}

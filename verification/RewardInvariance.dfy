/** What a day's rewards do not depend on, and what they add up to by wallet
    (orchard_chia/economics/rewards.py). */
module RewardInvariance {
  import opened Ordering
  import opened Sums
  import opened Apportionment
  import opened Rewards

  // Wallets.

  function TreeAmount(r: TreeReward): (string, int) { (r.tree, r.reward) }

  ghost predicate SameButWallets(s: seq<Tree>, t: seq<Tree>) {
    |s| == |t| && forall i :: 0 <= i < |s| ==> t[i] == s[i].(wallet := t[i].wallet)
  }

  lemma {:induction false} WeightedSameButWallets(s: seq<Tree>, t: seq<Tree>)
    requires SameButWallets(s, t)
    ensures SameButWallets(Weighted(s), Weighted(t))
  {
    if s != [] { WeightedSameButWallets(s[..|s| - 1], t[..|t| - 1]); }
  }

  /** Moving Trees between wallets changes no Tree's reward. */
  lemma WalletsDoNotMatter(s: seq<Tree>, t: seq<Tree>, ceiling: nat)
    requires SameButWallets(s, t) && Daily(s, ceiling).Ok?
    ensures Daily(t, ceiling).Ok?
    ensures multiset(Map(TreeAmount, Daily(s, ceiling).value.rewards))
            == multiset(Map(TreeAmount, Daily(t, ceiling).value.rewards))
  {
    hide Weighted, Sort, KeyLe, Share, Quota;
    WeightedSameButWallets(s, t);
    forall i | 0 <= i < |t| ensures !(t[i].eligible && t[i].sensors < 0) {
      assert s[i] in s;
    }
    var ws, wt := Weighted(s), Weighted(t);
    if ws != [] {
      assert Map(WeightOf, ws) == Map(WeightOf, wt);
      RewardsAreEarned(s, ceiling);
      RewardsAreEarned(t, ceiling);
      hide Daily;
      var f := Rewarder(TotalWeight(s), ceiling);
      MapPermutes(TreeAmount, Daily(s, ceiling).value.rewards, Map(f, ws));
      MapPermutes(TreeAmount, Daily(t, ceiling).value.rewards, Map(f, wt));
      AmountsIgnoreWallets(ws, wt, TotalWeight(s), ceiling);
    }
  }

  lemma AmountsIgnoreWallets(s: seq<Tree>, t: seq<Tree>, total: real, ceiling: nat)
    requires SameButWallets(s, t) && total != 0.0
    ensures Map(TreeAmount, Map(Rewarder(total, ceiling), s)) == Map(TreeAmount, Map(Rewarder(total, ceiling), t))
  {
    hide Share, Quota, SensorWeight;
    forall i | 0 <= i < |s|
      ensures TreeAmount(RewardOf(s[i], total, ceiling)) == TreeAmount(RewardOf(t[i], total, ceiling))
    {
      assert t[i] == s[i].(wallet := t[i].wallet);
    }
  }

  // The order of the Trees.

  lemma {:induction false} WeightedCounts(trees: seq<Tree>, t: Tree)
    ensures multiset(Weighted(trees))[t] == if Counts(t) then multiset(trees)[t] else 0
  {
    if trees != [] {
      WeightedCounts(trees[..|trees| - 1], t);
      assert trees == trees[..|trees| - 1] + [trees[|trees| - 1]];
    }
  }

  lemma WeightedPermutes(s: seq<Tree>, t: seq<Tree>)
    requires multiset(s) == multiset(t)
    ensures multiset(Weighted(s)) == multiset(Weighted(t)) && |Weighted(s)| == |Weighted(t)|
    ensures TotalWeight(s) == TotalWeight(t)
    ensures SomeNegative(s) <==> SomeNegative(t)
  {
    forall x: Tree ensures multiset(Weighted(s))[x] == multiset(Weighted(t))[x] {
      WeightedCounts(s, x);
      WeightedCounts(t, x);
    }
    assert multiset(Weighted(s)) == multiset(Weighted(t));
    assert |multiset(Weighted(s))| == |multiset(Weighted(t))|;
    MapPermutes(WeightOf, Weighted(s), Weighted(t));
    SumPermutes(Map(WeightOf, Weighted(s)), Map(WeightOf, Weighted(t)));
    forall x ensures x in s <==> x in t {
      assert x in multiset(s) <==> x in multiset(t);
    }
  }

  /** The same Trees in another order earn the same rewards. */
  lemma OrderDoesNotMatter(s: seq<Tree>, t: seq<Tree>, ceiling: nat)
    requires multiset(s) == multiset(t) && Daily(s, ceiling).Ok?
    ensures Daily(t, ceiling).Ok?
    ensures multiset(Daily(s, ceiling).value.rewards) == multiset(Daily(t, ceiling).value.rewards)
    ensures Daily(s, ceiling).value.totalWeight == Daily(t, ceiling).value.totalWeight
  {
    WeightedPermutes(s, t);
    if Weighted(s) != [] {
      RewardsAreEarned(s, ceiling);
      RewardsAreEarned(t, ceiling);
      MapPermutes(Rewarder(TotalWeight(s), ceiling), Weighted(s), Weighted(t));
    }
  }

  function TreeId(t: Tree): string { t.tree }

  lemma DistinctPermutes(s: seq<Tree>, t: seq<Tree>)
    requires multiset(s) == multiset(t) && Distinct(Map(TreeId, s))
    ensures Distinct(Map(TreeId, t))
  {
    var ids := set x | x in Map(TreeId, s);
    DistinctListing(Map(TreeId, s), ids);
    MapPermutes(TreeId, s, t);
    MultisetOfSet(Map(TreeId, t), ids);
  }

  /** Two sorted lists of the same Trees, none with the same id as another, are the same list. */
  lemma SortedTreesAgree(s: seq<Tree>, t: seq<Tree>)
    requires multiset(s) == multiset(t) && Distinct(Map(TreeId, s))
    requires Sorted(KeyLe, s) && Sorted(KeyLe, t)
    ensures s == t
  {
    var a, b := Map(KeyOf, s), Map(KeyOf, t);
    MapPermutes(KeyOf, s, t);
    TextPairOrder();
    hide TextPairLe;
    assert Sorted(TextPairLe, a) by {
      forall i, j | 0 <= i < j < |a| ensures TextPairLe(a[i], a[j]) { assert KeyLe(s[i], s[j]); }
    }
    assert Sorted(TextPairLe, b) by {
      forall i, j | 0 <= i < j < |b| ensures TextPairLe(b[i], b[j]) { assert KeyLe(t[i], t[j]); }
    }
    SortedIsUnique(TextPairLe, a, b);
    DistinctPermutes(s, t);
    assert |multiset(s)| == |multiset(t)|;
    forall i | 0 <= i < |s| ensures s[i] == t[i] {
      assert s[i] in multiset(t);
      var j :| 0 <= j < |t| && t[j] == s[i];
      assert KeyOf(s[i]) == a[i] == b[i] == KeyOf(t[i]);
      assert t[i].tree == t[j].tree;
      assert Map(TreeId, t)[i] == TreeId(t[i]) && Map(TreeId, t)[j] == TreeId(t[j]);
    }
  }

  /** ... and are listed in the same order, when every Tree has its own id. */
  lemma OrderIsCanonical(s: seq<Tree>, t: seq<Tree>, ceiling: nat)
    requires multiset(s) == multiset(t) && Distinct(Map(TreeId, Weighted(s))) && Daily(s, ceiling).Ok?
    ensures Daily(t, ceiling).Ok? && Daily(s, ceiling).value.rewards == Daily(t, ceiling).value.rewards
  {
    WeightedPermutes(s, t);
    KeyOrder();
    SortIsSortedPermutation(KeyLe, Weighted(s));
    SortIsSortedPermutation(KeyLe, Weighted(t));
    hide Weighted, TotalWeight, KeyLe;
    DistinctPermutes(Weighted(s), Sort(KeyLe, Weighted(s)));
    SortedTreesAgree(Sort(KeyLe, Weighted(s)), Sort(KeyLe, Weighted(t)));
  }

  // By wallet.

  function ByWallet(rewards: seq<TreeReward>): map<string, int> {
    if rewards == [] then map[]
    else
      var m, r := ByWallet(rewards[..|rewards| - 1]), rewards[|rewards| - 1];
      if r.reward == 0 then m else m[r.wallet := r.reward + if r.wallet in m then m[r.wallet] else 0]
  }

  method CollectByWallet(rewards: seq<TreeReward>) returns (m: map<string, int>)
    ensures m == ByWallet(rewards)
  {
    m := map[];
    for i := 0 to |rewards|
      invariant m == ByWallet(rewards[..i])
    {
      assert rewards[..i + 1][..i] == rewards[..i];
      var r := rewards[i];
      if r.reward != 0 { m := m[r.wallet := r.reward + if r.wallet in m then m[r.wallet] else 0]; }
    }
    assert rewards[..|rewards|] == rewards;
  }

  /** What the wallets are owed is what was distributed. */
  lemma {:induction false} WalletsSumToDistributed(rewards: seq<TreeReward>)
    ensures TotalOver(ByWallet(rewards), ByWallet(rewards).Keys) == Distributed(rewards)
  {
    if rewards == [] {
      EmptyTotal();
    } else {
      var front, r := rewards[..|rewards| - 1], rewards[|rewards| - 1];
      var m, n := ByWallet(front), ByWallet(rewards);
      WalletsSumToDistributed(front);
      assert Map(AmountOf, rewards)[..|front|] == Map(AmountOf, front);
      hide ByWallet;
      WalletStep(rewards);
      if r.reward != 0 {
        var others := m.Keys - {r.wallet};
        assert n.Keys == others + {r.wallet} && n.Keys - {r.wallet} == others;
        TotalOverStep(n, n.Keys, r.wallet);
        TotalOverAgree(m, n, others);
        if r.wallet in m {
          TotalOverStep(m, m.Keys, r.wallet);
        } else {
          assert m.Keys == others;
        }
      }
    }
  }

  lemma WalletStep(rewards: seq<TreeReward>)
    requires rewards != []
    ensures var m, r := ByWallet(rewards[..|rewards| - 1]), rewards[|rewards| - 1];
            ByWallet(rewards) ==
            if r.reward == 0 then m else m[r.wallet := r.reward + if r.wallet in m then m[r.wallet] else 0]
  {}

  /** What a day distributes is what its Trees earned. */
  lemma DistributedIsEarned(trees: seq<Tree>, ceiling: nat)
    requires Daily(trees, ceiling).Ok? && Weighted(trees) != []
    ensures TotalWeight(trees) > 0.0
    ensures Distributed(Daily(trees, ceiling).value.rewards)
            == Distributed(Map(Rewarder(TotalWeight(trees), ceiling), Weighted(trees)))
  {
    RewardsAreEarned(trees, ceiling);
    var rewards := Daily(trees, ceiling).value.rewards;
    var earned := Map(Rewarder(TotalWeight(trees), ceiling), Weighted(trees));
    MapPermutes(AmountOf, rewards, earned);
    TotalPermutes(Map(AmountOf, rewards), Map(AmountOf, earned));
  }
}

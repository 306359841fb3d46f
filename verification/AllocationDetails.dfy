/** What an allocation says of every record and every wallet, and who gets the mojos left over when two wallets have
    the same claim (orchard_chia/allocation/engine.py). */
module AllocationDetails {
  import opened Ordering
  import opened Sums
  import opened Apportionment
  import opened Allocation

  // Ties.

  lemma FirstByAddress(order: seq<Claim>, bump: seq<int>, k: nat, a: Claim, b: Claim)
    requires Sorted(ClaimLe, order) && Indexed(order) && |bump| == |order|
    requires forall p :: 0 <= p < |order| ==> bump[order[p].index] == if p < k then 1 else 0
    requires a in order && b in order
    ensures bump[a.index] == 1 && bump[b.index] == 0 && a.fraction == b.fraction ==> TextLe(a.wallet, b.wallet)
  {
    hide TextLe;
    var p :| 0 <= p < |order| && order[p] == a;
    var r :| 0 <= r < |order| && order[r] == b;
    assert p < r ==> ClaimLe(a, b);
  }

  ghost predicate TiesByAddress(weights: seq<WalletWeight>, quotas: seq<real>, bump: seq<int>)
    requires |weights| == |quotas| == |bump|
  {
    forall i, j :: 0 <= i < |bump| && 0 <= j < |bump| && bump[i] == 1 && bump[j] == 0 ==>
      (Fraction(quotas[i]) == Fraction(quotas[j]) ==> TextLe(weights[i].wallet, weights[j].wallet))
  }

  lemma BumpsGoByAddress(weights: seq<WalletWeight>, quotas: seq<real>, k: nat)
    requires |weights| == |quotas| && k <= |weights|
    ensures var order := Sort(ClaimLe, Claims(weights, quotas));
            |order| == |weights| && Indexed(order) && TiesByAddress(weights, quotas, Bumps(order, k))
  {
    OrderOfClaims(weights, quotas);
    var claims := Claims(weights, quotas);
    var order := Sort(ClaimLe, claims);
    hide Bumps, Sort, TextLe, ClaimLe, Sorted, Total;
    OrderHasDistinctIndices(order, claims);
    BumpsAreFirst(order, k);
    var bump := Bumps(order, k);
    forall i, j | 0 <= i < |bump| && 0 <= j < |bump| && bump[i] == 1 && bump[j] == 0
                  && Fraction(quotas[i]) == Fraction(quotas[j])
      ensures TextLe(weights[i].wallet, weights[j].wallet)
    {
      FirstByAddress(order, bump, k, claims[i], claims[j]);
    }
  }

  /** The loop's own bumps, as they end up in the amounts. */
  lemma AmountsAreBumped(records: seq<Uptime>, budget: nat) returns (bump: seq<int>)
    requires SomeUptime(records)
    ensures var r, q := Outcome(records, budget), ExactQuotas(records, budget);
            && |r.allocations| == |q| == |Weights(records)| == |bump|
            && TiesByAddress(Weights(records), q, bump)
            && (forall i :: 0 <= i < |bump| ==> bump[i] == 0 || bump[i] == 1)
            && Amounts(r.allocations) == Plus(Floors(q), bump)
  {
    UptimeIsWeight(records);
    var ws := Weights(records);
    var averages := Averages(ws);
    var q := ExactQuotas(records, budget);
    hide Weights, Total, Sum, Excluded, SomeUptime, Quota, Share;
    assert averages != [] by { EmptySum(); }
    QuotasSumToBudget(averages, budget);
    LeftoverRange(q, budget);
    BumpsAreFair(ws, q, Leftover(q, budget));
    BumpsGoByAddress(ws, q, Leftover(q, budget));
    hide Bumps, Sort, ClaimLe, Floors, TiesByAddress;
    bump := Bumps(Sort(ClaimLe, Claims(ws, q)), Leftover(q, budget));
    assert Amounts(Outcome(records, budget).allocations) == Plus(Floors(q), bump);
  }

  lemma WeightsAreByAddress(records: seq<Uptime>, i: nat, j: nat)
    requires i < j < |Weights(records)|
    ensures var ws := Weights(records); TextLe(ws[i].wallet, ws[j].wallet) && ws[i].wallet != ws[j].wallet
  {
    TextOrder();
    AscendingIsSortedListing(TextLe, Wallets(records));
    hide Wallets, Ascending, TextLe, Weights;
    WeightDescribes(records, i);
    WeightDescribes(records, j);
  }

  /** Wallets are listed by address, and of two with the same average the one listed first gets as much as the other,
      or one mojo more. */
  lemma EqualAveragesGoByAddress(records: seq<Uptime>, budget: nat, i: nat, j: nat)
    requires i < j < |Outcome(records, budget).allocations|
    ensures var a, b := Outcome(records, budget).allocations[i], Outcome(records, budget).allocations[j];
            && TextLe(a.wallet, b.wallet) && a.wallet != b.wallet
            && (a.average == b.average ==> a.amount == b.amount || a.amount == b.amount + 1)
  {
    AllocationsAreTheWeights(records, budget);
    WeightsAreByAddress(records, i, j);
    if SomeUptime(records) {
      EqualAveragesShare(records, budget, i, j);
    } else {
      AllOrNothing(records, budget);
      hide Outcome, Weights, TextLe, SomeUptime;
    }
  }

  lemma EqualAveragesShare(records: seq<Uptime>, budget: nat, i: nat, j: nat)
    requires SomeUptime(records) && i < j < |Outcome(records, budget).allocations|
    ensures var a, b := Outcome(records, budget).allocations[i], Outcome(records, budget).allocations[j];
            a.average == b.average ==> a.amount == b.amount || a.amount == b.amount + 1
  {
    var bump := AmountsAreBumped(records, budget);
    var facts := SplitFacts(records, budget);
    var r, q := Outcome(records, budget), ExactQuotas(records, budget);
    WeightsAreByAddress(records, i, j);
    TextOrder();
    hide Outcome, ExactQuotas, Weights, Floors, Plus, Sum, SomeUptime, Leftover, Quota, Share, FairBump, TextLe;
    assert Amounts(r.allocations)[i] == r.allocations[i].amount && Amounts(r.allocations)[j] == r.allocations[j].amount;
    if r.allocations[i].average == r.allocations[j].average {
      assert q[i] == q[j];
      PlusAt(q, bump, i);
      PlusAt(q, bump, j);
    }
  }

  lemma PlusAt(q: seq<real>, bump: seq<int>, i: nat)
    requires |bump| == |q| && i < |q|
    ensures Plus(Floors(q), bump)[i] == q[i].Floor + bump[i]
  {}

  // Nothing is left out.

  lemma AllocationsAreTheWeights(records: seq<Uptime>, budget: nat)
    ensures var ws, r := Weights(records), Outcome(records, budget);
            && |r.allocations| == |ws| && r.budget == budget && r.excluded == Excluded(records)
            && forall i :: 0 <= i < |ws| ==>
                 var a, w := r.allocations[i], ws[i];
                 a.wallet == w.wallet && a.average == w.average && a.count == w.count && a.pairs == w.pairs
  {
    hide Weights, SplitAmounts, Excluded, Sum, Averages;
  }

  lemma WeightsAreOfTheirRecords(records: seq<Uptime>, i: nat)
    requires i < |Weights(records)|
    ensures var w := Weights(records)[i]; w.wallet in Wallets(records) && OfWallet(records, w.wallet) != []
                                          && w == WeightOf(w.wallet, OfWallet(records, w.wallet))
  {
    TextOrder();
    AscendingIsSortedListing(TextLe, Wallets(records));
    var wallets := Ascending(TextLe, Wallets(records));
    hide Wallets, OfWallet, Ascending, TextLe, Sorted, Distinct, WeightOf;
    WeightsForAt(records, wallets, i);
  }

  /** The records of one wallet that count. */
  ghost predicate Its(wallet: string, r: Uptime) { r.eligible && r.wallet == wallet }

  /** An allocation is of its wallet's eligible records, each as often as it was given: so many of them, these pairs,
      and the mean of their uptimes. */
  ghost predicate AccountsFor(records: seq<Uptime>, a: WalletAllocation, mine: seq<Uptime>) {
    && (forall r: Uptime :: multiset(mine)[r] == if Its(a.wallet, r) then multiset(records)[r] else 0)
    && a.count == |mine| > 0 && multiset(a.pairs) == multiset(Map(PairOf, mine)) && Sorted(TextPairLe, a.pairs)
    && a.average * a.count as real == Total(Map(UptimeOf, mine)) as real
  }

  lemma MeanTimesCount(total: int, count: nat)
    requires count > 0
    ensures total as real / count as real * count as real == total as real
  {}

  lemma WeightSumsUp(wallet: string, mine: seq<Uptime>)
    requires mine != []
    ensures var w := WeightOf(wallet, mine);
            && w.wallet == wallet && w.count == |mine| > 0
            && multiset(w.pairs) == multiset(Map(PairOf, mine)) && Sorted(TextPairLe, w.pairs)
            && w.average * w.count as real == Total(Map(UptimeOf, mine)) as real
  {
    hide TextPairLe, Sorted, Sort, Total;
    TextPairOrder();
    SortIsSortedPermutation(TextPairLe, Pairs(mine));
    MeanTimesCount(UptimeTotal(mine), |mine|);
  }

  lemma OnlyIts(records: seq<Uptime>, wallet: string)
    ensures forall r: Uptime :: multiset(OfWallet(records, wallet))[r]
                                == if Its(wallet, r) then multiset(records)[r] else 0
  {
    hide OfWallet;
    forall r: Uptime
      ensures multiset(OfWallet(records, wallet))[r] == if Its(wallet, r) then multiset(records)[r] else 0
    {
      OfWalletCounts(records, wallet, r);
    }
  }

  lemma EveryAllocationIsBacked(records: seq<Uptime>, budget: nat, i: nat) returns (mine: seq<Uptime>)
    requires i < |Outcome(records, budget).allocations|
    ensures AccountsFor(records, Outcome(records, budget).allocations[i], mine)
  {
    hide Outcome, Weights, TextPairLe, OfWallet, Sorted, Sort, Wallets, WeightOf, Its, Total, Map;
    AllocationsAreTheWeights(records, budget);
    WeightsAreOfTheirRecords(records, i);
    mine := OfWallet(records, Outcome(records, budget).allocations[i].wallet);
    OnlyIts(records, Outcome(records, budget).allocations[i].wallet);
    WeightSumsUp(Outcome(records, budget).allocations[i].wallet, mine);
  }

  /** Every record is one of a wallet with an allocation, or among the excluded ones: exactly by its eligibility, and
      the excluded ones as often as they were given. */
  lemma EveryRecordIsUsed(records: seq<Uptime>, budget: nat, r: Uptime)
    ensures var o := Outcome(records, budget);
            && multiset(o.excluded)[r] == (if r.eligible then 0 else multiset(records)[r])
            && (r in records && r.eligible ==> exists a :: a in o.allocations && a.wallet == r.wallet)
  {
    AllocationsAreTheWeights(records, budget);
    ExcludedCounts(records, r);
    hide Outcome, Weights, Excluded;
    if r in records && r.eligible {
      var i := WeightOfWallet(records, r.wallet);
      assert Outcome(records, budget).allocations[i] in Outcome(records, budget).allocations;
    }
  }
}

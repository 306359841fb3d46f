/** Splitting a cycle's budget between wallets (orchard_chia/allocation/engine.py).

    A wallet is weighted by the average uptime of its eligible (tree, sensor) pairs, and the budget
    is split by the largest remainder. The loops are methods; what they compute is `Weights` and
    `Split`, and the promises of the engine are the lemmas about `Split` at the end. */
module Allocation {
  import opened Ordering
  import opened Sums
  import opened Apportionment

  datatype UptimeRecord = UptimeRecord(tree: string, sensor: string, wallet: string, uptime: int,
                                       eligible: bool, reason: Option<string>)

  /** What the constructor of a record enforces. */
  predicate WellFormed(r: UptimeRecord) {
    r.tree != "" && r.sensor != "" && r.wallet != "" && 0 <= r.uptime <= 10000
  }

  type Uptime = r: UptimeRecord | WellFormed(r) witness UptimeRecord("t", "s", "w", 0, true, None)

  type TreeSensor = (string, string)

  datatype WalletWeight = WalletWeight(wallet: string, count: nat, total: int, average: real, pairs: seq<TreeSensor>)

  datatype WalletAllocation = WalletAllocation(wallet: string, amount: int, average: real, count: nat, share: real,
                                               pairs: seq<TreeSensor>)

  datatype Unspent = NoEligiblePairs | AllZeroUptime

  datatype Allocations = Allocations(budget: int, distributed: int, allocations: seq<WalletAllocation>,
                                     totalWeight: real, excluded: seq<Uptime>, unspent: Option<Unspent>)

  datatype Refusal = NegativeBudget | NotExact

  // Weights.

  function OfWallet(records: seq<Uptime>, wallet: string): seq<Uptime> {
    if records == [] then []
    else
      var front, r := OfWallet(records[..|records| - 1], wallet), records[|records| - 1];
      if r.eligible && r.wallet == wallet then front + [r] else front
  }

  function Excluded(records: seq<Uptime>): seq<Uptime> {
    if records == [] then []
    else
      var front, r := Excluded(records[..|records| - 1]), records[|records| - 1];
      if r.eligible then front else front + [r]
  }

  function Wallets(records: seq<Uptime>): set<string> {
    set r | r in records && r.eligible :: r.wallet
  }

  function UptimeOf(r: Uptime): int { r.uptime }

  function PairOf(r: Uptime): TreeSensor { (r.tree, r.sensor) }

  function UptimeTotal(records: seq<Uptime>): int { Total(Map(UptimeOf, records)) }

  function Pairs(records: seq<Uptime>): seq<TreeSensor> { Map(PairOf, records) }

  function WeightOf(wallet: string, rs: seq<Uptime>): WalletWeight
    requires rs != []
  {
    var total := UptimeTotal(rs);
    WalletWeight(wallet, |rs|, total, total as real / |rs| as real, Sort(TextPairLe, Pairs(rs)))
  }

  lemma {:induction false} WalletsHaveRecords(records: seq<Uptime>, wallet: string)
    ensures wallet in Wallets(records) <==> OfWallet(records, wallet) != []
  {
    if records != [] {
      var front, r := records[..|records| - 1], records[|records| - 1];
      WalletsHaveRecords(front, wallet);
      assert records == front + [r];
    }
  }

  function WeightsFor(records: seq<Uptime>, wallets: seq<string>): (r: seq<WalletWeight>)
    requires forall w :: w in wallets ==> w in Wallets(records)
    ensures |r| == |wallets|
  {
    if wallets == [] then []
    else
      var w := wallets[|wallets| - 1];
      WalletsHaveRecords(records, w);
      WeightsFor(records, wallets[..|wallets| - 1]) + [WeightOf(w, OfWallet(records, w))]
  }

  /** One weight for each wallet with an eligible record, by address. */
  ghost function Weights(records: seq<Uptime>): seq<WalletWeight> {
    TextOrder();
    AscendingIsSortedListing(TextLe, Wallets(records));
    WeightsFor(records, Ascending(TextLe, Wallets(records)))
  }

  /** The grouping dictionary after some of the records. */
  ghost predicate Groups(grouped: map<string, seq<Uptime>>, records: seq<Uptime>) {
    && grouped.Keys == Wallets(records)
    && forall w :: w in grouped ==> grouped[w] == OfWallet(records, w)
  }

  method Group(grouped: map<string, seq<Uptime>>, ghost before: seq<Uptime>, r: Uptime)
    returns (next: map<string, seq<Uptime>>)
    requires Groups(grouped, before)
    ensures Groups(next, before + [r])
  {
    ghost var after := before + [r];
    assert after[..|after| - 1] == before;
    assert Wallets(after) == Wallets(before) + if r.eligible then {r.wallet} else {};
    if !r.eligible { return grouped; }
    var rs := if r.wallet in grouped then grouped[r.wallet] else [];
    WalletsHaveRecords(before, r.wallet);
    next := grouped[r.wallet := rs + [r]];
  }

  method WalletWeights(records: seq<Uptime>) returns (weights: seq<WalletWeight>)
    ensures weights == Weights(records)
  {
    hide Wallets, OfWallet, TextLe, WeightOf, Ascending, Sorted, Distinct;
    var grouped: map<string, seq<Uptime>> := map[];
    NoGroups();
    for i := 0 to |records|
      invariant Groups(grouped, records[..i])
    {
      grouped := Group(grouped, records[..i], records[i]);
      assert records[..i] + [records[i]] == records[..i + 1];
    }
    assert records[..|records|] == records;
    var wallets := AscendText(grouped.Keys);
    weights := [];
    TextOrder();
    AscendingIsSortedListing(TextLe, Wallets(records));
    for i := 0 to |wallets|
      invariant weights == WeightsFor(records, wallets[..i])
    {
      var w := wallets[i];
      assert w in grouped.Keys;
      WalletsHaveRecords(records, w);
      assert wallets[..i + 1][..i] == wallets[..i];
      weights := weights + [WeightOf(w, grouped[w])];
    }
    assert wallets[..|wallets|] == wallets;
  }

  lemma NoGroups()
    ensures Groups(map[], [])
  {}

  // The split.

  function Averages(weights: seq<WalletWeight>): (r: seq<real>)
    ensures |r| == |weights|
  {
    seq(|weights|, i requires 0 <= i < |weights| => weights[i].average)
  }

  datatype Claim = Claim(fraction: real, wallet: string, index: nat)

  /** Largest discarded fraction first, then by address. */
  predicate ClaimLe(a: Claim, b: Claim) {
    a.fraction > b.fraction || (a.fraction == b.fraction && TextLe(a.wallet, b.wallet))
  }

  lemma ClaimOrder()
    ensures TotalPreorder(ClaimLe)
  {
    TextOrder();
    hide TextLe;
  }

  function Claims(weights: seq<WalletWeight>, quotas: seq<real>): (r: seq<Claim>)
    requires |weights| == |quotas|
    ensures |r| == |weights|
  {
    seq(|weights|, i requires 0 <= i < |weights| => Claim(Fraction(quotas[i]), weights[i].wallet, i))
  }

  ghost predicate Indexed(order: seq<Claim>) {
    forall i :: 0 <= i < |order| ==> order[i].index < |order|
  }

  /** The extra mojos after `k` of them have been handed out, round the order. */
  function Bumps(order: seq<Claim>, k: nat): (r: seq<int>)
    requires Indexed(order) && (k > 0 ==> order != [])
    ensures |r| == |order|
    decreases k
  {
    if k == 0 then Zeros(|order|)
    else
      var b, i := Bumps(order, k - 1), order[Turn(k - 1, |order|)].index;
      b[i := b[i] + 1]
  }

  /** Whose turn it is: round and round. */
  function Turn(n: nat, length: nat): (r: nat)
    requires length > 0
    ensures r < length
  {
    n % length
  }

  function Allotted(weights: seq<WalletWeight>, shares: seq<real>, amounts: seq<int>): (r: seq<WalletAllocation>)
    requires |weights| == |shares| == |amounts|
    ensures |r| == |weights|
  {
    seq(|weights|, i requires 0 <= i < |weights| =>
      var w := weights[i];
      WalletAllocation(w.wallet, amounts[i], w.average, w.count, shares[i], w.pairs))
  }

  function Amounts(a: seq<WalletAllocation>): (r: seq<int>)
    ensures |r| == |a|
  {
    seq(|a|, i requires 0 <= i < |a| => a[i].amount)
  }

  /** The amounts for a positive total weight. */
  function SplitAmounts(weights: seq<WalletWeight>, quotas: seq<real>, budget: int): (r: seq<int>)
    requires |weights| == |quotas|
    requires weights != [] && Sum(quotas) == budget as real
    ensures |r| == |weights|
  {
    var order := Sort(ClaimLe, Claims(weights, quotas));
    LeftoverRange(quotas, budget);
    OrderOfClaims(weights, quotas);
    Plus(Floors(quotas), Bumps(order, Leftover(quotas, budget)))
  }

  lemma {:induction false} ClaimsAreASet(weights: seq<WalletWeight>, quotas: seq<real>)
    requires |weights| == |quotas|
    ensures multiset(Claims(weights, quotas)) == multiset(set c | c in Claims(weights, quotas))
  {
    DistinctListing(Claims(weights, quotas), set c | c in Claims(weights, quotas));
  }

  /** The order runs through every claim once. */
  lemma OrderOfClaims(weights: seq<WalletWeight>, quotas: seq<real>)
    requires |weights| == |quotas|
    ensures var order := Sort(ClaimLe, Claims(weights, quotas));
            && |order| == |weights| && Indexed(order) && Distinct(order) && Sorted(ClaimLe, order)
            && (forall p :: 0 <= p < |order| ==> order[p] == Claims(weights, quotas)[order[p].index])
            && (forall c :: c in Claims(weights, quotas) ==> c in order)
  {
    var claims := Claims(weights, quotas);
    var order := Sort(ClaimLe, claims);
    ClaimOrder();
    hide ClaimLe;
    SortIsSortedPermutation(ClaimLe, claims);
    SortMembers(ClaimLe, claims);
    ClaimsAreASet(weights, quotas);
    MultisetOfSet(order, set c | c in claims);
    forall p | 0 <= p < |order| ensures order[p].index < |order| && order[p] == claims[order[p].index] {
      assert order[p] in claims;
    }
  }

  lemma {:induction false} TotalBumped(b: seq<int>, i: nat)
    requires i < |b|
    ensures Total(b[i := b[i] + 1]) == Total(b) + 1
  {
    var m := |b| - 1;
    if i == m {
      assert b[i := b[i] + 1][..m] == b[..m];
    } else {
      TotalBumped(b[..m], i);
      assert b[i := b[i] + 1][..m] == b[..m][i := b[i] + 1];
    }
  }

  predicate IndicesDiffer(order: seq<Claim>) {
    forall i, j :: 0 <= i < j < |order| ==> order[i].index != order[j].index
  }

  lemma BumpStep(order: seq<Claim>, k: nat)
    requires Indexed(order) && 0 < k <= |order|
    ensures var b, i := Bumps(order, k - 1), order[k - 1].index;
            Bumps(order, k) == b[i := b[i] + 1]
  {
    FirstRound(k - 1, |order|);
    hide Turn;
  }

  lemma FirstRound(n: nat, length: nat)
    requires n < length
    ensures Turn(n, length) == n
  {}

  /** With no more mojos than claims, the first ones in the order get one each. */
  lemma {:induction false} BumpsAreFirst(order: seq<Claim>, k: nat)
    requires Indexed(order) && IndicesDiffer(order) && k <= |order|
    ensures Total(Bumps(order, k)) == k
    ensures forall p :: 0 <= p < |order| ==> Bumps(order, k)[order[p].index] == if p < k then 1 else 0
    decreases k
  {
    if k == 0 {
      TotalZeros(|order|);
    } else {
      BumpsAreFirst(order, k - 1);
      BumpStep(order, k);
      TotalBumped(Bumps(order, k - 1), order[k - 1].index);
      hide Bumps, Total;
    }
  }

  /** The bumps of the loop prefer larger fractions. */
  lemma BumpsAreFair(weights: seq<WalletWeight>, quotas: seq<real>, k: nat)
    requires |weights| == |quotas| && k <= |weights|
    ensures var order := Sort(ClaimLe, Claims(weights, quotas));
            |order| == |weights| && Indexed(order) && FairBump(Bumps(order, k), quotas, k)
  {
    OrderOfClaims(weights, quotas);
    var claims := Claims(weights, quotas);
    var order := Sort(ClaimLe, claims);
    hide Bumps, Sort, TextLe, ClaimLe, Sorted, Total;
    OrderHasDistinctIndices(order, claims);
    BumpsAreFirst(order, k);
    var bump := Bumps(order, k);
    forall i, j | 0 <= i < |quotas| && 0 <= j < |quotas| && bump[i] == 1 && bump[j] == 0
      ensures Fraction(quotas[i]) >= Fraction(quotas[j])
    {
      LargerFirst(order, bump, k, claims[i], claims[j]);
    }
    forall i | 0 <= i < |bump| ensures bump[i] == 0 || bump[i] == 1 {
      assert claims[i] in order;
    }
  }

  lemma OrderHasDistinctIndices(order: seq<Claim>, claims: seq<Claim>)
    requires Distinct(order)
    requires forall p :: 0 <= p < |order| ==> order[p].index < |claims| && order[p] == claims[order[p].index]
    ensures IndicesDiffer(order)
  {}

  lemma LargerFirst(order: seq<Claim>, bump: seq<int>, k: nat, a: Claim, b: Claim)
    requires Sorted(ClaimLe, order) && Indexed(order) && |bump| == |order|
    requires forall p :: 0 <= p < |order| ==> bump[order[p].index] == if p < k then 1 else 0
    requires a in order && b in order
    ensures bump[a.index] == 1 && bump[b.index] == 0 ==> a.fraction >= b.fraction
  {
    hide TextLe;
    var p :| 0 <= p < |order| && order[p] == a;
    var r :| 0 <= r < |order| && order[r] == b;
  }

  /** `allocate`, on weights. */
  function SplitWeights(weights: seq<WalletWeight>, budget: int, excluded: seq<Uptime>): Allocations {
    var averages := Averages(weights);
    var total := Sum(averages);
    if weights == [] then Allocations(budget, 0, [], 0.0, excluded, Some(NoEligiblePairs))
    else if total == 0.0 then
      Allocations(budget, 0, Allotted(weights, Noughts(|weights|), Zeros(|weights|)), 0.0, excluded,
                  Some(AllZeroUptime))
    else
      var shares := Shares(averages, total);
      QuotasSumToBudget(averages, budget);
      var amounts := SplitAmounts(weights, Quotas(shares, budget), budget);
      Allocations(budget, budget, Allotted(weights, shares, amounts), total, excluded, None)
  }

  function Noughts(n: nat): (r: seq<real>)
    ensures |r| == n
  {
    seq(n, _ => 0.0)
  }

  ghost function Split(records: seq<Uptime>, budget: int): Result<Allocations, Refusal> {
    if budget < 0 then Err(NegativeBudget) else Ok(SplitWeights(Weights(records), budget, Excluded(records)))
  }

  method ExcludedRecords(records: seq<Uptime>) returns (r: seq<Uptime>)
    ensures r == Excluded(records)
  {
    r := [];
    for i := 0 to |records|
      invariant r == Excluded(records[..i])
    {
      assert records[..i + 1][..i] == records[..i];
      if !records[i].eligible { r := r + [records[i]]; }
    }
    assert records[..|records|] == records;
  }

  method FloorAll(quotas: seq<real>) returns (floors: seq<int>)
    ensures floors == Floors(quotas)
  {
    floors := [];
    for i := 0 to |quotas|
      invariant floors == Floors(quotas)[..i]
    {
      floors := floors + [quotas[i].Floor];
    }
  }

  method HandOut(order: seq<Claim>, leftover: nat) returns (bump: seq<int>)
    requires Indexed(order) && order != []
    ensures bump == Bumps(order, leftover)
  {
    bump := Zeros(|order|);
    for n := 0 to leftover
      invariant bump == Bumps(order, n)
    {
      var i := order[Turn(n, |order|)].index;
      bump := bump[i := bump[i] + 1];
    }
  }

  /** The loops over a positive total weight: floors, order and bumps. */
  method SplitLoop(weights: seq<WalletWeight>, quotas: seq<real>, budget: int) returns (amounts: seq<int>)
    requires |weights| == |quotas| && weights != [] && Sum(quotas) == budget as real
    ensures amounts == SplitAmounts(weights, quotas, budget)
  {
    hide Sort, ClaimLe, Bumps, Sum, Total, Floors, Distinct, Sorted;
    var floors := FloorAll(quotas);
    LeftoverRange(quotas, budget);
    OrderOfClaims(weights, quotas);
    var order := Sort(ClaimLe, Claims(weights, quotas));
    var bump := HandOut(order, budget - Total(floors));
    amounts := Plus(floors, bump);
  }

  /** NotExact is the engine's AssertionError; it is never returned. */
  method Allocate(records: seq<Uptime>, budget: int) returns (r: Result<Allocations, Refusal>)
    ensures r == Split(records, budget)
  {
    hide Weights, Excluded, SplitAmounts;
    if budget < 0 { return Err(NegativeBudget); }
    var excluded := ExcludedRecords(records);
    var weights := WalletWeights(records);
    if weights == [] {
      return Ok(Allocations(budget, 0, [], 0.0, excluded, Some(NoEligiblePairs)));
    }
    var averages := Averages(weights);
    var total := Sum(averages);
    if total == 0.0 {
      return Ok(Allocations(budget, 0, Allotted(weights, Noughts(|weights|), Zeros(|weights|)), 0.0, excluded,
                            Some(AllZeroUptime)));
    }
    var shares := Shares(averages, total);
    QuotasSumToBudget(averages, budget);
    var amounts := SplitLoop(weights, Quotas(shares, budget), budget);
    var allocations := Allotted(weights, shares, amounts);
    SplitIsExact(weights, Quotas(shares, budget), budget);
    assert Amounts(allocations) == amounts;
    var sum := Total(Amounts(allocations));
    if sum != budget { return Err(NotExact); }
    return Ok(Allocations(budget, sum, allocations, total, excluded, None));
  }

  lemma SplitIsExact(weights: seq<WalletWeight>, quotas: seq<real>, budget: int)
    requires |weights| == |quotas| && weights != [] && Sum(quotas) == budget as real
    ensures Total(SplitAmounts(weights, quotas, budget)) == budget
  {
    LeftoverRange(quotas, budget);
    BumpsAreFair(weights, quotas, Leftover(quotas, budget));
    hide Bumps, Sort, ClaimLe;
    NothingLeftOver(Bumps(Sort(ClaimLe, Claims(weights, quotas)), Leftover(quotas, budget)), quotas, budget);
  }

  // What the engine promises.

  ghost function Outcome(records: seq<Uptime>, budget: nat): Allocations { Split(records, budget).value }

  lemma {:induction false} UptimeTotalSign(rs: seq<Uptime>)
    ensures UptimeTotal(rs) >= 0
    ensures UptimeTotal(rs) > 0 <==> exists r :: r in rs && r.uptime > 0
  {
    if rs != [] {
      var front, last := rs[..|rs| - 1], rs[|rs| - 1];
      UptimeTotalSign(front);
      assert Map(UptimeOf, rs)[..|rs| - 1] == Map(UptimeOf, front);
      assert rs == front + [last];
      assert last in rs;
    }
  }

  lemma {:induction false} OfWalletMembers(records: seq<Uptime>, wallet: string, r: Uptime)
    ensures r in OfWallet(records, wallet) <==> r in records && r.eligible && r.wallet == wallet
  {
    if records != [] {
      OfWalletMembers(records[..|records| - 1], wallet, r);
      assert records == records[..|records| - 1] + [records[|records| - 1]];
    }
  }

  lemma {:induction false} WeightsForAt(records: seq<Uptime>, wallets: seq<string>, i: nat)
    requires forall w :: w in wallets ==> w in Wallets(records)
    requires i < |wallets|
    ensures OfWallet(records, wallets[i]) != []
    ensures WeightsFor(records, wallets)[i] == WeightOf(wallets[i], OfWallet(records, wallets[i]))
    decreases |wallets|
  {
    hide OfWallet, Wallets, WeightOf;
    WalletsHaveRecords(records, wallets[i]);
    if i < |wallets| - 1 { WeightsForAt(records, wallets[..|wallets| - 1], i); }
  }

  lemma WeightDescribes(records: seq<Uptime>, i: nat)
    requires i < |Weights(records)|
    ensures |Weights(records)| == |Ascending(TextLe, Wallets(records))|
    ensures Weights(records)[i].wallet == Ascending(TextLe, Wallets(records))[i]
    ensures DescribesWallet(records, Weights(records)[i])
  {
    TextOrder();
    AscendingIsSortedListing(TextLe, Wallets(records));
    var wallets := Ascending(TextLe, Wallets(records));
    assert Weights(records) == WeightsFor(records, wallets);
    hide Wallets, OfWallet, Ascending, TextLe, Sorted, Distinct, WeightOf, Weights, DescribesWallet;
    WeightsForAt(records, wallets, i);
    WeightOfDescribes(records, wallets[i]);
  }

  lemma WeightOfDescribes(records: seq<Uptime>, wallet: string)
    requires wallet in Wallets(records) && OfWallet(records, wallet) != []
    ensures WeightOf(wallet, OfWallet(records, wallet)).wallet == wallet
    ensures DescribesWallet(records, WeightOf(wallet, OfWallet(records, wallet)))
  {
    hide Wallets, OfWallet, UptimeTotal, Pairs, Sort;
    var rs := OfWallet(records, wallet);
    UptimeTotalSign(rs);
    NonNegativeAverage(UptimeTotal(rs), |rs|);
  }

  lemma NonNegativeAverage(total: int, count: nat)
    requires count > 0 && total >= 0
    ensures total as real / count as real >= 0.0
  {}

  /** One weight for every wallet with an eligible record, each its records' average uptime. */
  lemma WeightsDescribe(records: seq<Uptime>)
    ensures var ws := Weights(records);
            && |ws| == |Wallets(records)|
            && (forall i, j :: 0 <= i < j < |ws| ==> ws[i].wallet != ws[j].wallet)
            && (forall i :: 0 <= i < |ws| ==> DescribesWallet(records, ws[i]))
  {
    TextOrder();
    AscendingIsSortedListing(TextLe, Wallets(records));
    hide Wallets, OfWallet, Ascending, TextLe, Sorted, Weights, DescribesWallet;
    var wallets, ws := Ascending(TextLe, Wallets(records)), Weights(records);
    forall i | 0 <= i < |ws|
      ensures |ws| == |wallets| && DescribesWallet(records, ws[i]) && ws[i].wallet == wallets[i]
    {
      WeightDescribes(records, i);
    }
    WeightsLength(records);
  }

  lemma WeightsLength(records: seq<Uptime>)
    ensures |Weights(records)| == |Ascending(TextLe, Wallets(records))|
  {
    TextOrder();
    AscendingIsSortedListing(TextLe, Wallets(records));
    hide Wallets, Ascending, TextLe, Sorted, Distinct;
  }

  lemma WeightOfWallet(records: seq<Uptime>, wallet: string) returns (i: nat)
    requires wallet in Wallets(records)
    ensures i < |Weights(records)| && Weights(records)[i].wallet == wallet
  {
    TextOrder();
    AscendingIsSortedListing(TextLe, Wallets(records));
    hide Wallets, OfWallet, Ascending, TextLe, Sorted, Weights, DescribesWallet, Distinct;
    var wallets := Ascending(TextLe, Wallets(records));
    i :| 0 <= i < |wallets| && wallets[i] == wallet;
    WeightsLength(records);
    WeightDescribes(records, i);
  }

  ghost predicate DescribesWallet(records: seq<Uptime>, w: WalletWeight) {
    var rs := OfWallet(records, w.wallet);
    && w.wallet in Wallets(records)
    && rs != [] && w.count == |rs| && w.total == UptimeTotal(rs)
    && w.average == UptimeTotal(rs) as real / |rs| as real && w.average >= 0.0
  }

  /** One allocation for every weight, in the same order. */
  lemma AllocationsFollowWeights(records: seq<Uptime>, budget: nat)
    ensures var ws, r := Weights(records), Outcome(records, budget);
            |r.allocations| == |ws| && forall i :: 0 <= i < |ws| ==> r.allocations[i].wallet == ws[i].wallet
  {
    hide Weights, SplitAmounts, Excluded, Sum, Averages;
  }

  ghost predicate SomeUptime(records: seq<Uptime>) {
    exists r :: r in records && r.eligible && r.uptime > 0
  }

  lemma UptimeIsWeight(records: seq<Uptime>)
    ensures var averages := Averages(Weights(records));
            && (forall i :: 0 <= i < |averages| ==> averages[i] >= 0.0)
            && Sum(averages) >= 0.0 && (Sum(averages) > 0.0 <==> SomeUptime(records))
  {
    WeightsDescribe(records);
    var ws := Weights(records);
    var averages := Averages(ws);
    hide Weights, Sum;
    SumSign(averages);
    if SomeUptime(records) {
      var r :| r in records && r.eligible && r.uptime > 0;
      assert r.wallet in Wallets(records);
      var i := WeightOfWallet(records, r.wallet);
      assert DescribesWallet(records, ws[i]);
      var rs := OfWallet(records, r.wallet);
      OfWalletMembers(records, r.wallet, r);
      UptimeTotalSign(rs);
      PositiveAverage(UptimeTotal(rs), |rs|);
      assert averages[i] > 0.0;
    }
    if i :| 0 <= i < |averages| && averages[i] > 0.0 {
      assert DescribesWallet(records, ws[i]);
      var rs := OfWallet(records, ws[i].wallet);
      UptimeTotalSign(rs);
      PositiveAverage(UptimeTotal(rs), |rs|);
      var r :| r in rs && r.uptime > 0;
      OfWalletMembers(records, ws[i].wallet, r);
    }
  }

  lemma PositiveAverage(total: int, count: nat)
    requires count > 0 && total >= 0
    ensures total as real / count as real > 0.0 <==> total > 0
  {}

  /** The whole budget is paid exactly when some eligible record has uptime; otherwise nothing is. */
  lemma AllOrNothing(records: seq<Uptime>, budget: nat)
    ensures var r := Outcome(records, budget);
            && r.distributed == Total(Amounts(r.allocations)) == (if SomeUptime(records) then budget else 0)
            && (r.totalWeight > 0.0 <==> SomeUptime(records))
            && (r.unspent == None <==> SomeUptime(records))
            && (!SomeUptime(records) ==> forall i :: 0 <= i < |r.allocations| ==> r.allocations[i].amount == 0)
  {
    UptimeIsWeight(records);
    var ws := Weights(records);
    var averages := Averages(ws);
    hide Weights, SplitAmounts, Total, Excluded;
    var r := Outcome(records, budget);
    EmptyTotal();
    if ws == [] {
      assert averages == [];
      assert Sum(averages) == 0.0;
    } else if Sum(averages) == 0.0 {
      assert Amounts(r.allocations) == Zeros(|ws|);
      TotalZeros(|ws|);
    } else {
      QuotasSumToBudget(averages, budget);
      var quotas := Quotas(Shares(averages, Sum(averages)), budget);
      SplitIsExact(ws, quotas, budget);
      assert Amounts(r.allocations) == SplitAmounts(ws, quotas, budget);
    }
  }

  /** The exact quota of every allocation. */
  ghost function ExactQuotas(records: seq<Uptime>, budget: nat): seq<real>
    requires SomeUptime(records)
  {
    UptimeIsWeight(records);
    var averages := Averages(Weights(records));
    Quotas(Shares(averages, Sum(averages)), budget)
  }

  lemma SplitFacts(records: seq<Uptime>, budget: nat) returns (bump: seq<int>)
    requires SomeUptime(records)
    ensures var r, q := Outcome(records, budget), ExactQuotas(records, budget);
            && |r.allocations| == |q| == |Weights(records)| && Sum(q) == budget as real
            && FairBump(bump, q, Leftover(q, budget))
            && Amounts(r.allocations) == Plus(Floors(q), bump)
            && (forall i :: 0 <= i < |q| ==> r.allocations[i].average == Weights(records)[i].average)
            && (forall i :: 0 <= i < |q| ==> r.allocations[i].wallet == Weights(records)[i].wallet)
            && r.totalWeight > 0.0
            && (forall i :: 0 <= i < |q| ==> q[i] == Quota(budget, Share(r.allocations[i].average, r.totalWeight)))
  {
    UptimeIsWeight(records);
    var ws := Weights(records);
    var averages := Averages(ws);
    var q := ExactQuotas(records, budget);
    hide Weights, Total, Sum, Excluded, SomeUptime, Quota, Share;
    assert averages != [] by { EmptySum(); }
    QuotasSumToBudget(averages, budget);
    LeftoverRange(q, budget);
    BumpsAreFair(ws, q, Leftover(q, budget));
    hide Bumps, Sort, ClaimLe, Floors, FairBump;
    bump := Bumps(Sort(ClaimLe, Claims(ws, q)), Leftover(q, budget));
    assert Amounts(Outcome(records, budget).allocations) == Plus(Floors(q), bump);
  }

  /** Every wallet gets its exact quota rounded down or up, and nothing at average zero. */
  lemma QuotaRuleHolds(records: seq<Uptime>, budget: nat, i: nat)
    requires SomeUptime(records) && i < |Outcome(records, budget).allocations|
    ensures var r := Outcome(records, budget);
            var a := r.allocations[i];
            && r.totalWeight > 0.0 && 0 <= a.amount
            && a.share == Share(a.average, r.totalWeight)
            && (a.amount == Quota(budget, a.share).Floor || a.amount == Ceil(Quota(budget, a.share)))
            && (a.average == 0.0 ==> a.amount == 0)
  {
    UptimeIsWeight(records);
    var bump := SplitFacts(records, budget);
    var q := ExactQuotas(records, budget);
    var r := Outcome(records, budget);
    SharesAre(records, budget, i);
    hide Outcome, ExactQuotas, Weights, FairBump, Floors, Plus, Sum, SomeUptime, Leftover, Quota, Share;
    QuotaRule(bump, q, budget, i);
    assert Amounts(r.allocations)[i] == r.allocations[i].amount;
    QuotaSign(budget, r.allocations[i].average, r.totalWeight);
  }

  lemma SharesAre(records: seq<Uptime>, budget: nat, i: nat)
    requires SomeUptime(records) && i < |Outcome(records, budget).allocations|
    ensures var r := Outcome(records, budget);
            r.totalWeight > 0.0 && r.allocations[i].share == Share(r.allocations[i].average, r.totalWeight)
            && r.allocations[i].average >= 0.0
  {
    UptimeIsWeight(records);
    hide Weights, SplitAmounts, Sum, Excluded, SomeUptime;
    EmptySum();
  }

  lemma QuotaSign(budget: nat, average: real, total: real)
    requires average >= 0.0 && total > 0.0
    ensures Quota(budget, Share(average, total)) >= 0.0
    ensures average == 0.0 ==> Quota(budget, Share(average, total)) == 0.0
  {
    assert Share(average, total) >= 0.0;
  }

  /** A larger average never gets less, and equal averages differ by at most one mojo. */
  lemma AveragesKeepTheirOrder(records: seq<Uptime>, budget: nat, i: nat, j: nat)
    requires SomeUptime(records)
    requires i < |Outcome(records, budget).allocations| && j < |Outcome(records, budget).allocations|
    ensures var a, b := Outcome(records, budget).allocations[i], Outcome(records, budget).allocations[j];
            && (a.average < b.average ==> a.amount <= b.amount)
            && (a.average == b.average ==> -1 <= a.amount - b.amount <= 1)
  {
    UptimeIsWeight(records);
    var bump := SplitFacts(records, budget);
    var q := ExactQuotas(records, budget);
    var r := Outcome(records, budget);
    hide Outcome, ExactQuotas, Weights, Floors, Plus, Sum, SomeUptime, Leftover, Quota, Share, FairBump;
    var a, b := r.allocations[i], r.allocations[j];
    assert Amounts(r.allocations)[i] == a.amount && Amounts(r.allocations)[j] == b.amount;
    QuotaOrder(budget, a.average, b.average, r.totalWeight);
    if q[i] < q[j] {
      NeverReversed(bump, q, Leftover(q, budget), i, j);
    } else if q[i] == q[j] {
      SameQuota(bump, q, Leftover(q, budget), i, j);
    }
    if budget == 0 {
      NoBudget(bump, q, i, a.average, r.totalWeight);
      NoBudget(bump, q, j, b.average, r.totalWeight);
    }
  }

  lemma NoBudget(bump: seq<int>, q: seq<real>, i: nat, average: real, total: real)
    requires Sum(q) == 0.0 && FairBump(bump, q, Leftover(q, 0))
    requires i < |q| && total != 0.0 && q[i] == Quota(0, Share(average, total))
    ensures Plus(Floors(q), bump)[i] == 0
  {
    hide Share, FairBump, Leftover, Floors, Sum;
    QuotaRule(bump, q, 0, i);
  }

  lemma QuotaOrder(budget: nat, x: real, y: real, total: real)
    requires total > 0.0
    ensures x < y && budget > 0 ==> Quota(budget, Share(x, total)) < Quota(budget, Share(y, total))
  {
    if x < y && budget > 0 {
      assert Share(x, total) < Share(y, total);
      StrictProduct(budget as real, Share(x, total), Share(y, total));
    }
  }

  lemma StrictProduct(b: real, x: real, y: real)
    requires b > 0.0 && x < y
    ensures b * x < b * y
  {}

  lemma SameQuota(bump: seq<int>, q: seq<real>, left: int, i: nat, j: nat)
    requires FairBump(bump, q, left) && i < |q| && j < |q| && q[i] == q[j]
    ensures -1 <= Plus(Floors(q), bump)[i] - Plus(Floors(q), bump)[j] <= 1
  {}

  /** No split of the budget into whole mojos, however chosen, is closer to the exact quotas in total. */
  lemma NoSplitIsCloser(records: seq<Uptime>, budget: nat, y: seq<int>)
    requires SomeUptime(records)
    requires |y| == |ExactQuotas(records, budget)| && Total(y) == budget
    ensures var r := Outcome(records, budget);
            |r.allocations| == |y|
            && Deviation(Amounts(r.allocations), ExactQuotas(records, budget))
               <= Deviation(y, ExactQuotas(records, budget))
  {
    var bump := SplitFacts(records, budget);
    hide Outcome, ExactQuotas, Weights, Floors, Plus, Sum, SomeUptime, Leftover, FairBump;
    LeastDeviation(bump, ExactQuotas(records, budget), budget, y);
  }

  // The order of the records.

  lemma {:induction false} OfWalletCounts(records: seq<Uptime>, wallet: string, r: Uptime)
    ensures multiset(OfWallet(records, wallet))[r] ==
            if r.eligible && r.wallet == wallet then multiset(records)[r] else 0
  {
    if records != [] {
      OfWalletCounts(records[..|records| - 1], wallet, r);
      assert records == records[..|records| - 1] + [records[|records| - 1]];
    }
  }

  lemma {:induction false} ExcludedCounts(records: seq<Uptime>, r: Uptime)
    ensures multiset(Excluded(records))[r] == if r.eligible then 0 else multiset(records)[r]
  {
    if records != [] {
      ExcludedCounts(records[..|records| - 1], r);
      assert records == records[..|records| - 1] + [records[|records| - 1]];
    }
  }

  lemma WeightOfPermutes(wallet: string, s: seq<Uptime>, t: seq<Uptime>)
    requires s != [] && t != [] && multiset(s) == multiset(t)
    ensures WeightOf(wallet, s) == WeightOf(wallet, t)
  {
    MapPermutes(UptimeOf, s, t);
    TotalPermutes(Map(UptimeOf, s), Map(UptimeOf, t));
    MapPermutes(PairOf, s, t);
    assert |multiset(s)| == |multiset(t)|;
    TextPairOrder();
    hide TextPairLe;
    SortIsSortedPermutation(TextPairLe, Pairs(s));
    SortIsSortedPermutation(TextPairLe, Pairs(t));
    SortedIsUnique(TextPairLe, Sort(TextPairLe, Pairs(s)), Sort(TextPairLe, Pairs(t)));
  }

  lemma {:induction false} WeightsForPermute(s: seq<Uptime>, t: seq<Uptime>, wallets: seq<string>)
    requires multiset(s) == multiset(t) && Wallets(s) == Wallets(t)
    requires forall w :: w in wallets ==> w in Wallets(s)
    ensures WeightsFor(s, wallets) == WeightsFor(t, wallets)
    decreases |wallets|
  {
    hide OfWallet, WeightOf, Wallets;
    if wallets != [] {
      var w := wallets[|wallets| - 1];
      WeightsForPermute(s, t, wallets[..|wallets| - 1]);
      WalletsHaveRecords(s, w);
      WalletsHaveRecords(t, w);
      forall r: Uptime ensures multiset(OfWallet(s, w))[r] == multiset(OfWallet(t, w))[r] {
        OfWalletCounts(s, w, r);
        OfWalletCounts(t, w, r);
      }
      assert multiset(OfWallet(s, w)) == multiset(OfWallet(t, w));
      WeightOfPermutes(w, OfWallet(s, w), OfWallet(t, w));
    }
  }

  lemma WalletsPermute(s: seq<Uptime>, t: seq<Uptime>)
    requires multiset(s) == multiset(t)
    ensures Wallets(s) == Wallets(t)
  {
    forall r ensures r in s <==> r in t {
      assert r in multiset(s) <==> r in multiset(t);
    }
  }

  lemma WeightsPermute(s: seq<Uptime>, t: seq<Uptime>)
    requires multiset(s) == multiset(t)
    ensures Weights(s) == Weights(t)
  {
    WalletsPermute(s, t);
    TextOrder();
    AscendingIsSortedListing(TextLe, Wallets(s));
    hide Wallets, TextLe, Ascending, Sorted, Distinct;
    WeightsForPermute(s, t, Ascending(TextLe, Wallets(s)));
  }

  lemma ExcludedPermute(s: seq<Uptime>, t: seq<Uptime>)
    requires multiset(s) == multiset(t)
    ensures multiset(Excluded(s)) == multiset(Excluded(t))
  {
    hide Excluded;
    forall r: Uptime ensures multiset(Excluded(s))[r] == multiset(Excluded(t))[r] {
      ExcludedCounts(s, r);
      ExcludedCounts(t, r);
    }
  }

  /** Only the list of excluded records remembers the order of the input. */
  lemma InputOrderIsIrrelevant(s: seq<Uptime>, t: seq<Uptime>, budget: nat)
    requires multiset(s) == multiset(t)
    ensures Outcome(s, budget) == Outcome(t, budget).(excluded := Excluded(s))
    ensures multiset(Excluded(s)) == multiset(Excluded(t))
  {
    hide Weights, Excluded, SplitAmounts, Sum;
    WeightsPermute(s, t);
    ExcludedPermute(s, t);
  }
}

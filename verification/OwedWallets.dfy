/** From Trees to wallets: what is recorded for a day is what its Trees earned, and it is what `pay` reads back
    (orchard_chia/economics/ledger.py, orchard_chia/economics/payment.py). */
module OwedWallets {
  import opened Ordering
  import opened Sums
  import opened Rewards
  import opened RewardInvariance
  import opened Settlement
  import opened Ledger
  import opened LedgerSafety
  import Emission
  import Audit
  import Payment

  // What the Trees of one wallet earned.

  /** What these Trees earn for a wallet when the weights of all Trees add up to `total`. */
  function EarnedFor(trees: seq<Tree>, total: real, ceiling: nat, wallet: string): int
    requires total != 0.0
  {
    if trees == [] then 0
    else
      var front, t := EarnedFor(trees[..|trees| - 1], total, ceiling, wallet), trees[|trees| - 1];
      if Counts(t) && t.wallet == wallet then front + RewardOf(t, total, ceiling).reward else front
  }

  /** A wallet's share of a list of rewards. */
  function ShareOf(wallet: string): TreeReward -> int {
    (r: TreeReward) => if r.wallet == wallet then r.reward else 0
  }

  function ValueAt(m: map<string, int>, wallet: string): int { if wallet in m then m[wallet] else 0 }

  lemma {:induction false} ByWalletSums(rewards: seq<TreeReward>, wallet: string)
    ensures ValueAt(ByWallet(rewards), wallet) == Total(Map(ShareOf(wallet), rewards))
  {
    if rewards == [] {
      EmptyTotal();
    } else {
      ByWalletSums(rewards[..|rewards| - 1], wallet);
      assert Map(ShareOf(wallet), rewards)[..|rewards| - 1] == Map(ShareOf(wallet), rewards[..|rewards| - 1]);
    }
  }

  lemma {:induction false} EarnedIsShare(trees: seq<Tree>, total: real, ceiling: nat, wallet: string)
    requires total != 0.0
    ensures Total(Map(ShareOf(wallet), Map(Rewarder(total, ceiling), Weighted(trees))))
            == EarnedFor(trees, total, ceiling, wallet)
  {
    EmptyTotal();
    if trees != [] {
      var front, t := trees[..|trees| - 1], trees[|trees| - 1];
      EarnedIsShare(front, total, ceiling, wallet);
      if Counts(t) {
        var f := Rewarder(total, ceiling);
        SharesSnoc(Map(f, Weighted(front)), f(t), wallet);
        assert Map(f, Weighted(front) + [t]) == Map(f, Weighted(front)) + [f(t)];
        assert f(t) == RewardOf(t, total, ceiling) && f(t).wallet == t.wallet;
      }
    }
  }

  lemma SharesSnoc(rewards: seq<TreeReward>, r: TreeReward, wallet: string)
    ensures Total(Map(ShareOf(wallet), rewards + [r]))
            == Total(Map(ShareOf(wallet), rewards)) + if r.wallet == wallet then r.reward else 0
  {
    assert Map(ShareOf(wallet), rewards + [r])[..|rewards|] == Map(ShareOf(wallet), rewards);
  }

  /** A day owes every wallet exactly what the wallet's own Trees earned. */
  lemma WalletIsOwedItsTrees(trees: seq<Tree>, ceiling: nat, wallet: string)
    requires Daily(trees, ceiling).Ok?
    ensures Weighted(trees) != [] ==> TotalWeight(trees) > 0.0
    ensures ValueAt(ByWallet(Daily(trees, ceiling).value.rewards), wallet)
            == if Weighted(trees) == [] then 0 else EarnedFor(trees, TotalWeight(trees), ceiling, wallet)
  {
    WeightsArePositive(trees);
    if Weighted(trees) != [] {
      RewardsAreEarned(trees, ceiling);
      var rewards, earned := Daily(trees, ceiling).value.rewards,
                             Map(Rewarder(TotalWeight(trees), ceiling), Weighted(trees));
      hide Daily, Weighted, TotalWeight, ByWallet, Rewarder;
      ByWalletSums(rewards, wallet);
      MapPermutes(ShareOf(wallet), rewards, earned);
      TotalPermutes(Map(ShareOf(wallet), rewards), Map(ShareOf(wallet), earned));
      EarnedIsShare(trees, TotalWeight(trees), ceiling, wallet);
    }
  }

  // What is written, and read back.

  /** The rows `pay` reads for a day: wallet and reward, where the reward is positive. */
  function PayRows(rows: seq<TreeRow>, day: int): seq<Audit.RewardRow> {
    if rows == [] then []
    else
      var front, r := PayRows(rows[..|rows| - 1], day), rows[|rows| - 1];
      if r.day == day && r.reward > 0 then front + [Audit.RewardRow(r.wallet, r.reward)] else front
  }

  lemma {:induction false} PayRowsAppend(a: seq<TreeRow>, b: seq<TreeRow>, day: int)
    ensures PayRows(a + b, day) == PayRows(a, day) + PayRows(b, day)
  {
    if b == [] {
      assert a + b == a;
    } else {
      assert (a + b)[..|a + b| - 1] == a + b[..|b| - 1];
      PayRowsAppend(a, b[..|b| - 1], day);
    }
  }

  lemma {:induction false} NoPayRows(rows: seq<TreeRow>, day: int)
    requires forall r :: r in rows ==> r.day != day
    ensures PayRows(rows, day) == []
  {
    if rows != [] {
      assert rows[|rows| - 1] in rows;
      NoPayRows(rows[..|rows| - 1], day);
    }
  }

  /** Two dictionaries with the same keys and values. */
  ghost predicate SameOwed(owed: map<string, nat>, m: map<string, int>) {
    owed.Keys == m.Keys && forall w :: w in owed ==> owed[w] == m[w]
  }

  lemma {:induction false} ReadBack(day: int, rewards: seq<TreeReward>)
    requires forall r :: r in rewards ==> r.reward >= 0
    ensures SameOwed(Payment.OwedMap(PayRows(RowsFor(day, rewards), day)), ByWallet(rewards))
  {
    if rewards != [] {
      var front, r := rewards[..|rewards| - 1], rewards[|rewards| - 1];
      assert r in rewards && forall x :: x in front ==> x in rewards;
      ReadBack(day, front);
      assert RowsFor(day, rewards)[..|front|] == RowsFor(day, front);
      assert RowsFor(day, rewards)[|front|] == RowFor(day, r);
      var paid := PayRows(RowsFor(day, front), day);
      assert r.reward > 0 ==> (paid + [Audit.RewardRow(r.wallet, r.reward)])[..|paid|] == paid;
    }
  }

  lemma ReadBackAfter(rows: seq<TreeRow>, day: int, rewards: seq<TreeReward>)
    requires (forall r :: r in rows ==> r.day != day) && forall r :: r in rewards ==> r.reward >= 0
    ensures SameOwed(Payment.OwedMap(PayRows(rows + RowsFor(day, rewards), day)), ByWallet(rewards))
  {
    hide PayRows, RowsFor, Payment.OwedMap, ByWallet, SameOwed;
    PayRowsAppend(rows, RowsFor(day, rewards), day);
    NoPayRows(rows, day);
    assert [] + PayRows(RowsFor(day, rewards), day) == PayRows(RowsFor(day, rewards), day);
    ReadBack(day, rewards);
  }

  lemma RewardsNonNegative(trees: seq<Tree>, ceiling: nat)
    requires Daily(trees, ceiling).Ok?
    ensures forall r :: r in Daily(trees, ceiling).value.rewards ==> r.reward >= 0
  {
    if Weighted(trees) != [] {
      WeightsArePositive(trees);
      OrderedTrees(trees);
      var total, s := TotalWeight(trees), Sort(KeyLe, Weighted(trees));
      hide Weighted, TotalWeight, Sort, KeyLe, Counts;
      var rewards := Map(Rewarder(total, ceiling), s);
      forall i | 0 <= i < |rewards| ensures rewards[i].reward >= 0 { RewardBounds(s[i], total, ceiling); }
    }
  }

  /** What an attempt settles to against a book. */
  function SettledBy(book: Book, a: Attempt): Result<Settled, SettlementError> {
    SettleDay(a.trees, a.day, Left(book))
  }

  function Left(book: Book): int { Emission.POOL - PaidOut(book.days) }

  /** A recorded attempt was settled against what was left, and its rows are what the book grew by. */
  lemma RecordedRows(book: Book, a: Attempt)
    requires Inv(book) && Step(book, a) != book
    ensures SettledBy(book, a).Ok?
    ensures var rewards := SettledBy(book, a).value.rewards.rewards;
            && Step(book, a).rows == book.rows + RowsFor(a.day, rewards)
            && Step(book, a).days == book.days + [DayFor(SettledBy(book, a).value)]
            && FindDay(book.days, a.day).None? && forall r :: r in rewards ==> r.reward >= 0
  {
    var s := SettledBy(book, a).value;
    SettledDayIsDay(a.trees, a.day, Left(book));
    InsertedRows(book.rows, RowsFor(a.day, s.rewards.rewards));
    DaySettles(a.trees, a.day, Left(book));
    SettledRewards(a, Left(book));
    hide SettleDay, PaidOut, InsertRows, RowsFor, LastDay, Inv, Distributed, SomeNegative;
  }

  /** The rewards of a settled day are the day's reward rule on its own Trees. */
  lemma SettledRewards(a: Attempt, pool: int)
    requires SettleDay(a.trees, a.day, pool).Ok?
    ensures var s := SettleDay(a.trees, a.day, pool).value;
            && s.ceiling.ceiling >= 0 && Daily(a.trees, s.ceiling.ceiling) == Ok(s.rewards)
            && forall r :: r in s.rewards.rewards ==> r.reward >= 0
  {
    DaySettles(a.trees, a.day, pool);
    var s := SettleDay(a.trees, a.day, pool).value;
    assert Daily(a.trees, s.ceiling.ceiling) == Ok(s.rewards);
    hide SettleDay, Daily;
    RewardsNonNegative(a.trees, s.ceiling.ceiling);
  }

  /** What the ledger holds for the day is what `pay` will find owed: to every wallet, what its Trees earned. */
  ghost predicate OwesWhatWasEarned(book: Book, a: Attempt, s: Settled) {
    && s.ceiling.ceiling >= 0 && (Weighted(a.trees) != [] ==> TotalWeight(a.trees) > 0.0)
    && (var owed := Payment.OwedMap(PayRows(book.rows, a.day));
        && SameOwed(owed, ByWallet(s.rewards.rewards))
        && forall w :: (if w in owed then owed[w] else 0) ==
             if Weighted(a.trees) == [] then 0
             else EarnedFor(a.trees, TotalWeight(a.trees), s.ceiling.ceiling, w))
  }

  lemma RecordedIsOwed(book: Book, a: Attempt)
    requires Inv(book) && Step(book, a) != book
    ensures SettledBy(book, a).Ok? && OwesWhatWasEarned(Step(book, a), a, SettledBy(book, a).value)
  {
    RecordedRows(book, a);
    var s := SettledBy(book, a).value;
    var rewards := s.rewards.rewards;
    SettledRewards(a, Left(book));
    assert forall r :: r in book.rows ==> r.day != a.day by { NoRowsYet(book, a.day); }
    WeightsArePositive(a.trees);
    hide SettleDay, Daily, Step, Inv, PayRows, RowsFor, Payment.OwedMap, ByWallet, Weighted, TotalWeight, Left,
         FindDay, EarnedFor;
    ReadBackAfter(book.rows, a.day, rewards);
    var owed := Payment.OwedMap(PayRows(Step(book, a).rows, a.day));
    forall w
      ensures (if w in owed then owed[w] else 0) ==
                if Weighted(a.trees) == [] then 0
                else EarnedFor(a.trees, TotalWeight(a.trees), s.ceiling.ceiling, w)
    {
      WalletIsOwedItsTrees(a.trees, s.ceiling.ceiling, w);
    }
  }

  /** Later settlements leave a recorded day's rows alone. */
  lemma StepKeepsRows(book: Book, a: Attempt, day: int)
    requires Inv(book) && FindDay(book.days, day).Some?
    ensures PayRows(Step(book, a).rows, day) == PayRows(book.rows, day) && FindDay(Step(book, a).days, day).Some?
  {
    if Step(book, a) != book {
      RecordedRows(book, a);
      var rewards := SettledBy(book, a).value.rewards.rewards;
      var rows := RowsFor(a.day, rewards);
      SettledDayIsDay(a.trees, a.day, Left(book));
      FindDayMeaning(book.days, day);
      FindDayMeaning(Step(book, a).days, day);
      hide SettleDay, Step, Inv, PayRows, FindDay;
      assert a.day != day;
      forall r | r in rows ensures r.day != day {
        var i :| 0 <= i < |rows| && rows[i] == r;
        assert rows[i] == RowFor(a.day, rewards[i]);
      }
      PayRowsAppend(book.rows, rows, day);
      NoPayRows(rows, day);
      assert PayRows(book.rows, day) + [] == PayRows(book.rows, day);
      var i :| 0 <= i < |book.days| && book.days[i].day == day;
      assert Step(book, a).days[i] == book.days[i];
    }
  }

  lemma {:induction false} RunKeepsRows(book: Book, more: seq<Attempt>, day: int)
    requires Inv(book) && FindDay(book.days, day).Some?
    ensures PayRows(Run(book, more).rows, day) == PayRows(book.rows, day) && FindDay(Run(book, more).days, day).Some?
  {
    hide Step, Inv, PayRows, FindDay;
    if more != [] {
      RunKeepsRows(book, more[..|more| - 1], day);
      RunKeeps(book, more[..|more| - 1]);
      StepKeepsRows(Run(book, more[..|more| - 1]), more[|more| - 1], day);
    }
  }

  lemma {:induction false} RunAppend(book: Book, before: seq<Attempt>, more: seq<Attempt>)
    ensures Run(book, before + more) == Run(Run(book, before), more)
  {
    hide Step;
    if more == [] {
      assert before + more == before;
    } else {
      assert (before + more)[..|before + more| - 1] == before + more[..|more| - 1];
      RunAppend(book, before, more[..|more| - 1]);
    }
  }

  /** In every run: whatever else is settled before and after, a recorded day owes every wallet what its own Trees
      earned on that day, and that is what `pay` reads. */
  lemma RecordedForGood(before: seq<Attempt>, a: Attempt, after: seq<Attempt>)
    requires Step(Run(EMPTY, before), a) != Run(EMPTY, before)
    ensures SettledBy(Run(EMPTY, before), a).Ok?
    ensures OwesWhatWasEarned(Run(EMPTY, before + [a] + after), a, SettledBy(Run(EMPTY, before), a).value)
  {
    hide *;
    var book := Run(EMPTY, before);
    EmptyIsGood();
    RunKeeps(EMPTY, before);
    RecordedIsOwed(book, a);
    StepKeeps(book, a);
    DayIsFound(book, a);
    RunKeepsRows(Step(book, a), after, a.day);
    OneStep(EMPTY, before, a);
    RunAppend(EMPTY, before + [a], after);
    SameRowsSameDebt(Step(book, a), Run(Step(book, a), after), a, SettledBy(book, a).value);
  }

  lemma OneStep(book: Book, before: seq<Attempt>, a: Attempt)
    ensures Run(book, before + [a]) == Step(Run(book, before), a)
  {
    hide Step;
    assert (before + [a])[..|before|] == before;
  }

  lemma DayIsFound(book: Book, a: Attempt)
    requires Inv(book) && Step(book, a) != book
    ensures FindDay(Step(book, a).days, a.day).Some?
  {
    RecordedRows(book, a);
    SettledDayIsDay(a.trees, a.day, Left(book));
    hide SettleDay, Step, Inv;
    var days := Step(book, a).days;
    assert days[|days| - 1].day == a.day;
  }

  lemma SameRowsSameDebt(book: Book, later: Book, a: Attempt, s: Settled)
    requires OwesWhatWasEarned(book, a, s) && PayRows(later.rows, a.day) == PayRows(book.rows, a.day)
    ensures OwesWhatWasEarned(later, a, s)
  {
    hide Payment.OwedMap, PayRows, ByWallet, EarnedFor, Weighted, TotalWeight;
  }

  // Tree by Tree.

  /** The row of a Tree that counted says whose it is, what it was given and on what grounds. */
  ghost predicate RowTells(r: TreeRow, day: int, t: Tree, total: real, ceiling: nat)
    requires total != 0.0
  {
    && r.day == day && r.tree == t.tree && r.wallet == t.wallet && r.weight == WeightOf(t)
    && r.heartbeats == t.heartbeats && r.basis == t.basis && r.reward == RewardOf(t, total, ceiling).reward
  }

  /** Every Tree that counts on a recorded day has its row, and the day says how many they were. */
  lemma EveryCountedTreeHasItsRow(book: Book, a: Attempt, t: Tree)
    requires Inv(book) && Step(book, a) != book && t in a.trees && Counts(t)
    ensures SettledBy(book, a).Ok? && SettledBy(book, a).value.ceiling.ceiling >= 0 && TotalWeight(a.trees) > 0.0
    ensures exists r :: r in Step(book, a).rows
                        && RowTells(r, a.day, t, TotalWeight(a.trees), SettledBy(book, a).value.ceiling.ceiling)
    ensures var days := Step(book, a).days; days != [] && days[|days| - 1].trees == |Weighted(a.trees)|
  {
    RecordedRows(book, a);
    SettledRewards(a, Left(book));
    var s := SettledBy(book, a).value;
    var total := TotalWeight(a.trees);
    WeightedMembers(a.trees, t);
    RewardsAreEarned(a.trees, s.ceiling.ceiling);
    DistributedWithinCeiling(a.trees, s.ceiling.ceiling);
    hide SettleDay, Daily, Step, Inv, Weighted, TotalWeight, Left, FindDay, Counts;
    var f := Rewarder(total, s.ceiling.ceiling);
    var k :| 0 <= k < |Weighted(a.trees)| && Weighted(a.trees)[k] == t;
    assert Map(f, Weighted(a.trees))[k] == f(t);
    assert f(t) in multiset(s.rewards.rewards);
    var i :| 0 <= i < |s.rewards.rewards| && s.rewards.rewards[i] == f(t);
    var rows := RowsFor(a.day, s.rewards.rewards);
    var r := rows[i];
    assert r == RowFor(a.day, f(t)) && f(t) == RewardOf(t, total, s.ceiling.ceiling);
    assert Step(book, a).rows[|book.rows| + i] == r;
    assert RowTells(r, a.day, t, total, s.ceiling.ceiling);
  }
}

/** How far the runway can be trusted (orchard_chia/economics/emission.py, orchard_chia/economics/runner.py).

    `status` divides the pool by the rate of the current day. Seasons that have closed and are not settled
    yet come out of the same pool, so the days ahead are covered only if the backlog is covered as well. */
module Runway {
  import opened Ordering
  import opened Sums
  import opened Emission
  import opened Rewards
  import opened Settlement
  import opened Ledger
  import opened LedgerSafety

  /** The first day that can still be recorded. */
  function NextDay(days: seq<DayRow>): int {
    if days == [] then 0 else days[|days| - 1].day + 1
  }

  function Pool(book: Book): int { POOL - PaidOut(book.days) }

  predicate Limited(book: Book, day: nat) {
    DailyCeilingMojos(day, Pool(book)).Ok? && DailyCeilingMojos(day, Pool(book)).value.limited
  }

  function RunwayOf(book: Book, day: nat): int
    requires RunwayDaysRemaining(Pool(book), day).Ok?
  {
    RunwayDaysRemaining(Pool(book), day).value
  }

  /** Whatever is settled from here on, none of the n days from this one is limited by the pool when its turn comes. */
  ghost predicate Kept(book: Book, day: nat, n: int) {
    forall after: seq<Attempt>, later: nat ::
      day <= later < day + n && AllBefore(Run(book, after).days, later) ==> !Limited(Run(book, after), later)
  }

  // One Tree, up all day, takes every day's whole ceiling.

  function Busy(day: int): Attempt { Attempt(day, [TreeDay("t", "w", 1, 24, true, None, "oracle-hours")]) }

  function BusyDays(from: nat, to: nat): (r: seq<Attempt>)
    ensures |r| == if from <= to then to - from else 0
  {
    seq(if from <= to then to - from else 0, i => Busy(from + i))
  }

  lemma BusyTakesAll(ceiling: nat)
    ensures !SomeNegative(Busy(0).trees) && Daily(Busy(0).trees, ceiling).Ok?
    ensures var r := Daily(Busy(0).trees, ceiling).value; |r.rewards| == 1 && Distributed(r.rewards) == ceiling
  {
    var trees := Busy(0).trees;
    assert SensorWeight(1) == 1.0;
    assert trees[..0] == [] && Weighted(trees) == trees;
    hide Weighted, SensorWeight, TotalWeight;
    DistributedWithinCeiling(trees, ceiling);
  }

  lemma BusySettles(day: nat, pool: nat)
    ensures SettleDay(Busy(day).trees, day, pool).Ok?
    ensures var s := SettleDay(Busy(day).trees, day, pool).value;
            && |s.rewards.rewards| == 1
            && Distributed(s.rewards.rewards) == if pool < Scheduled(day) then pool else Scheduled(day)
  {
    var trees := Busy(day).trees;
    assert trees == Busy(0).trees;
    CeilingIsTheSmaller(day, pool);
    var ceiling := DailyCeilingMojos(day, pool).value.ceiling;
    BusyTakesAll(ceiling);
    DaySettles(trees, day, pool);
    hide Daily, Scheduled, Distributed, SomeNegative;
  }

  lemma BusyStep(book: Book, day: nat)
    requires Inv(book) && NextDay(book.days) <= day
    ensures var after := Step(book, Busy(day));
            && Inv(after) && NextDay(after.days) == day + 1
            && Pool(after) == Pool(book) - (if Pool(book) < Scheduled(day) then Pool(book) else Scheduled(day))
  {
    hide Inv, Step, SettleDay, Scheduled, PaidOut, Distributed, Distinct;
    StepKeeps(book, Busy(day));
    assert 0 <= Pool(book) by { InvWithin(book, day); }
    BusySettles(day, Pool(book));
    var s := SettleDay(Busy(day).trees, day, Pool(book)).value;
    RecordedExactlyWhen(book, Busy(day));
    OneIsDistinct(Map(TreeOf, s.rewards.rewards));
    SettledDayIsDay(Busy(day).trees, day, Pool(book));
    PaidOutAppend(book.days, DayFor(s));
  }

  lemma OneIsDistinct(ids: seq<string>)
    requires |ids| <= 1
    ensures Distinct(ids)
  {}

  /** A run of busy days takes what the schedule allows, until the pool is empty. */
  lemma {:induction false} BusyRun(book: Book, from: nat, end: nat)
    requires Inv(book) && NextDay(book.days) <= from <= end
    ensures var after, due := Run(book, BusyDays(from, end)), Allowance(from, end);
            && Inv(after) && (end > from ==> NextDay(after.days) == end) && (end == from ==> after == book)
            && Pool(after) == (if Pool(book) < due then 0 else Pool(book) - due)
    decreases end
  {
    hide Inv, Step, Scheduled, PaidOut;
    PoolIsNatural(book);
    if from < end {
      BusyRun(book, from, end - 1);
      var run := BusyDays(from, end);
      assert run[..|run| - 1] == BusyDays(from, end - 1) && run[|run| - 1] == Busy(end - 1);
      BusyStep(Run(book, BusyDays(from, end - 1)), end - 1);
      AllowanceSplits(from, end - 1, end);
      OneDay(end - 1);
    }
  }

  lemma PoolIsNatural(book: Book)
    requires Inv(book)
    ensures 0 <= Pool(book) && 0 <= NextDay(book.days)
  {
    InvWithin(book, NextDay(book.days));
    hide PaidOut, Scheduled;
  }

  /** The runway read for a day is kept, whatever is settled next, exactly when the pool covers everything the
      schedule allows from the first unsettled day to the end of the runway. */
  lemma RunwayHoldsExactlyWhen(before: seq<Attempt>, day: nat)
    ensures var book := Run(EMPTY, before);
            && RunwayDaysRemaining(Pool(book), day).Ok? && NextDay(book.days) >= 0 && RunwayOf(book, day) >= 0
            && (Kept(book, day, RunwayOf(book, day)) <==>
                  RunwayOf(book, day) == 0 || Allowance(NextDay(book.days), day + RunwayOf(book, day)) <= Pool(book))
  {
    hide *;
    var book := Run(EMPTY, before);
    EmptyIsGood();
    RunKeeps(EMPTY, before);
    PoolIsNatural(book);
    RunwayIsRead(book, day);
    var n := RunwayOf(book, day);
    if n > 0 {
      if Allowance(NextDay(book.days), day + n) <= Pool(book) {
        CoveredIsKept(book, day, n);
      } else {
        UncoveredIsBroken(book, day, n);
      }
    } else {
      NoDaysKept(book, day);
    }
  }

  lemma RunwayIsRead(book: Book, day: nat)
    requires Pool(book) >= 0
    ensures RunwayDaysRemaining(Pool(book), day).Ok? && RunwayOf(book, day) >= 0
  {
    RunwayIsNatural(Pool(book), day);
    hide RunwayDaysRemaining, Pool;
  }

  lemma RunwayIsNatural(pool: nat, day: nat)
    ensures RunwayDaysRemaining(pool, day).Ok? && RunwayDaysRemaining(pool, day).value >= 0
  {}

  lemma NoDaysKept(book: Book, day: nat)
    ensures Kept(book, day, 0)
  {}

  lemma CoveredIsKept(book: Book, day: nat, n: nat)
    requires Inv(book) && NextDay(book.days) >= 0 && Allowance(NextDay(book.days), day + n) <= Pool(book)
    ensures Kept(book, day, n)
  {
    hide Run, Inv, Allowance, Limited;
    forall after: seq<Attempt>, later: nat | day <= later < day + n && AllBefore(Run(book, after).days, later)
      ensures !Limited(Run(book, after), later)
    {
      CoveredDay(book, after, later, day + n);
    }
  }

  lemma CoveredDay(book: Book, after: seq<Attempt>, later: nat, end: nat)
    requires Inv(book) && NextDay(book.days) >= 0 && Allowance(NextDay(book.days), end) <= Pool(book)
    requires later < end && AllBefore(Run(book, after).days, later)
    ensures !Limited(Run(book, after), later)
  {
    hide Run, Inv, Allowance, Scheduled, PaidOut, Within, DailyCeilingMojos;
    var done, from := Run(book, after), NextDay(book.days);
    RunKeeps(book, after);
    RunAppendsLater(book, after);
    InvWithin(done, later);
    PaidAfterwards(book.days, done.days, later);
    AllowanceSplits(from, later, end);
    AllowanceSplits(later, later + 1, end);
    OneDay(later);
    CeilingIsTheSmaller(later, Pool(done));
  }

  /** What a ledger grows by comes after what it held. */
  lemma RunAppendsLater(book: Book, after: seq<Attempt>)
    requires Inv(book)
    ensures var days := Run(book, after).days;
            && |book.days| <= |days| && days[..|book.days|] == book.days && NextDay(book.days) <= NextDay(days)
            && forall i :: |book.days| <= i < |days| ==> days[i].day >= NextDay(book.days)
  {
    RunKeeps(book, after);
    RunGrows(book, after);
    LaterThanBefore(book, Run(book, after));
    hide Run;
  }

  lemma {:induction false} RunGrows(book: Book, after: seq<Attempt>)
    ensures |book.days| <= |Run(book, after).days| && Run(book, after).days[..|book.days|] == book.days
  {
    hide Step;
    if after != [] {
      RunGrows(book, after[..|after| - 1]);
      StepAppends(Run(book, after[..|after| - 1]), after[|after| - 1]);
    }
  }

  lemma LaterThanBefore(book: Book, done: Book)
    requires Inv(book) && Inv(done) && |book.days| <= |done.days| && done.days[..|book.days|] == book.days
    ensures NextDay(book.days) <= NextDay(done.days)
    ensures forall i :: |book.days| <= i < |done.days| ==> done.days[i].day >= NextDay(book.days)
  {
    hide PaidOut, Scheduled;
    var n := |book.days|;
    if n > 0 { assert done.days[n - 1] == book.days[n - 1]; }
    forall i | 0 <= i < |done.days| ensures done.days[i].day >= 0 {
      assert GoodDay(done.days[i], POOL - PaidOut(done.days[..i]));
    }
  }

  lemma PaidAfterwards(before: seq<DayRow>, days: seq<DayRow>, later: nat)
    requires |before| <= |days| && days[..|before|] == before && 0 <= NextDay(before) <= NextDay(days)
    requires forall i :: |before| <= i < |days| ==> days[i].day >= NextDay(before)
    requires Within(days, 0, later)
    ensures NextDay(before) <= later && PaidOut(days) <= PaidOut(before) + Allowance(NextDay(before), later)
  {
    hide Scheduled, Allowance, PaidOut;
    var n := |before|;
    assert Within(days[n..], NextDay(before), later);
    PaidWithinAllowance(days[n..], NextDay(before), later);
    PaidOutSplit(days, n);
  }

  lemma UncoveredIsBroken(book: Book, day: nat, n: nat)
    requires Inv(book) && NextDay(book.days) >= 0 && n > 0
    requires Allowance(NextDay(book.days), day + n) > Pool(book) >= 0
    ensures !Kept(book, day, n)
  {
    hide Run, Inv, Allowance, Scheduled, PaidOut, DailyCeilingMojos, BusyDays;
    var from, later := NextDay(book.days), day + n - 1;
    assert from <= later by { if from > later { NothingAllowed(from, later + 1); } }
    BusyRun(book, from, later);
    var done := Run(book, BusyDays(from, later));
    AllowanceSplits(from, later, later + 1);
    OneDay(later);
    RatesArePositive(later);
    PoolIsNatural(done);
    CeilingIsTheSmaller(later, Pool(done));
    assert AllBefore(done.days, later) && Limited(done, later);
  }

  lemma NothingAllowed(from: nat, to: nat)
    requires from >= to
    ensures Allowance(from, to) == 0
  {}

  lemma RatesArePositive(day: nat)
    ensures Scheduled(day) > 0
  {}

  lemma RunwayCovered(pool: nat, day: nat, from: nat)
    requires day <= from
    ensures RunwayDaysRemaining(pool, day).Ok?
    ensures var n := RunwayDaysRemaining(pool, day).value; n > 0 ==> Allowance(from, day + n) <= pool
  {
    hide Allowance, Scheduled, RunwayDaysRemaining;
    RunwayIsNatural(pool, day);
    var n := RunwayDaysRemaining(pool, day).value;
    if n > 0 {
      RunwayCovers(pool, day, day + n - 1);
      AllowanceSplits(day, day + n - 1, day + n);
      OneDay(day + n - 1);
      if from <= day + n { AllowanceSplits(day, from, day + n); } else { NothingAllowed(from, day + n); }
    }
  }

  /** With nothing left to settle before it, the day's runway is always kept. */
  lemma CaughtUpRunwayHolds(before: seq<Attempt>, day: nat)
    requires NextDay(Run(EMPTY, before).days) >= day
    ensures RunwayDaysRemaining(Pool(Run(EMPTY, before)), day).Ok?
    ensures Kept(Run(EMPTY, before), day, RunwayOf(Run(EMPTY, before), day))
  {
    hide Run, Pool, NextDay, Kept, Inv, Allowance, RunwayDaysRemaining;
    RunwayHoldsExactlyWhen(before, day);
    EmptyIsGood();
    RunKeeps(EMPTY, before);
    var book := Run(EMPTY, before);
    PoolIsNatural(book);
    RunwayCovered(Pool(book), day, NextDay(book.days));
  }

  lemma NothingPaidYet()
    ensures Pool(EMPTY) == POOL && NextDay(EMPTY.days) == 0
  {
    EmptyTotal();
    assert Map(DistributedOf, EMPTY.days) == [];
  }

  /** What the schedule allows up to day 2901, and on the nineteen days to the end of its eighth year. */
  lemma LastNineteenDays()
    ensures Allowance(2901, 2920) == 222_996_160 && Allowance(0, 2901) == POOL - 850 - 222_996_160
  {
    DayInYear(7, 2901);
    AllowanceConstant(2901, 2920, Rate(8));
    AllowanceSplits(0, 2901, 2920);
    ScheduleFitsThePool();
    hide Allowance;
  }

  /** The ledger holds the busy days 0 to 2900, and the runway read for day 2919 is 19 days. Once the nineteen days
      up to it are settled, the pool limits the next one. */
  lemma BacklogOutrunsTheRunway()
    ensures var book := Run(EMPTY, BusyDays(0, 2901));
            && NextDay(book.days) == 2901 && RunwayDaysRemaining(Pool(book), 2919) == Ok(19)
            && AllBefore(Run(book, BusyDays(2901, 2920)).days, 2920)
            && Limited(Run(book, BusyDays(2901, 2920)), 2920)
            && !Kept(book, 2919, 19)
  {
    hide Run, Inv, Allowance, PaidOut, BusyDays;
    EmptyIsGood();
    NothingPaidYet();
    LastNineteenDays();
    BusyRun(EMPTY, 0, 2901);
    var book := Run(EMPTY, BusyDays(0, 2901));
    BusyRun(book, 2901, 2920);
  }
}

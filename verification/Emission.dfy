/** The network's daily ceiling and the pool behind it (orchard_chia/economics/emission.py,
    orchard_chia/economics/constants.py). */
module Emission {
  import opened Ordering

  const POOL := 85_000_000_000
  const DAYS_PER_YEAR := 365
  const SCHEDULE_YEARS := 8
  const SCHEDULE_DAYS := 2920
  const TERMINAL := 11_736_640

  datatype EmissionError = BeforeGenesis | BadYear | NegativePool | NegativeDistribution | OverCeiling | Overdrawn

  /** DAILY_EMISSION_MOJOS_BY_YEAR, with the terminal rate after it. */
  function Rate(year: int): nat
    requires year >= 1
  {
    if year == 1 then 55_964_650 else if year == 2 then 44_771_720
    else if year == 3 then 35_817_380 else if year == 4 then 28_653_900
    else if year == 5 then 22_923_120 else if year == 6 then 18_338_500
    else if year == 7 then 14_670_800 else 11_736_640
  }

  function EmissionYearForDay(day: int): Result<int, EmissionError> {
    if day < 0 then Err(BeforeGenesis) else Ok(YearOf(day))
  }

  function YearOf(day: nat): (year: int)
    ensures year >= 1
  {
    day / DAYS_PER_YEAR + 1
  }

  function ScheduledDailyMojos(year: int): Result<nat, EmissionError> {
    if year < 1 then Err(BadYear) else if year <= SCHEDULE_YEARS then Ok(Rate(year)) else Ok(TERMINAL)
  }

  /** The schedule's rate on a day. */
  function Scheduled(day: nat): nat { Rate(YearOf(day)) }

  datatype DailyCeiling = DailyCeiling(day: int, year: int, scheduled: int, pool: int, ceiling: int, limited: bool)

  function DailyCeilingMojos(day: int, pool: int): Result<DailyCeiling, EmissionError> {
    if pool < 0 then Err(NegativePool)
    else
      match EmissionYearForDay(day)
      case Err(e) => Err(e)
      case Ok(year) =>
        match ScheduledDailyMojos(year)
        case Err(e) => Err(e)
        case Ok(scheduled) =>
          var ceiling := if pool < scheduled then pool else scheduled;
          Ok(DailyCeiling(day, year, scheduled, pool, ceiling, ceiling < scheduled))
  }

  datatype PoolState = PoolState(opening: int, ceiling: int, distributed: int, closing: int, unearned: int)

  function ApplyDistribution(pool: int, ceiling: DailyCeiling, distributed: int): Result<PoolState, EmissionError> {
    if distributed < 0 then Err(NegativeDistribution)
    else if distributed > ceiling.ceiling then Err(OverCeiling)
    else if pool - distributed < 0 then Err(Overdrawn)
    else Ok(PoolState(pool, ceiling.ceiling, distributed, pool - distributed, ceiling.ceiling - distributed))
  }

  function IsExhausted(pool: int, eligible: int): bool {
    if pool <= 0 then true else if eligible <= 0 then false else pool / eligible < 1
  }

  function RunwayDaysRemaining(pool: int, day: int): Result<int, EmissionError> {
    if pool <= 0 then Ok(0)
    else
      match EmissionYearForDay(day)
      case Err(e) => Err(e)
      case Ok(year) => Ok(pool / Rate(year))
  }

  /** The ceiling is the smaller of the schedule's rate and the pool, for every day of a pool. */
  lemma CeilingIsTheSmaller(day: nat, pool: nat)
    ensures DailyCeilingMojos(day, pool).Ok?
    ensures var c := DailyCeilingMojos(day, pool).value;
            && c.ceiling <= c.pool == pool && c.ceiling <= c.scheduled == Scheduled(day)
            && (c.ceiling == pool || c.ceiling == Scheduled(day))
            && (c.limited <==> pool < Scheduled(day))
  {}

  // The schedule as a whole.

  /** What the schedule allows over the days from `from` up to, not including, `to`. */
  function Allowance(from: nat, to: nat): nat
    decreases to - from
  {
    if from >= to then 0 else Scheduled(from) + Allowance(from + 1, to)
  }

  lemma {:induction false} AllowanceSplits(a: nat, b: nat, c: nat)
    requires a <= b <= c
    ensures Allowance(a, c) == Allowance(a, b) + Allowance(b, c)
    decreases b - a
  {
    hide Scheduled;
    if a < b { AllowanceSplits(a + 1, b, c); }
  }

  lemma {:induction false} AllowanceConstant(a: nat, b: nat, rate: nat)
    requires a <= b && forall d: nat :: a <= d < b ==> Scheduled(d) == rate
    ensures Allowance(a, b) == (b - a) * rate
    decreases b - a
  {
    hide Scheduled;
    if a < b { AllowanceConstant(a + 1, b, rate); }
  }

  /** One year of the schedule. */
  lemma YearTotal(y: nat)
    ensures Allowance(365 * y, 365 * y + 365) == 365 * Rate(y + 1)
  {
    forall d: nat | 365 * y <= d < 365 * y + 365 ensures Scheduled(d) == Rate(y + 1) {
      DayInYear(y, d);
    }
    hide Scheduled, Rate;
    AllowanceConstant(365 * y, 365 * y + 365, Rate(y + 1));
  }

  lemma DayInYear(y: nat, d: nat)
    requires 365 * y <= d < 365 * y + 365
    ensures YearOf(d) == y + 1
  {}

  /** `schedule_total_mojos`: years 1 to `years`, each in full. */
  function ScheduleTotal(years: nat): nat {
    if years == 0 then 0 else ScheduleTotal(years - 1) + 365 * Rate(years)
  }

  lemma {:induction false} ScheduleTotalIsAllowance(years: nat)
    ensures Allowance(0, 365 * years) == ScheduleTotal(years)
  {
    if years > 0 {
      ScheduleTotalIsAllowance(years - 1);
      YearTotal(years - 1);
      AllowanceSplits(0, 365 * (years - 1), 365 * years);
    }
  }

  /** Eight years of the schedule use up all but 850 mojos of the pool. */
  lemma ScheduleFitsThePool()
    ensures ScheduleTotal(8) == 84_999_999_150 == POOL - 850
    ensures Allowance(0, SCHEDULE_DAYS) == ScheduleTotal(8)
  {
    assert ScheduleTotal(2) == 365 * 55_964_650 + 365 * 44_771_720;
    assert ScheduleTotal(4) == ScheduleTotal(2) + 365 * 35_817_380 + 365 * 28_653_900;
    assert ScheduleTotal(6) == ScheduleTotal(4) + 365 * 22_923_120 + 365 * 18_338_500;
    ScheduleTotalIsAllowance(8);
  }

  /** A later day's rate is never higher. */
  lemma RatesNeverRise(d: nat, e: nat)
    requires d <= e
    ensures Scheduled(e) <= Scheduled(d)
  {
    YearsInOrder(d, e);
  }

  /** Each year of the schedule has four fifths of the rate before it, to the nearest hundredth of a JUICE; from the
      eighth year on the rate stays. */
  lemma EachYearIsFourFifths(year: int)
    requires year >= 1
    ensures year < 8 ==> Rate(year + 1) % 10 == 0 && -25 <= 5 * Rate(year + 1) - 4 * Rate(year) <= 25
    ensures year >= 8 ==> Rate(year) == Rate(8)
    ensures ScheduledDailyMojos(year) == Ok(Rate(year))
  {}

  lemma YearsInOrder(d: nat, e: nat)
    requires d <= e
    ensures YearOf(d) <= YearOf(e)
  {}

  lemma {:induction false} AllowanceAtMost(a: nat, b: nat)
    requires a <= b
    ensures Allowance(a, b) <= (b - a) * Scheduled(a)
    decreases b - a
  {
    hide Scheduled;
    if a < b {
      AllowanceAtMost(a + 1, b);
      RatesNeverRise(a, a + 1);
      ScaleDown(b - a - 1, Scheduled(a + 1), Scheduled(a));
    }
  }

  lemma ScaleDown(n: nat, x: nat, y: nat)
    requires x <= y
    ensures n * x <= n * y && (n + 1) * y == n * y + y
  {}

  /** Enough is left for every one of the first 2920 days, whatever was distributed before it. */
  lemma EnoughForEveryScheduledDay(day: nat)
    requires day < SCHEDULE_DAYS
    ensures Scheduled(day) <= POOL - Allowance(0, day)
  {
    ScheduleFitsThePool();
    AllowanceSplits(0, day, SCHEDULE_DAYS);
    AllowanceSplits(day, day + 1, SCHEDULE_DAYS);
    OneDay(day);
  }

  lemma OneDay(day: nat)
    ensures Allowance(day, day + 1) == Scheduled(day)
  {
    hide Scheduled;
    assert Allowance(day + 1, day + 1) == 0;
  }

  /** The next `runway` days are covered by the pool, whatever is distributed on them. */
  lemma RunwayCovers(pool: nat, day: nat, later: nat)
    requires RunwayDaysRemaining(pool, day).Ok?
    requires day <= later < day + RunwayDaysRemaining(pool, day).value
    ensures Scheduled(later) <= pool - Allowance(day, later)
  {
    AllowanceAtMost(day, later);
    RatesNeverRise(day, later);
    var rate, n := Scheduled(day), later - day;
    Quotient(pool, rate);
    ScaleUp(n + 1, pool / rate, rate);
    ScaleDown(n, rate, rate);
  }

  lemma Quotient(pool: nat, rate: nat)
    requires rate > 0
    ensures (pool / rate) * rate <= pool
  {}

  lemma ScaleUp(n: nat, m: nat, rate: nat)
    requires n <= m
    ensures n * rate <= m * rate
  {}
}

/** What holds of the ledger after any run of settlements (orchard_chia/economics/ledger.py,
    orchard_chia/economics/runner.py). */
module LedgerSafety {
  import opened Ordering
  import opened Sums
  import opened Emission
  import opened Rewards
  import opened Settlement
  import opened Ledger

  /** One attempt: the Trees observed for a day, settled against the snapshot and recorded. Whatever
      is refused on the way leaves the book as it was. */
  datatype Attempt = Attempt(day: int, trees: seq<Tree>)

  function Step(book: Book, a: Attempt): Book {
    match SnapshotOf(book.days)
    case Err(_) => book
    case Ok(snap) =>
      match SettleDay(a.trees, a.day, snap.remaining)
      case Err(_) => book
      case Ok(s) => Recorded(book, s)
  }

  function Run(book: Book, attempts: seq<Attempt>): Book {
    if attempts == [] then book else Step(Run(book, attempts[..|attempts| - 1]), attempts[|attempts| - 1])
  }

  const EMPTY := Book([], [])

  // The invariant.

  ghost predicate Increasing(days: seq<DayRow>) {
    forall i, j :: 0 <= i < j < |days| ==> days[i].day < days[j].day
  }

  /** A day row is right for the balance it was settled against. */
  ghost predicate GoodDay(d: DayRow, before: int) {
    && 0 <= d.day && 0 <= d.distributed <= d.ceiling
    && d.ceiling == (if before < Scheduled(d.day) then before else Scheduled(d.day))
    && d.unearned == d.ceiling - d.distributed
    && d.closing == before - d.distributed
  }

  ghost predicate GoodDays(days: seq<DayRow>) {
    forall i :: 0 <= i < |days| ==> GoodDay(days[i], POOL - PaidOut(days[..i]))
  }

  ghost predicate GoodRows(book: Book) {
    && (forall i :: 0 <= i < |book.days| ==> RowSum(book.rows, book.days[i].day) == book.days[i].distributed)
    && (forall r :: r in book.rows ==> FindDay(book.days, r.day).Some?)
  }

  ghost predicate Inv(book: Book) {
    Increasing(book.days) && GoodDays(book.days) && GoodRows(book) && 0 <= PaidOut(book.days) <= POOL
  }

  lemma {:induction false} FindDayMeaning(days: seq<DayRow>, day: int)
    ensures FindDay(days, day).Some? <==> exists i :: 0 <= i < |days| && days[i].day == day
    ensures FindDay(days, day).Some? ==> FindDay(days, day).value in days && FindDay(days, day).value.day == day
  {
    if days != [] {
      var m := |days| - 1;
      FindDayMeaning(days[..m], day);
      if i :| 0 <= i < |days| && days[i].day == day && i < m { assert days[..m][i].day == day; }
      if i :| 0 <= i < m && days[..m][i].day == day { assert days[i].day == day; }
    }
  }

  lemma {:induction false} LastDayOfIncreasing(days: seq<DayRow>)
    requires Increasing(days)
    ensures LastDay(days) == if days == [] then None else Some(days[|days| - 1].day)
  {
    if |days| > 1 { LastDayOfIncreasing(days[..|days| - 1]); }
  }

  lemma {:induction false} InsertedRows(rows: seq<TreeRow>, more: seq<TreeRow>)
    ensures InsertRows(rows, more).Some? ==> InsertRows(rows, more).value == rows + more
  {
    hide HasKey;
    if more == [] {
      assert rows + more == rows;
    } else {
      InsertedRows(rows, more[..|more| - 1]);
    }
  }

  lemma {:induction false} RowSumAppend(rows: seq<TreeRow>, more: seq<TreeRow>, day: int)
    ensures RowSum(rows + more, day) == RowSum(rows, day) + RowSum(more, day)
  {
    if more == [] {
      assert rows + more == rows;
    } else {
      assert (rows + more)[..|rows + more| - 1] == rows + more[..|more| - 1];
      RowSumAppend(rows, more[..|more| - 1], day);
    }
  }

  lemma {:induction false} RowSumOfDay(day: int, rewards: seq<TreeReward>, d: int)
    ensures RowSum(RowsFor(day, rewards), d) == if d == day then Distributed(rewards) else 0
  {
    if rewards == [] {
      EmptyTotal();
    } else {
      var front := rewards[..|rewards| - 1];
      RowSumOfDay(day, front, d);
      assert RowsFor(day, rewards)[..|front|] == RowsFor(day, front);
      assert Map(AmountOf, rewards)[..|front|] == Map(AmountOf, front);
    }
  }

  lemma {:induction false} NoRowsNoSum(rows: seq<TreeRow>, day: int)
    requires forall r :: r in rows ==> r.day != day
    ensures RowSum(rows, day) == 0
  {
    if rows != [] {
      assert rows[|rows| - 1] in rows;
      NoRowsNoSum(rows[..|rows| - 1], day);
    }
  }

  /** The one write there is keeps the invariant. */
  lemma RecordingKeeps(book: Book, s: Settled, trees: seq<Tree>)
    requires Inv(book) && SnapshotOf(book.days).Ok?
    requires SettleDay(trees, s.day, SnapshotOf(book.days).value.remaining) == Ok(s)
    ensures Inv(Recorded(book, s))
  {
    hide SettleDay, Refusal, PaidOut, InsertRows, RowsFor, GoodRows, GoodDays, Scheduled, Distributed, FindDay;
    var rows := RowsFor(s.day, s.rewards.rewards);
    if Refusal(book.days, s).None? && InsertRows(book.rows, rows).Some? {
      var days, d := book.days, DayFor(s);
      DaySettles(trees, s.day, POOL - PaidOut(days));
      InsertedRows(book.rows, rows);
      FreshDayIsLater(days, s);
      assert Recorded(book, s) == Book(days + [d], book.rows + rows);
      PaidOutAppend(days, d);
      DaysStayGood(days, d);
      RowsStayGood(book, s);
    }
  }

  /** What is not refused comes after every recorded day. */
  lemma FreshDayIsLater(days: seq<DayRow>, s: Settled)
    requires Increasing(days) && Refusal(days, s).None?
    ensures FindDay(days, s.day).None? && Increasing(days + [DayFor(s)])
  {
    LastDayOfIncreasing(days);
    FindDayMeaning(days, s.day);
    hide PaidOut, Distributed, FindDay, LastDay;
  }

  lemma DaysStayGood(days: seq<DayRow>, d: DayRow)
    requires GoodDays(days) && GoodDay(d, POOL - PaidOut(days))
    ensures GoodDays(days + [d])
  {
    hide GoodDay, PaidOut;
    var more := days + [d];
    forall i | 0 <= i < |more| ensures GoodDay(more[i], POOL - PaidOut(more[..i])) {
      if i < |days| { assert more[..i] == days[..i]; } else { assert more[..i] == days; }
    }
  }

  lemma RowsStayGood(book: Book, s: Settled)
    requires GoodRows(book) && FindDay(book.days, s.day).None?
    ensures GoodRows(Book(book.days + [DayFor(s)], book.rows + RowsFor(s.day, s.rewards.rewards)))
  {
    hide RowSum, FindDay, Distributed;
    var days, more := book.days + [DayFor(s)], RowsFor(s.day, s.rewards.rewards);
    forall i | 0 <= i < |days| ensures RowSum(book.rows + more, days[i].day) == days[i].distributed {
      RowSumAppend(book.rows, more, days[i].day);
      RowSumOfDay(s.day, s.rewards.rewards, days[i].day);
      if i < |book.days| {
        FindDayMeaning(book.days, s.day);
      } else {
        NoRowsNoSum(book.rows, s.day);
      }
    }
    forall r | r in book.rows + more ensures FindDay(days, r.day).Some? {
      FindDayMeaning(days, r.day);
      FindDayMeaning(book.days, r.day);
      if r in book.rows {
        var i :| 0 <= i < |book.days| && book.days[i].day == r.day;
        assert days[i].day == r.day;
      } else {
        assert days[|book.days|].day == r.day;
      }
    }
  }

  lemma StepKeeps(book: Book, a: Attempt)
    requires Inv(book)
    ensures Inv(Step(book, a))
  {
    hide Inv, Recorded, SettleDay;
    if SnapshotOf(book.days).Ok? {
      var r := SettleDay(a.trees, a.day, SnapshotOf(book.days).value.remaining);
      if r.Ok? {
        SettledDayIsDay(a.trees, a.day, SnapshotOf(book.days).value.remaining);
        RecordingKeeps(book, r.value, a.trees);
      }
    }
  }

  lemma SettledDayIsDay(trees: seq<Tree>, day: int, pool: int)
    ensures SettleDay(trees, day, pool).Ok? ==> SettleDay(trees, day, pool).value.day == day
  {}

  lemma {:induction false} RunKeeps(book: Book, attempts: seq<Attempt>)
    requires Inv(book)
    ensures Inv(Run(book, attempts))
  {
    hide Inv, Step;
    if attempts != [] {
      RunKeeps(book, attempts[..|attempts| - 1]);
      StepKeeps(Run(book, attempts[..|attempts| - 1]), attempts[|attempts| - 1]);
    }
  }

  lemma EmptyIsGood()
    ensures Inv(EMPTY)
  {
    EmptyTotal();
    assert Map(DistributedOf, EMPTY.days) == [];
  }

  // Audit.

  ghost predicate ConsistentAt(rows: seq<TreeRow>, ordered: seq<DayRow>, i: nat)
    requires i < |ordered|
  {
    && RowSum(rows, ordered[i].day) == ordered[i].distributed <= ordered[i].ceiling
    && ordered[i].closing == POOL - PaidOut(ordered[..i + 1])
  }

  /** What an empty audit says, read off the day rows in order. */
  ghost predicate Consistent(rows: seq<TreeRow>, ordered: seq<DayRow>) {
    forall i :: 0 <= i < |ordered| ==> ConsistentAt(rows, ordered, i)
  }

  lemma ConsistentStep(rows: seq<TreeRow>, front: seq<DayRow>, d: DayRow)
    ensures Consistent(rows, front + [d]) <==> Consistent(rows, front) && ConsistentAt(rows, front + [d], |front|)
  {
    hide RowSum, PaidOut;
    var all := front + [d];
    forall i | 0 <= i < |front| ensures ConsistentAt(rows, front, i) == ConsistentAt(rows, all, i) {
      assert front[..i + 1] == all[..i + 1];
    }
  }

  lemma ProblemsOfDay(rows: seq<TreeRow>, front: seq<DayRow>, d: DayRow)
    ensures ProblemsOf(rows, d, POOL - PaidOut(front)) == [] <==> ConsistentAt(rows, front + [d], |front|)
  {
    PaidOutAppend(front, d);
    hide RowSum, PaidOut;
    assert (front + [d])[..|front| + 1] == front + [d];
  }

  lemma {:induction false} NoProblemsMeansConsistent(rows: seq<TreeRow>, ordered: seq<DayRow>)
    ensures Problems(rows, ordered) == [] <==> Consistent(rows, ordered)
  {
    if ordered != [] {
      hide RowSum, PaidOut, ProblemsOf, ConsistentAt;
      var front, d := ordered[..|ordered| - 1], ordered[|ordered| - 1];
      assert front + [d] == ordered;
      NoProblemsMeansConsistent(rows, front);
      ConsistentStep(rows, front, d);
      ProblemsOfDay(rows, front, d);
    }
  }

  /** The audit is silent exactly when sums, ceilings and the balance chain all re-derive. */
  lemma AuditIsExact(book: Book)
    ensures AuditOf(book) == [] <==> Consistent(book.rows, Sort(DayLe, book.days))
  {
    NoProblemsMeansConsistent(book.rows, Sort(DayLe, book.days));
  }

  lemma InvAudits(book: Book)
    requires Inv(book)
    ensures AuditOf(book) == []
  {
    hide RowSum, PaidOut, Problems;
    SortedIsFixed(DayLe, book.days);
    forall i | 0 <= i < |book.days| ensures ConsistentAt(book.rows, book.days, i) {
      assert GoodDay(book.days[i], POOL - PaidOut(book.days[..i]));
      PaidOutAppend(book.days[..i], book.days[i]);
      assert book.days[..i] + [book.days[i]] == book.days[..i + 1];
    }
    AuditIsExact(book);
  }

  /** After any run of settlements the days are strictly increasing, what is distributed and what
      remains are the pool, nothing is negative, and the audit finds nothing. */
  lemma LedgerIsSound(attempts: seq<Attempt>)
    ensures var book := Run(EMPTY, attempts);
            && Increasing(book.days) && AuditOf(book) == []
            && SnapshotOf(book.days).Ok?
            && SnapshotOf(book.days).value.distributed + SnapshotOf(book.days).value.remaining == POOL
            && 0 <= SnapshotOf(book.days).value.remaining <= POOL
            && SnapshotOf(book.days).value.last ==
                 (if book.days == [] then None else Some(book.days[|book.days| - 1].day))
  {
    EmptyIsGood();
    RunKeeps(EMPTY, attempts);
    InvAudits(Run(EMPTY, attempts));
    LastDayOfIncreasing(Run(EMPTY, attempts).days);
  }

  // What is refused.

  function TreeOf(r: TreeReward): string { r.tree }

  lemma {:induction false} InsertFailsOnDuplicates(rows: seq<TreeRow>, day: int, rewards: seq<TreeReward>)
    requires forall r :: r in rows ==> r.day != day
    ensures InsertRows(rows, RowsFor(day, rewards)).Some? <==> Distinct(Map(TreeOf, rewards))
  {
    if rewards != [] {
      var m := |rewards| - 1;
      var front, more := rewards[..m], RowsFor(day, rewards);
      InsertFailsOnDuplicates(rows, day, front);
      assert more[..m] == RowsFor(day, front);
      InsertedRows(rows, more[..m]);
      hide InsertRows, HasKey, Distinct;
      var ids, id := Map(TreeOf, rewards), rewards[m].tree;
      assert ids[..m] == Map(TreeOf, front) && ids[m] == TreeOf(rewards[m]);
      assert more[m] == RowFor(day, rewards[m]);
      KeyIsDuplicate(rows, day, front, id);
      DistinctSnoc(ids, m);
      InsertStep(rows, more);
    }
  }

  lemma InsertStep(rows: seq<TreeRow>, more: seq<TreeRow>)
    requires more != []
    ensures var front, row := InsertRows(rows, more[..|more| - 1]), more[|more| - 1];
            InsertRows(rows, more).Some? <==> front.Some? && !HasKey(front.value, row.day, row.tree)
  {}

  lemma KeyIsDuplicate(rows: seq<TreeRow>, day: int, front: seq<TreeReward>, id: string)
    requires forall r :: r in rows ==> r.day != day
    ensures HasKey(rows + RowsFor(day, front), day, id) <==> id in Map(TreeOf, front)
  {
    var all := rows + RowsFor(day, front);
    forall i | 0 <= i < |rows| ensures all[i].day != day { assert rows[i] in rows; }
    if HasKey(all, day, id) {
      var i :| 0 <= i < |all| && all[i].day == day && all[i].tree == id;
      var k := i - |rows|;
      assert all[i] == RowFor(day, front[k]) && TreeOf(front[k]) == id;
      assert Map(TreeOf, front)[k] == id;
    }
    if id in Map(TreeOf, front) {
      var k :| 0 <= k < |front| && Map(TreeOf, front)[k] == id;
      assert all[|rows| + k] == RowFor(day, front[k]) && TreeOf(front[k]) == id;
      assert all[|rows| + k].day == day && all[|rows| + k].tree == id;
    }
  }

  lemma DistinctSnoc(ids: seq<string>, m: nat)
    requires |ids| == m + 1
    ensures Distinct(ids) <==> Distinct(ids[..m]) && ids[m] !in ids[..m]
  {
    if Distinct(ids[..m]) && ids[m] !in ids[..m] {
      forall i, j | 0 <= i < j < |ids| ensures ids[i] != ids[j] {
        assert ids[..m][i] == ids[i];
        if j < m { assert ids[..m][j] == ids[j]; }
      }
    }
  }

  /** Settled against the snapshot, a day is recorded exactly when it is later than every recorded day
      and no two of its rewards carry one Tree id; the pool is never the reason for a refusal. */
  lemma RecordedExactlyWhen(book: Book, a: Attempt)
    requires Inv(book)
    requires SettleDay(a.trees, a.day, POOL - PaidOut(book.days)).Ok?
    ensures var s := SettleDay(a.trees, a.day, POOL - PaidOut(book.days)).value;
            && (Step(book, a) != book <==>
                  (book.days == [] || book.days[|book.days| - 1].day < a.day)
                  && Distinct(Map(TreeOf, s.rewards.rewards)))
            && (Step(book, a) != book ==> Step(book, a).days == book.days + [DayFor(s)])
            && Refusal(book.days, s) != Some(OverPool)
  {
    hide SettleDay, PaidOut, LastDay, FindDay, InsertRows, RowSum, Distinct, GoodDays, Distributed, Scheduled, Refusal;
    var s := SettleDay(a.trees, a.day, POOL - PaidOut(book.days)).value;
    DaySettles(a.trees, a.day, POOL - PaidOut(book.days));
    RefusalMeaning(book.days, s);
    if Refusal(book.days, s).None? {
      NoRowsYet(book, a.day);
      InsertFailsOnDuplicates(book.rows, a.day, s.rewards.rewards);
      assert |book.days + [DayFor(s)]| != |book.days|;
    }
  }

  /** With room in the pool, only a day that is not later than all recorded ones is refused. */
  lemma RefusalMeaning(days: seq<DayRow>, s: Settled)
    requires Increasing(days) && PaidOut(days) + Distributed(s.rewards.rewards) <= POOL && PaidOut(days) <= POOL
    ensures Refusal(days, s).None? <==> days == [] || days[|days| - 1].day < s.day
    ensures Refusal(days, s).None? ==> FindDay(days, s.day).None?
    ensures Refusal(days, s) != Some(OverPool)
  {
    LastDayOfIncreasing(days);
    FindDayMeaning(days, s.day);
    hide PaidOut, Distributed, FindDay, LastDay;
  }

  lemma NoRowsYet(book: Book, day: int)
    requires GoodRows(book) && FindDay(book.days, day).None?
    ensures forall r :: r in book.rows ==> r.day != day
  {
    hide FindDay, RowSum;
  }

  // The ceiling.

  /** Days on which no more than the schedule allows was distributed, all of them in [from, to). */
  ghost predicate Within(days: seq<DayRow>, from: nat, to: nat) {
    && Increasing(days)
    && forall i :: 0 <= i < |days| ==> from <= days[i].day < to && days[i].distributed <= Scheduled(days[i].day)
  }

  lemma {:induction false} PaidWithinAllowance(days: seq<DayRow>, from: nat, to: nat)
    requires Within(days, from, to)
    ensures PaidOut(days) <= Allowance(from, to)
    decreases |days|
  {
    hide Scheduled, Allowance;
    if days == [] {
      EmptyTotal();
    } else {
      var front, d := days[..|days| - 1], days[|days| - 1];
      assert front + [d] == days;
      PaidWithinAllowance(front, from, d.day);
      PaidOutAppend(front, d);
      OneDay(d.day);
      AllowanceSplits(from, d.day, d.day + 1);
      AllowanceSplits(from, d.day + 1, to);
    }
  }

  ghost predicate AllBefore(days: seq<DayRow>, day: int) {
    days == [] || days[|days| - 1].day < day
  }

  lemma InvWithin(book: Book, to: nat)
    requires Inv(book) && AllBefore(book.days, to)
    ensures Within(book.days, 0, to) && 0 <= PaidOut(book.days) <= POOL
  {
    var days := book.days;
    forall i | 0 <= i < |days| ensures 0 <= days[i].day < to && days[i].distributed <= Scheduled(days[i].day) {
      assert GoodDay(days[i], POOL - PaidOut(days[..i]));
    }
  }

  /** On none of the first 2920 days is the ceiling limited by the pool: not on those a run has recorded, and not
      on those that can still be recorded after it. */
  lemma ScheduleIsNeverPoolLimited(attempts: seq<Attempt>)
    ensures var book := Run(EMPTY, attempts);
            && (forall i :: 0 <= i < |book.days| && book.days[i].day < SCHEDULE_DAYS ==>
                  0 <= book.days[i].day && book.days[i].ceiling == Scheduled(book.days[i].day))
            && (forall day: nat :: day < SCHEDULE_DAYS && AllBefore(book.days, day) ==>
                  NotLimited(day, POOL - PaidOut(book.days)))
  {
    hide Run, Inv, Scheduled, PaidOut, NotLimited, AllBefore;
    var book := Run(EMPTY, attempts);
    EmptyIsGood();
    RunKeeps(EMPTY, attempts);
    forall i | 0 <= i < |book.days| && book.days[i].day < SCHEDULE_DAYS
      ensures 0 <= book.days[i].day && book.days[i].ceiling == Scheduled(book.days[i].day)
    {
      RecordedOnSchedule(book, i);
    }
    forall day: nat | day < SCHEDULE_DAYS && AllBefore(book.days, day)
      ensures NotLimited(day, POOL - PaidOut(book.days))
    {
      InvWithin(book, day);
      NotLimitedAfter(book.days, day);
    }
  }

  predicate NotLimited(day: nat, pool: int) {
    && DailyCeilingMojos(day, pool).Ok? && !DailyCeilingMojos(day, pool).value.limited
    && DailyCeilingMojos(day, pool).value.ceiling == Scheduled(day)
  }

  lemma NotLimitedAfter(days: seq<DayRow>, day: nat)
    requires Within(days, 0, day) && 0 <= PaidOut(days) <= POOL && day < SCHEDULE_DAYS
    ensures Scheduled(day) <= POOL - PaidOut(days) && NotLimited(day, POOL - PaidOut(days))
  {
    hide Within, Scheduled, Allowance, PaidOut, DailyCeilingMojos;
    PaidWithinAllowance(days, 0, day);
    EnoughForEveryScheduledDay(day);
    CeilingIsTheSmaller(day, POOL - PaidOut(days));
  }

  lemma RecordedOnSchedule(book: Book, i: nat)
    requires Inv(book) && i < |book.days| && book.days[i].day < SCHEDULE_DAYS
    ensures 0 <= book.days[i].day && book.days[i].ceiling == Scheduled(book.days[i].day)
  {
    hide Scheduled, PaidOut, NotLimited;
    var days, d := book.days[..i], book.days[i];
    assert GoodDay(d, POOL - PaidOut(days));
    InvWithin(book, book.days[|book.days| - 1].day + 1);
    assert Within(days, 0, d.day);
    PaidIsNatural(book, i);
    NotLimitedAfter(days, d.day);
  }

  lemma {:induction false} PaidIsNatural(book: Book, i: nat)
    requires Inv(book) && i <= |book.days|
    ensures 0 <= PaidOut(book.days[..i]) <= POOL
  {
    hide Scheduled, PaidOut;
    if i == 0 {
      EmptyPaysNothing();
    } else {
      PaidIsNatural(book, i - 1);
      assert GoodDay(book.days[i - 1], POOL - PaidOut(book.days[..i - 1]));
      PaidOutAppend(book.days[..i - 1], book.days[i - 1]);
      assert book.days[..i] == book.days[..i - 1] + [book.days[i - 1]];
    }
  }

  lemma EmptyPaysNothing()
    ensures PaidOut([]) == 0
  {
    EmptyTotal();
  }

  lemma {:induction false} RunOnlyAppends(book: Book, attempts: seq<Attempt>, from: int)
    requires AllFrom(attempts, from)
    ensures var days := Run(book, attempts).days;
            |book.days| <= |days| && days[..|book.days|] == book.days
            && forall i :: |book.days| <= i < |days| ==> days[i].day >= from
  {
    hide Step;
    if attempts != [] {
      var last := attempts[|attempts| - 1];
      assert last in attempts;
      RunOnlyAppends(book, attempts[..|attempts| - 1], from);
      StepAppends(Run(book, attempts[..|attempts| - 1]), last);
    }
  }

  lemma StepAppends(book: Book, a: Attempt)
    ensures Step(book, a).days == book.days
            || exists d: DayRow :: d.day == a.day && Step(book, a).days == book.days + [d]
  {
    if Step(book, a) != book {
      var s := SettleDay(a.trees, a.day, SnapshotOf(book.days).value.remaining).value;
      SettledDayIsDay(a.trees, a.day, SnapshotOf(book.days).value.remaining);
      hide SettleDay;
      assert DayFor(s).day == a.day && Step(book, a).days == book.days + [DayFor(s)];
    }
  }

  /** The runway, read off the balance at any point, is a promise as long as no earlier day is settled afterwards:
      none of that many days is then limited by the pool. */
  lemma RunwayIsNeverPoolLimited(before: seq<Attempt>, day: nat, after: seq<Attempt>, later: nat)
    requires AllFrom(after, day) && AllBefore(Run(EMPTY, before).days, day)
    requires RunwayDaysRemaining(POOL - PaidOut(Run(EMPTY, before).days), day).Ok?
    requires day <= later < day + RunwayDaysRemaining(POOL - PaidOut(Run(EMPTY, before).days), day).value
    requires AllBefore(Run(Run(EMPTY, before), after).days, later)
    ensures var pool := POOL - PaidOut(Run(Run(EMPTY, before), after).days);
            DailyCeilingMojos(later, pool).Ok? && !DailyCeilingMojos(later, pool).value.limited
  {
    hide Run, Inv, RunwayDaysRemaining, DailyCeilingMojos, PaidOut, Within, AllBefore;
    var book := Run(EMPTY, before);
    EmptyIsGood();
    RunKeeps(EMPTY, before);
    RunKeeps(book, after);
    RunOnlyAppends(book, after, day);
    InvWithin(book, day);
    InvWithin(Run(book, after), later);
    RunwayHolds(book.days, Run(book, after).days, day, later);
  }

  ghost predicate AllFrom(attempts: seq<Attempt>, day: int) {
    forall a :: a in attempts ==> a.day >= day
  }

  lemma RunwayHolds(before: seq<DayRow>, days: seq<DayRow>, day: nat, later: nat)
    requires |before| <= |days| && days[..|before|] == before
    requires forall i :: |before| <= i < |days| ==> days[i].day >= day
    requires Within(days, 0, later)
    requires 0 <= PaidOut(before) <= POOL && RunwayDaysRemaining(POOL - PaidOut(before), day).Ok?
    requires day <= later < day + RunwayDaysRemaining(POOL - PaidOut(before), day).value
    ensures DailyCeilingMojos(later, POOL - PaidOut(days)).Ok?
    ensures !DailyCeilingMojos(later, POOL - PaidOut(days)).value.limited
  {
    var n := |before|;
    hide Scheduled, Allowance, RunwayDaysRemaining, DailyCeilingMojos, PaidOut;
    assert Within(days[n..], day, later);
    PaidWithinAllowance(days[n..], day, later);
    PaidOutSplit(days, n);
    RunwayCovers(POOL - PaidOut(before), day, later);
    CeilingIsTheSmaller(later, POOL - PaidOut(days));
  }

  lemma PaidOutSplit(days: seq<DayRow>, n: nat)
    requires n <= |days|
    ensures PaidOut(days) == PaidOut(days[..n]) + PaidOut(days[n..])
  {
    assert Map(DistributedOf, days) == Map(DistributedOf, days[..n]) + Map(DistributedOf, days[n..]);
    TotalAppend(Map(DistributedOf, days[..n]), Map(DistributedOf, days[n..]));
  }
}

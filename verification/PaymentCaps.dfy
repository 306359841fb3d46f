/** How the promises of the pay path depend on the per-wallet cap (orchard_chia/economics/runner.py).

    A live run insists on a positive cap; a dry run does not look at it. Here a dry run with a negative
    cap is followed through three live runs: it leaves a row of a negative amount, which the
    already-sent rule overlooks, so the sent row is overwritten and then paid again. */
module PaymentCaps {
  import opened Ordering
  import opened Audit
  import opened Planner
  import opened Executor
  import opened OneDebt
  import opened Payment
  import opened PaymentSafety
  import opened PaymentHistory
  import opened PaymentTheorems

  // What is promised of a history.

  ghost predicate PaysOnce(site: Site, es: seq<Event>) {
    var moved := History(site, es).host.moved;
    forall i, j :: 0 <= i < j < |moved| ==>
      (DayOf(site, moved[i].cycle), moved[i].wallet) != (DayOf(site, moved[j].cycle), moved[j].wallet)
  }

  /** A day's accepted spends are one run's, under one cap, and add up to no more than what it distributed. */
  ghost predicate OneRunPerDay(site: Site, es: seq<Event>) {
    var h := History(site, es).host;
    forall i, j :: 0 <= i < |h.moved| && 0 <= j < |h.moved| && h.moved[i].cycle == h.moved[j].cycle ==>
      h.moved[i].run == h.moved[j].run && WithinDay(site, h, h.moved[j])
  }

  ghost predicate WithinDay(site: Site, h: Host, x: Spend) {
    && MovedTotal(h.moved, x.cycle) <= x.capCycle
    && DayOf(site, x.cycle) in h.days && MovedTotal(h.moved, x.cycle) <= Distributed(h.days[DayOf(site, x.cycle)])
  }

  /** A paid day's rows are all sent, and every wallet of the day was moved what it is owed, up to the cap. */
  ghost predicate PaidIsSent(site: Site, es: seq<Event>) {
    var h := History(site, es).host;
    forall day :: day in h.paid ==> DayIsSent(h, day)
  }

  ghost predicate DayIsSent(h: Host, day: int)
    requires day in h.paid
  {
    && day in h.days
    && (forall k :: k in h.db.rows && k.0 == h.paid[day] ==> h.db.rows[k].state == Sent && h.db.rows[k].txId != "")
    && (OwedMap(h.days[day]) != map[] ==> exists i :: 0 <= i < |h.moved| && PaysInFull(h, day, h.paid[day], i))
  }

  /** A live run next, whose plan is not blocked, would skip nothing. */
  ghost predicate SkipsNothing(site: Site, es: seq<Event>, args: Args, day: int, answers: nat -> Answer) {
    var s := History(site, es);
    day in s.host.days && args.maxWallet >= 0 && !args.dry && TrustedAnswers(answers)
    && DayPlan(site, s.host, args, day).blocked == [] ==>
      var p := DayPlan(site, s.host, args, day);
      ExecuteTrace(ApplyAll(s.host, PersistEffects(p)), p, TagFor(s.runs, args), answers, 0, MAX_ATTEMPTS)
        .report.skipped == []
  }

  ghost predicate CapsFrom(es: seq<Event>, least: int) {
    forall e :: e in es ==> TrustedFrom(e, least)
  }

  // The bad history.

  const SITE := Site(0, "asset")
  const ROWS := [RewardRow("w", 10)]
  const DAYS := map[0 := ROWS]
  const LIVE := Args(false, true, Some(0), 100, 100, None)

  /** The day settled, its cycle opened with one row, and these spends accepted. */
  function Book(state: CycleState, row: Row, moved: seq<Spend>): Host { OneDebt.Book(DAYS, state, row, moved) }

  function Dry(cap: int): Args { Args(true, false, Some(0), 0, cap, None) }

  /** The settled day, a dry run with the cap, a live run cut before the day is marked paid, and another. */
  function ThreeRuns(cap: int, stop: nat): seq<Event> {
    [SettleDay(0, ROWS), PayRun(Dry(cap), Willing, 2), PayRun(LIVE, Willing, 7), PayRun(LIVE, Willing, stop)]
  }

  function FourRuns(cap: int): seq<Event> { ThreeRuns(cap, 5) + [PayRun(LIVE, Willing, 8)] }

  lemma DayOfOneDebt()
    ensures OwedMap(ROWS) == map["w" := 10] && AllocationsOf(ROWS) == [Allocation("w", 10)]
    ensures CycleFor(SITE, 0, ROWS) == CYCLE
  {
    assert ROWS[..0] == [];
    assert OwedMap(ROWS) == map["w" := 10];
    TextOrder();
    AscendingUnique(TextLe, {"w"}, ["w"]);
    assert map["w" := 10].Keys == {"w"};
    assert AllocationsOf(ROWS) == [Allocation("w", 10)];
    assert [Allocation("w", 10)][..0] == [];
    assert TotalAllocated([Allocation("w", 10)]) == TotalAllocated([]) + 10;
  }

  lemma LivePlan(state: CycleState, row: Row, moved: seq<Spend>)
    requires row.state != Sending && (row.state == Sent ==> row.amount <= 0)
    ensures var p := DayPlan(SITE, Book(state, row, moved), LIVE, 0);
            p.cycle == CYCLE && p.instructions == [DEBT] && p.blocked == [] && !p.dryRun
  {
    DayOfOneDebt();
    OneInstruction(100);
    OneRow(DAYS, state, row, moved);
    var h := Book(state, row, moved);
    hide OwedMap, CycleFor, AllocationsOf, TotalSent, InFlight, InstructionsOf, Planner.Total, DroppedOf;
    UnblockedPlan(h.db, CYCLE, [Allocation("w", 10)], LimitsFor(LIVE), None, false);
  }

  lemma CleanPay(site: Site, h: Host, args: Args, day: int, run: nat, answers: nat -> Answer, p: Plan)
    requires site.asset != "" && !args.dry && args.ack && args.maxCycle > 0 && args.maxWallet > 0
    requires args.day == Some(day) && !Refused(h, day)
    requires p == DayPlan(site, h, args, day) && p.blocked == []
    ensures var t := ExecuteTrace(ApplyAll(h, PersistEffects(p)), p, TagFor(run, args), answers, 0, MAX_ATTEMPTS);
            Clean(t.report) ==>
              PayEffects(site, h, args, run, answers).effects == PersistEffects(p) + t.effects + [SetPaid(day, p.cycle)]
  {
    hide DayPlan, PersistEffects, ApplyAll, ExecuteTrace, UnpaidDays, AllSent, TagFor, Clean;
  }

  lemma DryPay(site: Site, h: Host, args: Args, day: int, run: nat, answers: nat -> Answer, p: Plan)
    requires site.asset != "" && args.dry && args.day == Some(day) && !Refused(h, day)
    requires p == DayPlan(site, h, args, day) && p.blocked == []
    ensures PayEffects(site, h, args, run, answers).effects == PersistEffects(p)
  {
    hide DayPlan, PersistEffects, ApplyAll, ExecuteTrace, UnpaidDays, AllSent, TagFor;
  }

  lemma NotRefused(h: Host)
    requires h.days == map[0 := ROWS] && h.paid == map[]
    ensures !Refused(h, 0)
  {
    DayOfOneDebt();
  }

  /** What a live run does to the book. */
  lemma LiveRun(state: CycleState, row: Row, moved: seq<Spend>, run: nat)
    requires row.state != Sending && (row.state == Sent ==> row.amount <= 0)
    ensures PayEffects(SITE, Book(state, row, moved), LIVE, run, Willing).effects
            == LiveEffects(row, run) + [SetPaid(0, CYCLE)]
  {
    var h := Book(state, row, moved);
    var p := DayPlan(SITE, h, LIVE, 0);
    LivePlan(state, row, moved);
    hide DayPlan, PersistEffects, ApplyAll, ExecuteTrace, SendOrSkip, PayEffects, Refused, Clean;
    NotRefused(h);
    PersistOne(p, 10);
    PersistTheDebt(DAYS, state, row, moved, 10);
    ExecuteTheDebt(DAYS, CyclePlanned, row, moved, run, p);
    assert TagFor(run, LIVE) == Tag(run, 100, 100);
    CleanPay(SITE, h, LIVE, 0, run, Willing, p);
  }

  lemma DryPlan(cap: int)
    requires cap < 0
    ensures var p := DayPlan(SITE, AfterSettling(), Dry(cap), 0);
            p.cycle == CYCLE && p.instructions == [Instruction("w", cap)] && p.blocked == [] && p.dryRun
  {
    DayOfOneDebt();
    OneInstruction(cap);
    var h := AfterSettling();
    assert !InFlight(h.db);
    hide OwedMap, CycleFor, AllocationsOf, TotalSent, InFlight, InstructionsOf, Planner.Total, DroppedOf;
    UnblockedPlan(h.db, CYCLE, [Allocation("w", 10)], LimitsFor(Dry(cap)), None, true);
  }

  function AfterSettling(): Host { Host(Db(map[], map[]), map[0 := ROWS], map[], []) }

  lemma DryRun(cap: int, run: nat)
    requires cap < 0
    ensures var es := PayEffects(SITE, AfterSettling(), Dry(cap), run, Willing).effects;
            && es == [Store(OpenCycle(CYCLE)), Store(PutInstruction(CYCLE, "w", cap))]
            && ApplyAll(AfterSettling(), es) == Book(CyclePlanned, Row(cap, Planned, "", 0), [])
  {
    hide DayPlan, PersistEffects, ApplyAll, Apply, PayEffects, Refused, Book, CYCLE, ROWS;
    var h, open, put := AfterSettling(), Store(OpenCycle(CYCLE)), Store(PutInstruction(CYCLE, "w", cap));
    var p := DayPlan(SITE, h, Dry(cap), 0);
    DryPlan(cap);
    FirstRow(cap);
    NotRefused(h);
    PersistOne(p, cap);
    ApplyThree(h, open, put, None);
    DryPay(SITE, h, Dry(cap), 0, run, Willing, p);
  }

  lemma FirstRow(cap: int)
    ensures Apply(Apply(AfterSettling(), Store(OpenCycle(CYCLE))), Store(PutInstruction(CYCLE, "w", cap)))
            == Book(CyclePlanned, Row(cap, Planned, "", 0), [])
  {
    hide CYCLE;
  }

  // The history, event by event.

  /** The book a live run leaves, before the day is marked paid. */
  function Left(row: Row, moved: seq<Spend>, run: nat): Host {
    Book(CycleSettled, After(row), if row.state == Sent then moved else moved + [SpendIn(run)])
  }

  lemma LiveStepsLeave(state: CycleState, row: Row, moved: seq<Spend>, run: nat)
    requires row.state != Sending
    ensures ApplyAll(Book(state, row, moved), LiveEffects(row, run)) == Left(row, moved, run)
  {
    hide ApplyAll, LiveEffects, After, OneDebt.Book;
    LiveSteps(DAYS, state, row, moved, run);
  }

  lemma MarkedPaid(row: Row, moved: seq<Spend>, run: nat)
    ensures Apply(Left(row, moved, run), SetPaid(0, CYCLE)) == Left(row, moved, run).(paid := map[0 := CYCLE])
  {
    hide After, CYCLE;
  }

  lemma LiveNext(state: CycleState, row: Row, moved: seq<Spend>, run: nat, stop: nat)
    requires row.state != Sending && (row.state == Sent ==> row.amount <= 0)
    requires |LiveEffects(row, run)| <= stop <= |LiveEffects(row, run)| + 1
    ensures var left := Left(row, moved, run);
            Next(SITE, System(Book(state, row, moved), run), PayRun(LIVE, Willing, stop))
            == System(if stop == |LiveEffects(row, run)| then left else left.(paid := map[0 := CYCLE]), run + 1)
  {
    hide *;
    var h, es, paid := Book(state, row, moved), LiveEffects(row, run), SetPaid(0, CYCLE);
    LiveRun(state, row, moved, run);
    LiveStepsLeave(state, row, moved, run);
    MarkedPaid(row, moved, run);
    CutRun(SITE, h, LIVE, run, Willing, es + [paid], stop);
    assert (es + [paid])[..|es|] == es && (es + [paid])[..|es| + 1] == es + [paid];
    ApplyAppend(h, es, [paid]);
    ApplyOne(Left(row, moved, run), paid);
  }

  lemma DryNext(cap: int)
    requires cap < 0
    ensures Next(SITE, System(AfterSettling(), 0), PayRun(Dry(cap), Willing, 2))
            == System(Book(CyclePlanned, Row(cap, Planned, "", 0), []), 1)
  {
    hide *;
    DryRun(cap, 0);
    var es := PayEffects(SITE, AfterSettling(), Dry(cap), 0, Willing).effects;
    assert es[..2] == es;
    CutRun(SITE, AfterSettling(), Dry(cap), 0, Willing, es, 2);
  }

  lemma SettledFirst()
    ensures Next(SITE, History(SITE, []), SettleDay(0, ROWS)) == System(AfterSettling(), 0)
  {
    hide ROWS;
  }

  lemma AfterDry(cap: int)
    requires cap < 0
    ensures History(SITE, [SettleDay(0, ROWS), PayRun(Dry(cap), Willing, 2)])
            == System(Book(CyclePlanned, Row(cap, Planned, "", 0), []), 1)
  {
    hide *;
    var settle, dry := SettleDay(0, ROWS), PayRun(Dry(cap), Willing, 2);
    HistorySnoc(SITE, [], settle);
    HistorySnoc(SITE, [settle], dry);
    assert [] + [settle] == [settle] && [settle] + [dry] == [settle, dry];
    SettledFirst();
    DryNext(cap);
  }

  lemma AfterFirst(cap: int)
    requires cap < 0
    ensures History(SITE, ThreeRuns(cap, 0)[..3])
            == System(Book(CycleSettled, Row(cap, Sent, "tx", 1), [SpendIn(1)]), 2)
  {
    hide Next, History, LiveEffects;
    AfterDry(cap);
    EffectCount(Row(cap, Planned, "", 0), 1);
    var two := [SettleDay(0, ROWS), PayRun(Dry(cap), Willing, 2)];
    assert ThreeRuns(cap, 0)[..3] == two + [PayRun(LIVE, Willing, 7)];
    HistorySnoc(SITE, two, PayRun(LIVE, Willing, 7));
    LiveNext(CyclePlanned, Row(cap, Planned, "", 0), [], 1, 7);
    assert [] + [SpendIn(1)] == [SpendIn(1)];
  }

  lemma AfterSkip(cap: int, stop: nat)
    requires cap < 0 && 5 <= stop <= 6
    ensures var book := Book(CycleSettled, Row(cap, Skipped, "tx", 1), [SpendIn(1)]);
            History(SITE, ThreeRuns(cap, stop)) == System(if stop == 5 then book else book.(paid := map[0 := CYCLE]), 3)
  {
    hide Next, History, LiveEffects;
    AfterFirst(cap);
    EffectCount(Row(cap, Sent, "tx", 1), 2);
    assert ThreeRuns(cap, stop) == ThreeRuns(cap, 0)[..3] + [PayRun(LIVE, Willing, stop)];
    HistorySnoc(SITE, ThreeRuns(cap, 0)[..3], PayRun(LIVE, Willing, stop));
    LiveNext(CycleSettled, Row(cap, Sent, "tx", 1), [SpendIn(1)], 2, stop);
  }

  /** The day's one wallet has been sent its debt twice. */
  lemma PaidTwice(cap: int)
    requires cap < 0
    ensures History(SITE, FourRuns(cap)).host.moved == [SpendIn(1), SpendIn(3)]
  {
    hide Next, History, LiveEffects;
    AfterSkip(cap, 5);
    EffectCount(Row(cap, Skipped, "tx", 1), 3);
    HistorySnoc(SITE, ThreeRuns(cap, 5), PayRun(LIVE, Willing, 8));
    LiveNext(CycleSettled, Row(cap, Skipped, "tx", 1), [SpendIn(1)], 3, 8);
    assert [SpendIn(1)] + [SpendIn(3)] == [SpendIn(1), SpendIn(3)];
  }

  // Exactly the caps that keep the promises.

  /** Whatever else happens, every history whose caps are at least m pays each wallet at most once a day, and
      every day from one run, exactly when m is not negative. */
  lemma PaysOnceIffCapsAreNotNegative(m: int)
    ensures (forall site, es :: CapsFrom(es, m) ==> PaysOnce(site, es)) <==> m >= 0
    ensures (forall site, es :: CapsFrom(es, m) ==> OneRunPerDay(site, es)) <==> m >= 0
  {
    hide PaysOnce, OneRunPerDay, CapsFrom, FourRuns;
    if m >= 0 {
      forall site, es | CapsFrom(es, m) ensures PaysOnce(site, es) && OneRunPerDay(site, es) {
        GoodCaps(site, es, m);
      }
    } else {
      FourRunsAreBad(m);
    }
  }

  lemma GoodCaps(site: Site, es: seq<Event>, m: int)
    requires m >= 0 && CapsFrom(es, m)
    ensures PaysOnce(site, es) && OneRunPerDay(site, es)
  {
    assert forall e :: e in es ==> Trusted(e);
    hide Trusted, History, MovedTotal, Distributed;
    var moved := History(site, es).host.moved;
    forall i, j | 0 <= i < j < |moved|
      ensures (DayOf(site, moved[i].cycle), moved[i].wallet) != (DayOf(site, moved[j].cycle), moved[j].wallet)
    {
      AtMostOncePerDayAndWallet(site, es, i, j);
    }
    forall i, j | 0 <= i < |moved| && 0 <= j < |moved| && moved[i].cycle == moved[j].cycle
      ensures moved[i].run == moved[j].run && WithinDay(site, History(site, es).host, moved[j])
    {
      OnePlanPerDay(site, es, j);
    }
  }

  lemma GoodCapsPayInFull(site: Site, es: seq<Event>, m: int)
    requires m >= 0 && CapsFrom(es, m)
    ensures PaidIsSent(site, es)
  {
    assert forall e :: e in es ==> Trusted(e);
    hide Trusted, History, MovedTotal, OwedMap, PaysInFull;
    forall day | day in History(site, es).host.paid ensures DayIsSent(History(site, es).host, day) {
      PaidMeansPaid(site, es, day);
    }
  }

  lemma CapsOfRuns(m: int, stop: nat)
    requires m < 0
    ensures CapsFrom(ThreeRuns(m, stop), m) && CapsFrom(ThreeRuns(m, stop)[..3], m) && CapsFrom(FourRuns(m), m)
  {}

  lemma FourRunsAreBad(m: int)
    requires m < 0
    ensures CapsFrom(FourRuns(m), m) && !PaysOnce(SITE, FourRuns(m)) && !OneRunPerDay(SITE, FourRuns(m))
  {
    CapsOfRuns(m, 5);
    PaidTwice(m);
    hide History, FourRuns, CapsFrom, WithinDay, DayOf;
    var moved := History(SITE, FourRuns(m)).host.moved;
    assert moved[0] == SpendIn(1) && moved[1] == SpendIn(3) && |moved| == 2;
  }

  /** A paid day's rows are all sent and its wallets paid in full, exactly when m is not negative. */
  lemma PaidIsSentIffCapsAreNotNegative(m: int)
    ensures (forall site, es :: CapsFrom(es, m) ==> PaidIsSent(site, es)) <==> m >= 0
  {
    hide PaidIsSent, CapsFrom, ThreeRuns;
    if m >= 0 {
      forall site, es | CapsFrom(es, m) ensures PaidIsSent(site, es) { GoodCapsPayInFull(site, es, m); }
    } else {
      ThreeRunsAreBad(m);
    }
  }

  lemma ThreeRunsAreBad(m: int)
    requires m < 0
    ensures CapsFrom(ThreeRuns(m, 6), m) && !PaidIsSent(SITE, ThreeRuns(m, 6))
  {
    CapsOfRuns(m, 6);
    AfterSkip(m, 6);
    hide History, ThreeRuns, CapsFrom;
    var h := History(SITE, ThreeRuns(m, 6)).host;
    assert 0 in h.paid && (CYCLE, "w") in h.db.rows && h.db.rows[(CYCLE, "w")].state == Skipped;
  }

  /** An unblocked live run skips nothing, exactly when m is not negative. */
  lemma SkipsNothingIffCapsAreNotNegative(m: int)
    ensures (forall site, es, args, day, answers :: CapsFrom(es, m) ==> SkipsNothing(site, es, args, day, answers))
            <==> m >= 0
  {
    hide SkipsNothing, CapsFrom;
    if m >= 0 {
      forall site, es, args, day, answers | CapsFrom(es, m) ensures SkipsNothing(site, es, args, day, answers) {
        GoodCapsSkipNothing(site, es, m, args, day, answers);
      }
    } else {
      TwoRunsAreBad(m);
    }
  }

  lemma GoodCapsSkipNothing(site: Site, es: seq<Event>, m: int, args: Args, day: int, answers: nat -> Answer)
    requires m >= 0 && CapsFrom(es, m)
    ensures SkipsNothing(site, es, args, day, answers)
  {
    assert forall e :: e in es ==> Trusted(e);
    hide Trusted, History, DayPlan, ExecuteTrace, TrustedAnswers;
    if day in History(site, es).host.days && args.maxWallet >= 0 && !args.dry && TrustedAnswers(answers)
       && DayPlan(site, History(site, es).host, args, day).blocked == [] {
      UnblockedNeverSkips(site, es, args, day, answers);
    }
  }

  lemma TwoRunsAreBad(m: int)
    requires m < 0
    ensures var es := ThreeRuns(m, 0)[..3]; CapsFrom(es, m) && !SkipsNothing(SITE, es, LIVE, 0, Willing)
  {
    hide History, DayPlan, PersistEffects, ExecuteTrace, ApplyAll, ThreeRuns, CapsFrom;
    CapsOfRuns(m, 0);
    AfterFirst(m);
    var row, moved := Row(m, Sent, "tx", 1), [SpendIn(1)];
    LivePlan(CycleSettled, row, moved);
    WouldSkip(row, moved, 2);
  }

  lemma WouldSkip(row: Row, moved: seq<Spend>, run: nat)
    requires row.state == Sent && row.amount <= 0
    ensures var p := DayPlan(SITE, Book(CycleSettled, row, moved), LIVE, 0);
            var planned := ApplyAll(Book(CycleSettled, row, moved), PersistEffects(p));
            ExecuteTrace(planned, p, TagFor(run, LIVE), Willing, 0, MAX_ATTEMPTS).report.skipped != []
  {
    LivePlan(CycleSettled, row, moved);
    var p := DayPlan(SITE, Book(CycleSettled, row, moved), LIVE, 0);
    hide DayPlan, PersistEffects, ExecuteTrace, ApplyAll, Book;
    PersistOne(p, 10);
    PersistTheDebt(DAYS, CycleSettled, row, moved, 10);
    ExecuteTheDebt(DAYS, CyclePlanned, row, moved, run, p);
    assert TagFor(run, LIVE) == Tag(run, 100, 100);
  }
}

/** What one acceptance hidden behind an exception costs (orchard_chia/allocation/executor.py).

    An ordinary exception is taken to mean that nothing was sent. If the last attempt's exception hides an
    acceptance, the row is marked failed, and the next run sends the money again: no instruction was ever
    retried after an acceptance, and still the wallet is paid twice. */
module HiddenAcceptance {
  import opened Ordering
  import opened Audit
  import opened Planner
  import opened Executor
  import opened OneDebt
  import opened Payment
  import opened PaymentSafety
  import opened PaymentTheorems
  import opened PaymentCaps

  /** Some answer of the run is an exception behind which the wallet accepted the spend. */
  ghost predicate Hides(e: Event) {
    e.PayRun? && exists n: nat :: HiddenAt(e.answers, n)
  }

  predicate HiddenAt(answers: nat -> Answer, n: nat) { answers(n) == Fault(true) }

  ghost function HidingRuns(es: seq<Event>): nat {
    if es == [] then 0 else HidingRuns(es[..|es| - 1]) + if Hides(es[|es| - 1]) then 1 else 0
  }

  /** Everything else the promises rest on. */
  ghost predicate OtherwiseTrusted(e: Event) {
    match e
    case PayRun(args, answers, _) =>
      args.maxWallet >= 0 && forall n: nat :: answers(n).Accepted? ==> answers(n).txId != ""
    case SettleDay(_, _) => true
    case Resolve(_, _, txId) => txId != ""
  }

  ghost predicate AllOtherwise(es: seq<Event>) { forall e :: e in es ==> OtherwiseTrusted(e) }

  // The bad history.

  /** The wallet refuses twice, and accepts the third attempt without saying so. */
  function LastLost(n: nat): Answer { Fault(n == 2) }

  function LostRun(): Event { PayRun(LIVE, LastLost, 9) }

  function LostThenPaid(): seq<Event> { [SettleDay(0, ROWS), LostRun(), PayRun(LIVE, Willing, 8)] }

  function Tries3(run: nat): seq<Effect> {
    var mark := Store(MarkSending(CYCLE, "w"));
    [mark, mark, mark, Move(SpendIn(run))]
  }

  lemma TryThrice(run: nat)
    ensures TryToSend(CYCLE, DEBT, Tag(run, 100, 100), LastLost, 0, 3) == Tries(Tries3(run), 3, GaveUp)
  {
    var tag, mark := Tag(run, 100, 100), Store(MarkSending(CYCLE, "w"));
    assert LastLost(0) == Fault(false) && LastLost(1) == Fault(false) && LastLost(2) == Fault(true);
    TryUnfold(CYCLE, DEBT, tag, LastLost, 0, 3);
    TryUnfold(CYCLE, DEBT, tag, LastLost, 1, 2);
    TryUnfold(CYCLE, DEBT, tag, LastLost, 2, 1);
    NoTriesLeft(CYCLE, DEBT, tag, LastLost, 3);
    assert Attempt(CYCLE, DEBT, tag, LastLost(0)) == [mark] == Attempt(CYCLE, DEBT, tag, LastLost(1));
    assert Attempt(CYCLE, DEBT, tag, LastLost(2)) == [mark, Move(SpendIn(run))];
    hide TryToSend, Attempt;
    assert [mark] + ([mark] + ([mark, Move(SpendIn(run))] + [])) == Tries3(run);
  }

  /** What the run does after recording its plan. */
  function LostEffects(run: nat): seq<Effect> {
    [Store(SetCycleState(CYCLE, CycleSending))] + (Tries3(run) + [Store(MarkFailed(CYCLE, "w"))])
    + [Store(SetCycleState(CYCLE, CycleSettled))]
  }

  lemma ExecuteLost(p: Plan, run: nat)
    requires p.cycle == CYCLE && p.instructions == [DEBT] && p.blocked == [] && !p.dryRun
    ensures var t := ExecuteTrace(PlannedBook(), p, Tag(run, 100, 100), LastLost, 0, 3);
            t.effects == LostEffects(run) && !Clean(t.report)
  {
    var tag, start := Tag(run, 100, 100), Store(SetCycleState(CYCLE, CycleSending));
    var h1 := PaymentCaps.Book(CycleSending, Row(10, Planned, "", 0), []);
    assert Apply(PlannedBook(), start) == h1;
    OneRow(DAYS, CycleSending, Row(10, Planned, "", 0), []);
    TryThrice(run);
    hide AlreadyPaid, TryToSend, Apply, ApplyAll, Tries3, OneDebt.Book;
    var one := SendOne(h1.db, CYCLE, DEBT, tag, LastLost, 0, 3);
    assert one == Tries(Tries3(run) + [Store(MarkFailed(CYCLE, "w"))], 3, GaveUp);
    var done := Progress([start], 0, EMPTY_REPORT);
    var next := Progress([start] + one.effects, one.calls, Note(EMPTY_REPORT, DEBT, one.outcome));
    assert [DEBT][1..] == [];
    assert SendAll(h1, CYCLE, [DEBT], tag, LastLost, 3, done)
        == SendAll(ApplyAll(h1, one.effects), CYCLE, [], tag, LastLost, 3, next);
    assert next.report.failed == [] + [(DEBT.wallet, DEBT.amount)];
  }

  function PlannedBook(): Host { PaymentCaps.Book(CyclePlanned, Row(10, Planned, "", 0), []) }

  lemma FirstPlan()
    ensures var p := DayPlan(SITE, AfterSettling(), LIVE, 0);
            p.cycle == CYCLE && p.instructions == [DEBT] && p.blocked == [] && !p.dryRun
  {
    DayOfOneDebt();
    OneInstruction(100);
    var h := AfterSettling();
    assert !InFlight(h.db);
    hide OwedMap, CycleFor, AllocationsOf, TotalSent, InFlight, InstructionsOf, Planner.Total, DroppedOf;
    UnblockedPlan(h.db, CYCLE, [Allocation("w", 10)], LimitsFor(LIVE), None, false);
  }

  lemma UncleanPay(site: Site, h: Host, args: Args, day: int, run: nat, answers: nat -> Answer, p: Plan)
    requires site.asset != "" && !args.dry && args.ack && args.maxCycle > 0 && args.maxWallet > 0
    requires args.day == Some(day) && !Refused(h, day)
    requires p == DayPlan(site, h, args, day) && p.blocked == []
    ensures var t := ExecuteTrace(ApplyAll(h, PersistEffects(p)), p, TagFor(run, args), answers, 0, MAX_ATTEMPTS);
            !Clean(t.report) ==> PayEffects(site, h, args, run, answers).effects == PersistEffects(p) + t.effects
  {
    hide DayPlan, PersistEffects, ApplyAll, ExecuteTrace, UnpaidDays, AllSent, TagFor, Clean;
  }

  lemma LostPays()
    ensures PayEffects(SITE, AfterSettling(), LIVE, 0, LastLost).effects == PersistTwo() + LostEffects(0)
    ensures ApplyAll(AfterSettling(), PersistTwo()) == PlannedBook()
  {
    var p := DayPlan(SITE, AfterSettling(), LIVE, 0);
    FirstPlan();
    FirstRow(10);
    NotRefused(AfterSettling());
    assert TagFor(0, LIVE) == Tag(0, 100, 100);
    hide DayPlan, PersistEffects, ApplyAll, Apply, ExecuteTrace, PayEffects, Refused, Clean, LostEffects, CYCLE, ROWS;
    PersistOne(p, 10);
    ApplyThree(AfterSettling(), Store(OpenCycle(CYCLE)), Store(PutInstruction(CYCLE, "w", 10)), None);
    ExecuteLost(p, 0);
    UncleanPay(SITE, AfterSettling(), LIVE, 0, 0, LastLost, p);
  }

  function PersistTwo(): seq<Effect> { [Store(OpenCycle(CYCLE)), Store(PutInstruction(CYCLE, "w", 10))] }

  /** The row marked mid-send for the n-th time, or failed, before and after the wallet accepts. */
  function Trying(n: nat, state: RowState, moved: seq<Spend>): Host {
    PaymentCaps.Book(CycleSending, Row(10, state, "", n), moved)
  }

  function FailedBook(run: nat): Host {
    PaymentCaps.Book(CycleSettled, Row(10, Failed, "", 3), [SpendIn(run)])
  }

  lemma LostStep(run: nat)
    ensures Apply(PlannedBook(), Store(SetCycleState(CYCLE, CycleSending))) == Trying(0, Planned, [])
    ensures Apply(Trying(0, Planned, []), Store(MarkSending(CYCLE, "w"))) == Trying(1, Sending, [])
    ensures forall n: nat :: Apply(Trying(n, Sending, []), Store(MarkSending(CYCLE, "w"))) == Trying(n + 1, Sending, [])
    ensures Apply(Trying(3, Sending, []), Move(SpendIn(run))) == Trying(3, Sending, [SpendIn(run)])
    ensures Apply(Trying(3, Sending, [SpendIn(run)]), Store(MarkFailed(CYCLE, "w")))
            == Trying(3, Failed, [SpendIn(run)])
    ensures Apply(Trying(3, Failed, [SpendIn(run)]), Store(SetCycleState(CYCLE, CycleSettled))) == FailedBook(run)
  {
    assert [] + [SpendIn(run)] == [SpendIn(run)];
  }

  /** The row says failed, and the wallet has accepted the spend. */
  lemma LostSteps(run: nat)
    ensures ApplyAll(PlannedBook(), LostEffects(run)) == FailedBook(run)
  {
    var mark, move, failed := Store(MarkSending(CYCLE, "w")), Move(SpendIn(run)), Store(MarkFailed(CYCLE, "w"));
    var sending, settled := Store(SetCycleState(CYCLE, CycleSending)), Store(SetCycleState(CYCLE, CycleSettled));
    LostStep(run);
    assert LostEffects(run) == [sending, mark, mark] + [mark, move, failed] + [settled];
    hide Apply, ApplyAll, Trying, PlannedBook, FailedBook, LostEffects;
    ApplyThree(PlannedBook(), sending, mark, Some(mark));
    ApplyThree(Trying(2, Sending, []), mark, move, Some(failed));
    ApplyOne(Trying(3, Failed, [SpendIn(run)]), settled);
    ApplyAppend(PlannedBook(), [sending, mark, mark], [mark, move, failed]);
    ApplyAppend(PlannedBook(), [sending, mark, mark] + [mark, move, failed], [settled]);
  }

  /** The wallet accepts the day's debt in both runs, and in neither was anything tried again after an acceptance. */
  lemma PaidAgainAfterFailure()
    ensures History(SITE, LostThenPaid()).host.moved == [SpendIn(0), SpendIn(1)]
    ensures !RetriedAfterAcceptance(LastLost, 0, MAX_ATTEMPTS) && !RetriedAfterAcceptance(Willing, 0, MAX_ATTEMPTS)
  {
    hide Next, History, LiveEffects, LostEffects, PayEffects;
    var es := LostThenPaid();
    SettledFirst();
    HistorySnoc(SITE, [], SettleDay(0, ROWS));
    assert [] + [SettleDay(0, ROWS)] == [SettleDay(0, ROWS)] == es[..1];
    LostNext();
    HistorySnoc(SITE, es[..1], LostRun());
    assert es[..1] + [LostRun()] == es[..2] && es[..2] + [es[2]] == es;
    HistorySnoc(SITE, es[..2], es[2]);
    EffectCount(Row(10, Failed, "", 3), 1);
    LiveNext(CycleSettled, Row(10, Failed, "", 3), [SpendIn(0)], 1, 8);
    assert [SpendIn(0)] + [SpendIn(1)] == [SpendIn(0), SpendIn(1)];
  }

  lemma LostNext()
    ensures Next(SITE, System(AfterSettling(), 0), LostRun()) == System(FailedBook(0), 1)
  {
    hide Next, PayEffects, ApplyAll, FailedBook;
    LostPays();
    LostSteps(0);
    var es := PersistTwo() + LostEffects(0);
    assert |es| == 9 && es[..9] == es;
    CutRun(SITE, AfterSettling(), LIVE, 0, LastLost, es, 9);
    ApplyAppend(AfterSettling(), PersistTwo(), LostEffects(0));
  }

  /** For every bound k: all otherwise trusted histories in which at most k runs hide an acceptance pay each wallet at
      most once a day, exactly when k is zero. */
  lemma PaysOnceIffNothingIsHidden(k: nat)
    ensures (forall site, es :: AllOtherwise(es) && HidingRuns(es) <= k ==> PaysOnce(site, es)) <==> k == 0
  {
    hide PaysOnce, AllOtherwise, HidingRuns, LostThenPaid;
    if k == 0 {
      forall site, es | AllOtherwise(es) && HidingRuns(es) <= 0 ensures PaysOnce(site, es) {
        NothingHidden(es);
        GoodCaps(site, es, 0);
      }
    } else {
      OneRunHides();
      PaidTwiceIsBad();
    }
  }

  lemma PaidTwiceIsBad()
    ensures !PaysOnce(SITE, LostThenPaid())
  {
    PaidAgainAfterFailure();
    hide History, LostThenPaid, DayOf, RetriedAfterAcceptance;
    var moved := History(SITE, LostThenPaid()).host.moved;
    assert moved[0] == SpendIn(0) && moved[1] == SpendIn(1) && |moved| == 2;
  }

  lemma {:induction false} NothingHidden(es: seq<Event>)
    requires AllOtherwise(es) && HidingRuns(es) <= 0
    ensures CapsFrom(es, 0)
  {
    if es != [] {
      var front, e := es[..|es| - 1], es[|es| - 1];
      assert es == front + [e];
      NothingHidden(front);
      assert TrustedFrom(e, 0) by {
        assert OtherwiseTrusted(e);
        if e.PayRun? {
          forall n: nat | e.answers(n).Fault? ensures !e.answers(n).moved { assert !HiddenAt(e.answers, n); }
        }
      }
      hide TrustedFrom, Hides, OtherwiseTrusted, HidingRuns;
    }
  }

  lemma OneRunHides()
    ensures AllOtherwise(LostThenPaid()) && HidingRuns(LostThenPaid()) == 1
  {
    var es := LostThenPaid();
    assert !Hides(es[2]) by { assert forall n :: Willing(n) != Fault(true); }
    assert Hides(es[1]) by { assert HiddenAt(LastLost, 2); }
    assert es[..2][..1] == [es[0]] && es[..2] == [es[0], es[1]] && [es[0]][..0] == [];
    assert HidingRuns([es[0]]) == 0;
    hide Hides;
  }
}

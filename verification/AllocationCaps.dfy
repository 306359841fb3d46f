/** How the promises of allocation cycles depend on the per-wallet limit (orchard_chia/allocation/service.py).

    Settings are validated, but a dry run's limits may be negative. A dry run with a negative per-wallet
    limit is followed through three live runs of the same cycle: the second overwrites what the first
    sent, and the third sends it again. */
module AllocationCaps {
  import opened Ordering
  import opened Audit
  import opened Planner
  import opened Executor
  import opened OneDebt
  import opened Payment
  import opened AllocationRuns
  import opened RunLock
  import Engine = Allocation
  import PaymentTheorems

  // What is promised of the wallet.

  ghost predicate PaysOnce(moved: seq<Spend>) {
    forall i, j :: 0 <= i < j < |moved| ==> (moved[i].cycle, moved[i].wallet) != (moved[j].cycle, moved[j].wallet)
  }

  ghost predicate WithinBudgets(moved: seq<Spend>) {
    forall i :: 0 <= i < |moved| ==> PaymentTheorems.MovedTotal(moved, moved[i].cycle) <= moved[i].cycle.budget
  }

  // The bad sequence of runs.

  const RECORDS: seq<Engine.Uptime> := [Engine.UptimeRecord("t", "s", "w", 10000, true, None)]
  const LIVE := Settings("asset", 10, 100, 100, 1, 0, false, Some(1))

  function Dry(limit: int): Settings { Settings("asset", 10, 0, limit, 1, 0, true, None) }

  function JobWith(s: Settings): Job { Job(s, 0, DAY_SECONDS, RECORDS, None, false, Willing) }

  function Book(state: CycleState, row: Row, moved: seq<Spend>): Host { OneDebt.Book(map[], state, row, moved) }

  function FourRuns(limit: int): seq<Past> {
    [Ran(JobWith(Dry(limit)), 3), Ran(JobWith(LIVE), 7), Ran(JobWith(LIVE), 5), Ran(JobWith(LIVE), 7)]
  }

  /** One Tree, one wallet: the whole budget is its allocation. */
  lemma OneAllocation(s: Settings)
    requires s.budget == 10
    ensures AllocsOf(JobWith(s)) == [Allocation("w", 10)]
  {
    var r := Engine.Outcome(RECORDS, 10);
    OneWallet();
    SomeUptimeThere();
    Engine.AllOrNothing(RECORDS, 10);
    hide Engine.Outcome, Engine.SomeUptime;
    assert Engine.Amounts(r.allocations)[..0] == [];
  }

  lemma SomeUptimeThere()
    ensures Engine.SomeUptime(RECORDS)
  {
    assert RECORDS[0] in RECORDS;
  }

  lemma OneWallet()
    ensures var r := Engine.Outcome(RECORDS, 10); |r.allocations| == 1 && r.allocations[0].wallet == "w"
  {
    Engine.WeightsDescribe(RECORDS);
    var ws, r := Engine.Weights(RECORDS), Engine.Outcome(RECORDS, 10);
    assert RECORDS[0] in RECORDS && Engine.Wallets(RECORDS) == {"w"};
    hide Engine.Outcome, Engine.Weights;
    Engine.AllocationsFollowWeights(RECORDS, 10);
    assert Engine.DescribesWallet(RECORDS, ws[0]);
  }

  lemma LivePlan(state: CycleState, row: Row, moved: seq<Spend>)
    requires row.state != Sending && (row.state == Sent ==> row.amount <= 0)
    ensures var p := PlanFor(Book(state, row, moved), JobWith(LIVE));
            p.cycle == CYCLE && p.instructions == [DEBT] && p.blocked == [] && !p.dryRun
  {
    OneAllocation(LIVE);
    OneInstruction(100);
    OneRow(map[], state, row, moved);
    hide AllocsOf, TotalSent, InFlight, InstructionsOf, Planner.Total, DroppedOf;
    UnblockedPlan(Book(state, row, moved).db, CYCLE, [Allocation("w", 10)], LimitsOf(JobWith(LIVE)), None, false);
  }

  lemma LiveRun(state: CycleState, row: Row, moved: seq<Spend>, run: nat)
    requires row.state != Sending && (row.state == Sent ==> row.amount <= 0)
    ensures CycleEffects(Book(state, row, moved), JobWith(LIVE), run) == LiveEffects(row, run)
  {
    var h := Book(state, row, moved);
    var p := PlanFor(h, JobWith(LIVE));
    LivePlan(state, row, moved);
    hide PlanFor, PersistEffects, ApplyAll, ExecuteTrace, SendOrSkip;
    PersistOne(p, 10);
    PersistTheDebt(map[], state, row, moved, 10);
    ExecuteTheDebt(map[], CyclePlanned, row, moved, run, p);
    assert TagOf(JobWith(LIVE), run) == Tag(run, 100, 100);
  }

  lemma DryPlan(limit: int)
    requires limit < 0
    ensures var p := PlanFor(START, JobWith(Dry(limit)));
            p.cycle == CYCLE && p.instructions == [Instruction("w", limit)] && p.blocked == [] && p.dryRun
  {
    OneAllocation(Dry(limit));
    OneInstruction(limit);
    assert !InFlight(START.db);
    hide AllocsOf, TotalSent, InFlight, InstructionsOf, Planner.Total, DroppedOf;
    UnblockedPlan(START.db, CYCLE, [Allocation("w", 10)], LimitsOf(JobWith(Dry(limit))), None, true);
  }

  lemma DryRun(limit: int)
    requires limit < 0
    ensures CycleEffects(START, JobWith(Dry(limit)), 0) == DryEffects(limit)
  {
    var p := PlanFor(START, JobWith(Dry(limit)));
    DryPlan(limit);
    hide PlanFor, PersistEffects, ApplyAll, SendAll;
    PersistOne(p, limit);
  }

  function DryEffects(limit: int): seq<Effect> {
    [Store(OpenCycle(CYCLE)), Store(PutInstruction(CYCLE, "w", limit))] + [Store(SetCycleState(CYCLE, CycleDryRun))]
  }

  lemma DrySteps(limit: int)
    ensures ApplyAll(START, DryEffects(limit)) == Book(CycleDryRun, Row(limit, Planned, "", 0), [])
  {
    var open, put := Store(OpenCycle(CYCLE)), Store(PutInstruction(CYCLE, "w", limit));
    var dry := Store(SetCycleState(CYCLE, CycleDryRun));
    assert Apply(Apply(Apply(START, open), put), dry) == Book(CycleDryRun, Row(limit, Planned, "", 0), []);
    hide Apply, ApplyAll, START, Book;
    ApplyThree(START, open, put, Some(dry));
    assert DryEffects(limit) == [open, put, dry];
  }

  // The sequence, run by run.

  lemma SerialSnoc(past: seq<Past>, job: Job, stop: nat)
    ensures Serial(past + [Ran(job, stop)])
            == ApplyAll(Serial(past), Cut(CycleEffects(Serial(past), job, |past|), stop))
  {
    hide CycleEffects, ApplyAll;
    assert (past + [Ran(job, stop)])[..|past|] == past;
  }

  lemma LiveNext(past: seq<Past>, state: CycleState, row: Row, moved: seq<Spend>)
    requires Serial(past) == Book(state, row, moved)
    requires row.state != Sending && (row.state == Sent ==> row.amount <= 0)
    ensures Serial(past + [Ran(JobWith(LIVE), |LiveEffects(row, |past|)|)])
            == Book(CycleSettled, After(row), if row.state == Sent then moved else moved + [SpendIn(|past|)])
  {
    hide CycleEffects, ApplyAll, LiveEffects, Serial;
    SerialSnoc(past, JobWith(LIVE), |LiveEffects(row, |past|)|);
    LiveRun(state, row, moved, |past|);
    LiveSteps(map[], state, row, moved, |past|);
    assert LiveEffects(row, |past|)[..|LiveEffects(row, |past|)|] == LiveEffects(row, |past|);
  }

  lemma AfterDry(limit: int)
    requires limit < 0
    ensures Serial(FourRuns(limit)[..1]) == Book(CycleDryRun, Row(limit, Planned, "", 0), [])
  {
    assert Serial([]) == START;
    hide Serial, CycleEffects, ApplyAll, Book, START;
    DryRun(limit);
    DrySteps(limit);
    SerialSnoc([], JobWith(Dry(limit)), 3);
    assert FourRuns(limit)[..1] == [] + [Ran(JobWith(Dry(limit)), 3)];
    assert DryEffects(limit)[..3] == DryEffects(limit);
  }

  lemma AfterFirst(limit: int)
    requires limit < 0
    ensures Serial(FourRuns(limit)[..2]) == Book(CycleSettled, Row(limit, Sent, "tx", 1), [SpendIn(1)])
  {
    hide Serial, LiveEffects, Book;
    AfterDry(limit);
    EffectCount(Row(limit, Planned, "", 0), 1);
    LiveNext(FourRuns(limit)[..1], CycleDryRun, Row(limit, Planned, "", 0), []);
    assert FourRuns(limit)[..2] == FourRuns(limit)[..1] + [Ran(JobWith(LIVE), 7)];
    assert [] + [SpendIn(1)] == [SpendIn(1)];
  }

  lemma AfterSkip(limit: int)
    requires limit < 0
    ensures Serial(FourRuns(limit)[..3]) == Book(CycleSettled, Row(limit, Skipped, "tx", 1), [SpendIn(1)])
  {
    hide Serial, LiveEffects, Book;
    AfterFirst(limit);
    EffectCount(Row(limit, Sent, "tx", 1), 2);
    LiveNext(FourRuns(limit)[..2], CycleSettled, Row(limit, Sent, "tx", 1), [SpendIn(1)]);
    assert FourRuns(limit)[..3] == FourRuns(limit)[..2] + [Ran(JobWith(LIVE), 5)];
  }

  /** The cycle's one wallet has been sent its allocation twice. */
  lemma PaidTwice(limit: int)
    requires limit < 0
    ensures Serial(FourRuns(limit)).moved == [SpendIn(1), SpendIn(3)]
  {
    hide Serial, LiveEffects;
    AfterSkip(limit);
    EffectCount(Row(limit, Skipped, "tx", 1), 3);
    LiveNext(FourRuns(limit)[..3], CycleSettled, Row(limit, Skipped, "tx", 1), [SpendIn(1)]);
    assert FourRuns(limit) == FourRuns(limit)[..3] + [Ran(JobWith(LIVE), 7)];
    assert [SpendIn(1)] + [SpendIn(3)] == [SpendIn(1), SpendIn(3)];
  }

  // Exactly the limits that keep the promises.

  /** In every interleaving of processes whose limits are at least m, no wallet is paid twice for a cycle and
      no cycle moves more than its budget: exactly when m is not negative. */
  lemma LimitsDecide(config: Config, m: int)
    requires Excludes(config)
    ensures (forall steps :: TrustedSteps(steps, m) ==> PaysOnce(Reached(config, steps).host.moved)) <==> m >= 0
    ensures (forall steps :: TrustedSteps(steps, m) ==> WithinBudgets(Reached(config, steps).host.moved)) <==> m >= 0
  {
    hide Reached, TrustedSteps, PaysOnce, WithinBudgets;
    if m >= 0 {
      forall steps | TrustedSteps(steps, m)
        ensures PaysOnce(Reached(config, steps).host.moved) && WithinBudgets(Reached(config, steps).host.moved)
      {
        GoodLimits(config, steps, m);
      }
    } else {
      FourRunsAreTrusted(m);
      var steps := EveryPastIsReached(config, FourRuns(m), m);
      PaidTwice(m);
      TwoSpends();
    }
  }

  lemma GoodLimits(config: Config, steps: seq<Step>, m: int)
    requires Excludes(config) && m >= 0 && TrustedSteps(steps, m)
    ensures PaysOnce(Reached(config, steps).host.moved) && WithinBudgets(Reached(config, steps).host.moved)
  {
    assert TrustedSteps(steps, 0);
    hide Reached, TrustedSteps, PaymentTheorems.MovedTotal;
    var moved := Reached(config, steps).host.moved;
    forall i, j | 0 <= i < j < |moved| ensures (moved[i].cycle, moved[i].wallet) != (moved[j].cycle, moved[j].wallet) {
      AtMostOncePerCycleAndWallet(config, steps, i, j);
    }
    forall i | 0 <= i < |moved| ensures PaymentTheorems.MovedTotal(moved, moved[i].cycle) <= moved[i].cycle.budget {
      CycleStaysWithinItsBudget(config, steps, i);
    }
  }

  lemma FourRunsAreTrusted(m: int)
    requires m < 0
    ensures TrustedPast(FourRuns(m), m)
  {}

  lemma TwoSpends()
    ensures var moved := [SpendIn(1), SpendIn(3)]; !PaysOnce(moved) && !WithinBudgets(moved)
  {
    var moved := [SpendIn(1), SpendIn(3)];
    assert moved[..1] == [SpendIn(1)] && [SpendIn(1)][..0] == [];
    assert PaymentTheorems.MovedTotal([SpendIn(1)], CYCLE) == PaymentTheorems.MovedTotal([], CYCLE) + 10;
    assert PaymentTheorems.MovedTotal(moved, CYCLE) == PaymentTheorems.MovedTotal([SpendIn(1)], CYCLE) + 10;
    assert moved[0].cycle == moved[1].cycle == CYCLE && moved[0].wallet == moved[1].wallet;
  }
}

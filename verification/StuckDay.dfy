/** A day that no run can complete any more (orchard_chia/economics/runner.py): two wallets, and a live run that
    dies once the first has been sent its debt. */
module StuckDay {
  import opened Ordering
  import opened Audit
  import opened Planner
  import opened Executor
  import opened Payment
  import opened PaymentSafety
  import opened PaymentTheorems
  import opened Resumption
  import opened PaymentCaps
  import OneDebt

  const TWO := [RewardRow("v", 10), RewardRow("w", 10)]
  const BOTH := CycleId(0, DAY_SECONDS, 20, Lower("asset"))
  const FIRST := Instruction("v", 10)
  const SECOND := Instruction("w", 10)

  function Settled(): Host { Host(Db(map[], map[]), map[0 := TWO], map[], []) }

  /** What the run does before it dies. */
  function Seven(): seq<Effect> {
    Persisted() + ([Store(SetCycleState(BOTH, CycleSending))] + SendFirst())
  }

  function SendFirst(): seq<Effect> {
    [Store(MarkSending(BOTH, "v")), Move(SpendOf(BOTH, FIRST, Tag(0, 100, 100))), Store(MarkSent(BOTH, "v", "tx"))]
  }

  const OWED := map["v" := 10, "w" := 10]

  lemma TwoOwed()
    ensures OwedMap(TWO) == OWED
  {
    assert TWO[..1] == [RewardRow("v", 10)] && TWO[..1][..0] == [];
    assert OwedMap(TWO[..1]) == map["v" := 10];
  }

  lemma TwoWallets()
    ensures Ascending(TextLe, OWED.Keys) == ["v", "w"]
  {
    TextOrder();
    assert TextLe("v", "w") && OWED.Keys == {"v", "w"};
    hide TextLe;
    AscendingUnique(TextLe, OWED.Keys, ["v", "w"]);
  }

  lemma TwoTotal()
    ensures TotalAllocated([Allocation("v", 10), Allocation("w", 10)]) == 20
  {
    var allocs := [Allocation("v", 10), Allocation("w", 10)];
    assert allocs[..1] == [Allocation("v", 10)] && allocs[..1][..0] == [];
    assert TotalAllocated(allocs[..1]) == 10;
  }

  lemma TwoDebts()
    ensures AllocationsOf(TWO) == [Allocation("v", 10), Allocation("w", 10)]
    ensures CycleFor(SITE, 0, TWO) == BOTH
  {
    TwoOwed();
    TwoWallets();
    TwoTotal();
    hide OwedMap, Ascending, TotalAllocated;
    assert AllocationList(OWED, ["v", "w"]) == [Allocation("v", 10), Allocation("w", 10)];
  }

  lemma OneInstructionMore(init: seq<Allocation>, a: Allocation, limits: Limits)
    requires Payable(a, limits)
    ensures InstructionsOf(init + [a], limits)
            == InstructionsOf(init, limits) + [Instruction(a.wallet, Capping(a, limits))]
  {
    hide Payable, Capping;
    assert (init + [a])[..|init|] == init;
  }

  lemma TwoInstructions(limits: Limits)
    requires limits.maxPerWallet == 100 && limits.minPayout == 1
    ensures var ins := InstructionsOf([Allocation("v", 10), Allocation("w", 10)], limits);
            ins == [FIRST, SECOND] && Planner.Total(ins) == 20
  {
    var a, b := Allocation("v", 10), Allocation("w", 10);
    assert InstructionsOf([], limits) == [] && Planner.Total([]) == 0;
    hide InstructionsOf, Planner.Total;
    OneInstructionMore([], a, limits);
    OneInstructionMore([a], b, limits);
    assert [] + [a] == [a] && [a] + [b] == [a, b];
    TotalSnoc([], FIRST);
    TotalSnoc([FIRST], SECOND);
    assert [] + [FIRST] == [FIRST] && [FIRST] + [SECOND] == [FIRST, SECOND];
  }

  lemma TwoPlan()
    ensures var p := DayPlan(SITE, Settled(), LIVE, 0);
            p.cycle == BOTH && p.instructions == [FIRST, SECOND] && p.blocked == [] && !p.dryRun
  {
    TwoDebts();
    TwoInstructions(LimitsFor(LIVE));
    assert !InFlight(Settled().db);
    hide OwedMap, CycleFor, AllocationsOf, TotalSent, InFlight, InstructionsOf, Planner.Total, DroppedOf;
    UnblockedPlan(Settled().db, BOTH, [Allocation("v", 10), Allocation("w", 10)], LimitsFor(LIVE), None, false);
  }

  lemma {:induction false} SendAllGoesOn(h: Host, c: CycleId, todo: seq<Instruction>, tag: Tag, answers: nat -> Answer,
                                         max: nat, done: Progress)
    ensures done.effects <= SendAll(h, c, todo, tag, answers, max, done).effects
    decreases |todo|
  {
    hide SendOne, ApplyAll, Note;
    if todo != [] && !done.report.halted {
      var one := SendOne(h.db, c, todo[0], tag, answers, done.calls, max);
      SendAllGoesOn(ApplyAll(h, one.effects), c, todo[1..], tag, answers, max,
                    Progress(done.effects + one.effects, one.calls, Note(done.report, todo[0], one.outcome)));
    }
  }

  lemma FirstIsSent(db: Db)
    requires !AlreadyPaid(db, BOTH, "v")
    ensures SendOne(db, BOTH, FIRST, Tag(0, 100, 100), OneDebt.Willing, 0, 3) == Tries(SendFirst(), 1, Done("tx"))
  {
    var tag := Tag(0, 100, 100);
    assert OneDebt.Willing(0) == Accepted("tx");
    TryUnfold(BOTH, FIRST, tag, OneDebt.Willing, 0, 3);
    assert Attempt(BOTH, FIRST, tag, OneDebt.Willing(0))
        == [Store(MarkSending(BOTH, "v")), Move(SpendOf(BOTH, FIRST, tag))];
    hide TryToSend, Attempt;
  }

  lemma ExecuteBegins(h: Host, p: Plan)
    requires p.cycle == BOTH && p.instructions == [FIRST, SECOND] && p.blocked == [] && !p.dryRun
    requires !AlreadyPaid(h.db, BOTH, "v")
    ensures [Store(SetCycleState(BOTH, CycleSending))] + SendFirst()
            <= ExecuteTrace(h, p, Tag(0, 100, 100), OneDebt.Willing, 0, 3).effects
  {
    var tag, start := Tag(0, 100, 100), Store(SetCycleState(BOTH, CycleSending));
    var h1 := Apply(h, start);
    assert !AlreadyPaid(h1.db, BOTH, "v");
    FirstIsSent(h1.db);
    hide SendOne, Apply, ApplyAll, SendFirst;
    var done := Progress([start], 0, EMPTY_REPORT);
    var next := Progress([start] + SendFirst(), 1, Note(EMPTY_REPORT, FIRST, Done("tx")));
    var h2 := ApplyAll(h1, SendFirst());
    assert [FIRST, SECOND][1..] == [SECOND];
    assert SendAll(h1, BOTH, [FIRST, SECOND], tag, OneDebt.Willing, 3, done)
        == SendAll(h2, BOTH, [SECOND], tag, OneDebt.Willing, 3, next);
    SendAllGoesOn(h2, BOTH, [SECOND], tag, OneDebt.Willing, 3, next);
  }

  // The books on the way.

  function Rows(state: RowState, attempts: nat, tx: string): map<Key, Row> {
    map[(BOTH, "v") := Row(10, state, tx, attempts), (BOTH, "w") := Row(10, Planned, "", 0)]
  }

  function With(cycle: CycleState, rows: map<Key, Row>, moved: seq<Spend>): Host {
    Host(Db(map[BOTH := cycle], rows), map[0 := TWO], map[], moved)
  }

  function Ready(): Host { With(CyclePlanned, Rows(Planned, 0, ""), []) }

  function Stopped(): Host {
    With(CycleSending, Rows(Sent, 1, "tx"), [SpendOf(BOTH, FIRST, Tag(0, 100, 100))])
  }

  function Persisted(): seq<Effect> {
    [Store(OpenCycle(BOTH)), Store(PutInstruction(BOTH, "v", 10)), Store(PutInstruction(BOTH, "w", 10))]
  }

  lemma PersistSteps()
    ensures ApplyAll(Settled(), Persisted()) == Ready()
  {
    var h1 := With(CyclePlanned, map[], []);
    var h2 := With(CyclePlanned, map[(BOTH, "v") := Row(10, Planned, "", 0)], []);
    assert Apply(Settled(), Persisted()[0]) == h1 && Apply(h1, Persisted()[1]) == h2;
    assert Apply(h2, Persisted()[2]) == Ready();
    hide Apply, With;
    OneDebt.ApplyThree(Settled(), Persisted()[0], Persisted()[1], Some(Persisted()[2]));
  }

  lemma SendSteps()
    ensures ApplyAll(Ready(), [Store(SetCycleState(BOTH, CycleSending))] + SendFirst()) == Stopped()
  {
    var start, spend := Store(SetCycleState(BOTH, CycleSending)), SpendOf(BOTH, FIRST, Tag(0, 100, 100));
    var h1 := With(CycleSending, Rows(Planned, 0, ""), []);
    var h2, h3 := With(CycleSending, Rows(Sending, 1, ""), []), With(CycleSending, Rows(Sending, 1, ""), [spend]);
    assert Apply(Ready(), start) == h1 && Apply(h1, SendFirst()[0]) == h2;
    assert [] + [spend] == [spend] && Apply(h2, SendFirst()[1]) == h3 && Apply(h3, SendFirst()[2]) == Stopped();
    hide Apply, With, Stopped, Ready;
    OneDebt.ApplyThree(h1, SendFirst()[0], SendFirst()[1], Some(SendFirst()[2]));
    ApplyOne(Ready(), start);
    ApplyAppend(Ready(), [start], SendFirst());
  }

  lemma PayBegins()
    ensures Seven() <= PayEffects(SITE, Settled(), LIVE, 0, OneDebt.Willing).effects
  {
    var p := DayPlan(SITE, Settled(), LIVE, 0);
    TwoPlan();
    hide *;
    PlanIsPersisted(p);
    PersistSteps();
    NothingSentYet();
    ExecuteBegins(Ready(), p);
    var t := ExecuteTrace(Ready(), p, Tag(0, 100, 100), OneDebt.Willing, 0, 3);
    PayGoesOn(Settled(), p, t);
    SevenIsPrefix(t.effects, PayEffects(SITE, Settled(), LIVE, 0, OneDebt.Willing).effects);
  }

  lemma SevenIsPrefix(sent: seq<Effect>, all: seq<Effect>)
    requires [Store(SetCycleState(BOTH, CycleSending))] + SendFirst() <= sent && Persisted() + sent <= all
    ensures Seven() <= all
  {
    hide SendFirst;
  }

  lemma NothingSentYet()
    ensures !AlreadyPaid(Ready().db, BOTH, "v") && TagFor(0, LIVE) == Tag(0, 100, 100) && !Refused(Settled(), 0)
    ensures 0 in Settled().days
  {
    TwoOwed();
    hide OwedMap;
    assert "v" in OwedMap(TWO);
  }

  lemma PlanIsPersisted(p: Plan)
    requires p.cycle == BOTH && p.instructions == [FIRST, SECOND]
    ensures PersistEffects(p) == Persisted()
  {}

  lemma PayGoesOn(h: Host, p: Plan, t: Progress)
    requires !Refused(h, 0) && p == DayPlan(SITE, h, LIVE, 0) && p.blocked == []
    requires t == ExecuteTrace(ApplyAll(h, PersistEffects(p)), p, TagFor(0, LIVE), OneDebt.Willing, 0, MAX_ATTEMPTS)
    ensures PersistEffects(p) + t.effects <= PayEffects(SITE, h, LIVE, 0, OneDebt.Willing).effects
  {
    hide DayPlan, PersistEffects, ExecuteTrace, ApplyAll, AllSent, TagFor, Clean, UnpaidDays;
  }

  function Crash(): seq<Event> { [SettleDay(0, TWO), PayRun(LIVE, OneDebt.Willing, 7)] }

  lemma CrashLeaves()
    ensures AllTrusted(Crash()) && History(SITE, Crash()).host == Stopped()
  {
    hide *;
    CrashIsTwoEvents();
    SettledFirst();
    HistorySnoc(SITE, [SettleDay(0, TWO)], PayRun(LIVE, OneDebt.Willing, 7));
    CrashRun();
  }

  lemma CrashIsTwoEvents()
    ensures AllTrusted(Crash()) && Crash() == [SettleDay(0, TWO)] + [PayRun(LIVE, OneDebt.Willing, 7)]
  {}

  lemma SettledFirst()
    ensures History(SITE, [SettleDay(0, TWO)]) == System(Settled(), 0)
  {
    assert [SettleDay(0, TWO)][..0] == [];
  }

  lemma CrashRun()
    ensures Next(SITE, System(Settled(), 0), PayRun(LIVE, OneDebt.Willing, 7)).host == Stopped()
  {
    hide PayEffects, ApplyAll, SendFirst, Settled, Ready, Stopped, Next;
    PayBegins();
    PersistSteps();
    SendSteps();
    var es := PayEffects(SITE, Settled(), LIVE, 0, OneDebt.Willing).effects;
    assert |Seven()| == 7 by { SevenLength(); }
    CutRun(SITE, Settled(), LIVE, 0, OneDebt.Willing, es, 7);
    assert es[..7] == Seven();
    ApplyAppend(Settled(), Persisted(), [Store(SetCycleState(BOTH, CycleSending))] + SendFirst());
  }

  lemma SevenLength()
    ensures |Seven()| == 7
  {}

  /** The first wallet reads sent, the second was never sent anything, and nothing anybody does completes the day. */
  lemma NothingCompletesTheDay()
    ensures AllTrusted(Crash()) && Begun(SITE, History(SITE, Crash()).host, 0)
    ensures !WasMoved(History(SITE, Crash()).host, (CycleOfDay(SITE, History(SITE, Crash()).host.days, 0), "w"))
    ensures forall more :: !CompletedBy(SITE, Crash(), more, 0)
  {
    CrashLeaves();
    TwoDebts();
    TwoOwed();
    var h := History(SITE, Crash()).host;
    hide History, OwedMap, CycleFor, CompletedBy;
    assert CycleOfDay(SITE, h.days, 0) == BOTH && RowSent(h, (BOTH, "v"));
    assert "w" in OwedMap(h.days[0]) && !WasMoved(h, (BOTH, "w"));
    DayCompletesIff(SITE, Crash(), 0);
  }
}

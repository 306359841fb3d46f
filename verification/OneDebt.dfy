/** One wallet, one debt of ten mojos: every step of paying it, for the histories that show where the
    promises of the payers end (orchard_chia/allocation/executor.py, orchard_chia/allocation/planner.py). */
module OneDebt {
  import opened Ordering
  import opened Audit
  import opened Planner
  import opened Executor
  import opened Payment

  const DEBT := Instruction("w", 10)
  const CYCLE := CycleId(0, DAY_SECONDS, 10, Lower("asset"))

  function Willing(n: nat): Answer { Accepted("tx") }

  function SpendIn(run: nat): Spend { SpendOf(CYCLE, DEBT, Tag(run, 100, 100)) }

  /** The cycle opened with one row, and these spends accepted. */
  function Book(days: map<int, seq<RewardRow>>, state: CycleState, row: Row, moved: seq<Spend>): Host {
    Host(Db(map[CYCLE := state], map[(CYCLE, "w") := row]), days, map[], moved)
  }

  lemma OneInstruction(cap: int)
    ensures var ins := InstructionsOf([Allocation("w", 10)], Limits(UNLIMITED, cap, 1, 0, false));
            var amount := if 10 > cap then cap else 10;
            ins == [Instruction("w", amount)] && Planner.Total(ins) == amount
    ensures InstructionsOf([Allocation("w", 10)], Limits(100, cap, 1, 0, false))
            == InstructionsOf([Allocation("w", 10)], Limits(UNLIMITED, cap, 1, 0, false))
  {
    var allocs, amount := [Allocation("w", 10)], if 10 > cap then cap else 10;
    assert allocs[..0] == [];
    forall limits: Limits | limits.maxPerWallet == cap && limits.minPayout == 1
      ensures InstructionsOf(allocs, limits) == [Instruction("w", amount)]
    {
      assert InstructionsOf(allocs, limits) == InstructionsOf([], limits) + [Instruction("w", amount)];
    }
    assert [Instruction("w", amount)][..0] == [];
    assert Planner.Total([Instruction("w", amount)]) == Planner.Total([]) + amount;
  }

  lemma OneRow(days: map<int, seq<RewardRow>>, state: CycleState, row: Row, moved: seq<Spend>)
    ensures var db := Book(days, state, row, moved).db;
            && TotalSent(db, CYCLE) == (if row.state in {Sent, Sending} then row.amount else 0)
            && (InFlight(db) <==> row.state == Sending)
            && (AlreadyPaid(db, CYCLE, "w") <==> row.state in {Sent, Sending})
  {
    var db, k := Book(days, state, row, moved).db, (CYCLE, "w");
    assert k in db.rows && db.rows[k] == row;
    if row.state in {Sent, Sending} {
      assert SentKeys(db, CYCLE) == {k};
      SumAmountsStep(db.rows, {k}, k);
      assert {k} - {k} == {};
    } else {
      assert SentKeys(db, CYCLE) == {};
    }
  }

  /** The wallet is sent its debt, or skipped, by whether its row says sent. */
  function SendOrSkip(row: Row, run: nat): seq<Effect> {
    if row.state == Sent then [Store(MarkSkipped(CYCLE, "w"))]
    else [Store(MarkSending(CYCLE, "w")), Move(SpendIn(run)), Store(MarkSent(CYCLE, "w", "tx"))]
  }

  function LiveEffects(row: Row, run: nat): seq<Effect> {
    [Store(OpenCycle(CYCLE)), Store(PutInstruction(CYCLE, "w", 10))]
    + ([Store(SetCycleState(CYCLE, CycleSending))] + SendOrSkip(row, run) + [Store(SetCycleState(CYCLE, CycleSettled))])
  }

  function After(row: Row): Row {
    if row.state == Sent then row.(state := Skipped)
    else row.(state := Sent, txId := "tx", attempts := row.attempts + 1)
  }

  lemma SendTheDebt(run: nat)
    ensures TryToSend(CYCLE, DEBT, Tag(run, 100, 100), Willing, 0, 3)
            == Tries([Store(MarkSending(CYCLE, "w")), Move(SpendIn(run)), Store(MarkSent(CYCLE, "w", "tx"))], 1,
                     Done("tx"))
  {
    assert Willing(0) == Accepted("tx");
    assert Attempt(CYCLE, DEBT, Tag(run, 100, 100), Willing(0)) == [Store(MarkSending(CYCLE, "w")), Move(SpendIn(run))];
  }

  lemma ExecuteTheDebt(days: map<int, seq<RewardRow>>, state: CycleState, row: Row, moved: seq<Spend>, run: nat,
                       p: Plan)
    requires row.state != Sending && p.cycle == CYCLE && p.instructions == [DEBT] && p.blocked == [] && !p.dryRun
    ensures var t := ExecuteTrace(Book(days, state, row, moved), p, Tag(run, 100, 100), Willing, 0, 3);
            && t.effects == [Store(SetCycleState(CYCLE, CycleSending))] + SendOrSkip(row, run)
                            + [Store(SetCycleState(CYCLE, CycleSettled))]
            && Clean(t.report) && (t.report.skipped == [] <==> row.state != Sent)
  {
    var tag, start := Tag(run, 100, 100), Store(SetCycleState(CYCLE, CycleSending));
    var h1 := Book(days, CycleSending, row, moved);
    assert Apply(Book(days, state, row, moved), start) == h1;
    OneRow(days, CycleSending, row, moved);
    SendTheDebt(run);
    hide AlreadyPaid, TryToSend, Apply, ApplyAll;
    var one := SendOne(h1.db, CYCLE, DEBT, tag, Willing, 0, 3);
    assert one.effects == SendOrSkip(row, run);
    var done := Progress([start], 0, EMPTY_REPORT);
    var next := Progress([start] + one.effects, one.calls, Note(EMPTY_REPORT, DEBT, one.outcome));
    assert [DEBT][1..] == [];
    assert SendAll(h1, CYCLE, [DEBT], tag, Willing, 3, done)
        == SendAll(ApplyAll(h1, one.effects), CYCLE, [], tag, Willing, 3, next);
  }

  lemma ApplyThree(h: Host, a: Effect, b: Effect, c: Option<Effect>)
    ensures ApplyAll(h, [a, b]) == Apply(Apply(h, a), b)
    ensures c.Some? ==> ApplyAll(h, [a, b, c.value]) == Apply(Apply(Apply(h, a), b), c.value)
  {
    hide Apply;
    assert [a, b] == [a] + [b];
    ApplyAppend(h, [a], [b]);
    ApplyOne(h, a);
    ApplyOne(Apply(h, a), b);
    if c.Some? {
      assert [a, b, c.value] == [a, b] + [c.value];
      ApplyAppend(h, [a, b], [c.value]);
      ApplyOne(Apply(Apply(h, a), b), c.value);
    }
  }

  lemma PersistTheDebt(days: map<int, seq<RewardRow>>, state: CycleState, row: Row, moved: seq<Spend>, amount: int)
    ensures var es := [Store(OpenCycle(CYCLE)), Store(PutInstruction(CYCLE, "w", amount))];
            ApplyAll(Book(days, state, row, moved), es) == Book(days, CyclePlanned, row, moved)
  {
    var open, put := Store(OpenCycle(CYCLE)), Store(PutInstruction(CYCLE, "w", amount));
    assert Apply(Book(days, state, row, moved), open) == Book(days, CyclePlanned, row, moved);
    assert Apply(Book(days, CyclePlanned, row, moved), put) == Book(days, CyclePlanned, row, moved);
    hide Apply;
    ApplyThree(Book(days, state, row, moved), open, put, None);
  }

  lemma LiveSteps(days: map<int, seq<RewardRow>>, state: CycleState, row: Row, moved: seq<Spend>, run: nat)
    requires row.state != Sending
    ensures ApplyAll(Book(days, state, row, moved), LiveEffects(row, run))
            == Book(days, CycleSettled, After(row), if row.state == Sent then moved else moved + [SpendIn(run)])
  {
    var sending, settled := Store(SetCycleState(CYCLE, CycleSending)), Store(SetCycleState(CYCLE, CycleSettled));
    var persist := [Store(OpenCycle(CYCLE)), Store(PutInstruction(CYCLE, "w", 10))];
    var h1, h2 := Book(days, CyclePlanned, row, moved), Book(days, CycleSending, row, moved);
    var more := if row.state == Sent then moved else moved + [SpendIn(run)];
    var h3 := Book(days, CycleSending, After(row), more);
    PersistTheDebt(days, state, row, moved, 10);
    assert Apply(h1, sending) == h2 && Apply(h3, settled) == Book(days, CycleSettled, After(row), more);
    ApplyOutcome(days, row, moved, run);
    hide Apply, SendOrSkip;
    ApplyOne(h1, sending);
    ApplyOne(h3, settled);
    ApplyAppend(h1, [sending], SendOrSkip(row, run));
    ApplyAppend(h1, [sending] + SendOrSkip(row, run), [settled]);
    ApplyAppend(Book(days, state, row, moved), persist, [sending] + SendOrSkip(row, run) + [settled]);
  }

  lemma ApplyOutcome(days: map<int, seq<RewardRow>>, row: Row, moved: seq<Spend>, run: nat)
    requires row.state != Sending
    ensures ApplyAll(Book(days, CycleSending, row, moved), SendOrSkip(row, run))
            == Book(days, CycleSending, After(row), if row.state == Sent then moved else moved + [SpendIn(run)])
  {
    var h := Book(days, CycleSending, row, moved);
    if row.state == Sent {
      ApplyOne(h, Store(MarkSkipped(CYCLE, "w")));
    } else {
      var a, b, c := Store(MarkSending(CYCLE, "w")), Move(SpendIn(run)), Store(MarkSent(CYCLE, "w", "tx"));
      var sending := row.(state := Sending, attempts := row.attempts + 1);
      assert Apply(h, a) == Book(days, CycleSending, sending, moved);
      assert Apply(Book(days, CycleSending, sending, moved), b)
          == Book(days, CycleSending, sending, moved + [SpendIn(run)]);
      assert Apply(Book(days, CycleSending, sending, moved + [SpendIn(run)]), c)
          == Book(days, CycleSending, After(row), moved + [SpendIn(run)]);
      hide Apply;
      ApplyThree(h, a, b, Some(c));
    }
  }

  lemma PersistOne(p: Plan, amount: int)
    requires p.cycle == CYCLE && p.instructions == [Instruction("w", amount)]
    ensures PersistEffects(p) == [Store(OpenCycle(CYCLE)), Store(PutInstruction(CYCLE, "w", amount))]
  {
    assert Puts(CYCLE, p.instructions) == [Store(PutInstruction(CYCLE, "w", amount))];
  }

  lemma EffectCount(row: Row, run: nat)
    ensures |LiveEffects(row, run)| == if row.state == Sent then 5 else 7
  {}
}

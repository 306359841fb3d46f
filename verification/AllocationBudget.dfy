/** What a cycle's runs can move in all: no more than its budget, and no more than the per-cycle cap
    (orchard_chia/allocation/planner.py, orchard_chia/allocation/service.py). */
module AllocationBudget {
  import opened Audit
  import opened Planner
  import opened Executor
  import opened Payment
  import opened AllocationRuns
  import PlanDetails
  import Engine = Allocation
  import PaymentHistory
  import PaymentTheorems
  import Sums

  /** The money a list of effects moves. */
  function Spending(es: seq<Effect>): int
    decreases |es|
  {
    if es == [] then 0 else (if es[0].Move? then es[0].spend.amount else 0) + Spending(es[1..])
  }

  /** Every spend among the effects is for this cycle, under this run's cap, of a positive amount. */
  ghost predicate Ours(es: seq<Effect>, c: CycleId, tag: Tag) {
    forall i :: 0 <= i < |es| && es[i].Move? ==>
      es[i].spend.cycle == c && es[i].spend.capCycle == tag.capCycle && es[i].spend.amount > 0
  }

  ghost predicate NoMoves(es: seq<Effect>) {
    forall i :: 0 <= i < |es| ==> !es[i].Move?
  }

  lemma {:induction false} SpendingAppend(a: seq<Effect>, b: seq<Effect>)
    ensures Spending(a + b) == Spending(a) + Spending(b)
    decreases |a|
  {
    if a == [] {
      assert a + b == b;
    } else {
      assert (a + b)[0] == a[0] && (a + b)[1..] == a[1..] + b;
      SpendingAppend(a[1..], b);
    }
  }

  lemma {:induction false} SpendingPositive(es: seq<Effect>, c: CycleId, tag: Tag)
    requires Ours(es, c, tag)
    ensures Spending(es) >= 0 && (NoMoves(es) ==> Spending(es) == 0)
    decreases |es|
  {
    if es != [] { SpendingPositive(es[1..], c, tag); }
  }

  /** A run cut short has moved no more than the whole run would. */
  lemma PrefixSpendsLess(es: seq<Effect>, n: nat, c: CycleId, tag: Tag)
    requires Ours(es, c, tag) && n <= |es|
    ensures Ours(es[..n], c, tag) && Spending(es[..n]) <= Spending(es)
  {
    SpendingAppend(es[..n], es[n..]);
    assert es[..n] + es[n..] == es;
    SpendingPositive(es[n..], c, tag);
  }

  // What one run can move.

  lemma {:induction false} TrySpends(c: CycleId, ins: Instruction, tag: Tag, answers: nat -> Answer, k: nat, left: nat)
    requires PaymentHistory.TrustedAnswers(answers) && ins.amount > 0
    ensures var es := TryToSend(c, ins, tag, answers, k, left).effects;
            Ours(es, c, tag) && Spending(es) <= ins.amount
    decreases left
  {
    if left > 0 {
      var es := Attempt(c, ins, tag, answers(k));
      var mark := Store(MarkSending(c, ins.wallet));
      assert es == [mark] + if Moves(answers(k)) then [Move(SpendOf(c, ins, tag))] else [];
      SpendingAppend([mark], if Moves(answers(k)) then [Move(SpendOf(c, ins, tag))] else []);
      match answers(k)
      case Accepted(tx) => SpendingAppend(es, [Store(MarkSent(c, ins.wallet, tx))]);
      case NoTxId(_) =>
      case Fault(m) =>
        assert !m;
        var rest := TryToSend(c, ins, tag, answers, k + 1, left - 1);
        TrySpends(c, ins, tag, answers, k + 1, left - 1);
        SpendingAppend(es, rest.effects);
    }
  }

  lemma OneSpends(db: Db, c: CycleId, ins: Instruction, tag: Tag, answers: nat -> Answer, k: nat, max: nat)
    requires PaymentHistory.TrustedAnswers(answers) && ins.amount > 0
    ensures var es := SendOne(db, c, ins, tag, answers, k, max).effects;
            Ours(es, c, tag) && Spending(es) <= ins.amount
  {
    hide TryToSend;
    TrySpends(c, ins, tag, answers, k, max);
    var t := TryToSend(c, ins, tag, answers, k, max);
    if !AlreadyPaid(db, c, ins.wallet) && t.outcome.GaveUp? {
      SpendingAppend(t.effects, [Store(MarkFailed(c, ins.wallet))]);
    }
  }

  lemma {:induction false} TotalFromTheFront(ins: seq<Instruction>)
    requires ins != []
    ensures Planner.Total(ins) == ins[0].amount + Planner.Total(ins[1..])
  {
    var n := |ins| - 1;
    if n > 0 {
      TotalFromTheFront(ins[..n]);
      assert ins[1..][..n - 1] == ins[..n][1..];
    }
  }

  lemma {:induction false} TotalPositive(ins: seq<Instruction>)
    requires forall i :: 0 <= i < |ins| ==> ins[i].amount > 0
    ensures Planner.Total(ins) >= 0
  {
    if ins != [] { TotalPositive(ins[..|ins| - 1]); }
  }

  lemma {:induction false} AllSpends(h: Host, c: CycleId, todo: seq<Instruction>, tag: Tag, answers: nat -> Answer,
                                     max: nat, done: Progress) returns (more: seq<Effect>)
    requires PaymentHistory.TrustedAnswers(answers) && forall i :: 0 <= i < |todo| ==> todo[i].amount > 0
    ensures SendAll(h, c, todo, tag, answers, max, done).effects == done.effects + more
    ensures Ours(more, c, tag) && Spending(more) <= Planner.Total(todo)
    decreases |todo|
  {
    hide SendOne, ApplyAll, Planner.Total;
    more := [];
    assert done.effects + [] == done.effects;
    TotalPositive(todo);
    if todo != [] && !done.report.halted {
      hide Spending;
      var one := SendOne(h.db, c, todo[0], tag, answers, done.calls, max);
      OneSpends(h.db, c, todo[0], tag, answers, done.calls, max);
      var next := Progress(done.effects + one.effects, one.calls, Note(done.report, todo[0], one.outcome));
      var rest := AllSpends(ApplyAll(h, one.effects), c, todo[1..], tag, answers, max, next);
      SpendingAppend(one.effects, rest);
      TotalFromTheFront(todo);
      more := one.effects + rest;
      assert (done.effects + one.effects) + rest == done.effects + more;
    }
  }

  /** A plan that may not run moves nothing; one that may moves at most its total. */
  lemma ExecuteSpends(h: Host, p: Plan, tag: Tag, answers: nat -> Answer)
    requires PaymentHistory.TrustedAnswers(answers)
    requires forall i :: 0 <= i < |p.instructions| ==> p.instructions[i].amount > 0
    ensures var es := ExecuteTrace(h, p, tag, answers, 0, MAX_ATTEMPTS).effects;
            && Ours(es, p.cycle, tag)
            && (if p.blocked == [] && !p.dryRun then Spending(es) <= Planner.Total(p.instructions) else NoMoves(es))
  {
    if p.blocked == [] && !p.dryRun {
      var start := Store(SetCycleState(p.cycle, CycleSending));
      var done := Progress([start], 0, EMPTY_REPORT);
      var more := AllSpends(Apply(h, start), p.cycle, p.instructions, tag, answers, MAX_ATTEMPTS, done);
      var sent := SendAll(Apply(h, start), p.cycle, p.instructions, tag, answers, MAX_ATTEMPTS, done);
      var final := Store(SetCycleState(p.cycle, if sent.report.halted then CycleHalted else CycleSettled));
      hide SendAll, Apply, Planner.Total;
      SpendingAppend([start], more);
      SpendingAppend([start] + more, [final]);
    }
  }

  lemma PersistMovesNothing(p: Plan)
    ensures NoMoves(PersistEffects(p))
  {}

  /** Effects that move nothing, followed by effects of ours. */
  lemma QuietThenOurs(a: seq<Effect>, b: seq<Effect>, c: CycleId, tag: Tag)
    requires NoMoves(a) && Ours(b, c, tag)
    ensures Ours(a + b, c, tag) && Spending(a + b) == Spending(b) && (NoMoves(b) ==> NoMoves(a + b))
  {
    SpendingPositive(a, c, tag);
    SpendingAppend(a, b);
  }

  lemma RunSpends(h: Host, job: Job, run: nat)
    requires Trusted(job)
    ensures var es, p := CycleEffects(h, job, run), PlanFor(h, job);
            && Ours(es, CycleOf(job), TagOf(job, run))
            && (NoMoves(es) ||
                (SettingsOk(job.settings) && p.blocked == [] && Spending(es) <= Planner.Total(p.instructions)))
  {
    hide ExecuteTrace, PersistEffects, Planner.Total, BlocksOf, InstructionsOf, DroppedOf, Spending, ApplyAll, AllocsOf;
    if SettingsOk(job.settings) {
      hide NoMoves, Ours, SettingsOk;
      EngineListsWalletsOnce(job);
      InstructionsAreGood(AllocsOf(job), LimitsOf(job));
      var p, tag := PlanFor(h, job), TagOf(job, run);
      var persist := PersistEffects(p);
      var sent := ExecuteTrace(ApplyAll(h, persist), p, tag, job.answers, 0, MAX_ATTEMPTS).effects;
      PersistMovesNothing(p);
      ExecuteSpends(ApplyAll(h, persist), p, tag, job.answers);
      QuietThenOurs(persist, sent, CycleOf(job), tag);
    }
  }

  // A plan for a cycle is never above its budget.

  lemma {:induction false} DroppedIsNotNegative(allocs: seq<Allocation>, limits: Limits)
    requires forall i :: 0 <= i < |allocs| ==> allocs[i].amount >= 0
    ensures TotalDropped(DroppedOf(allocs, limits)) >= 0
  {
    if allocs != [] {
      var init, a := allocs[..|allocs| - 1], allocs[|allocs| - 1];
      DroppedIsNotNegative(init, limits);
      var ds := DroppedOf(init, limits);
      assert ds + [] == ds;
      DroppedSnoc(ds, Dropped(a.wallet, a.amount, ZeroAllocation));
      DroppedSnoc(ds, Dropped(a.wallet, a.amount, BelowDust));
      DroppedSnoc(ds, Dropped(a.wallet, a.amount - limits.maxPerWallet, Capped));
    }
  }

  lemma {:induction false} SameTotal(allocs: seq<Allocation>, amounts: seq<int>)
    requires |allocs| == |amounts| && forall i :: 0 <= i < |allocs| ==> allocs[i].amount == amounts[i]
    ensures TotalAllocated(allocs) == Sums.Total(amounts)
  {
    if allocs != [] { SameTotal(allocs[..|allocs| - 1], amounts[..|amounts| - 1]); }
  }

  /** The engine never hands out more than the budget, and nothing negative. */
  lemma EngineStaysWithinBudget(job: Job)
    requires job.settings.budget >= 0
    ensures TotalAllocated(AllocsOf(job)) <= job.settings.budget
    ensures forall i :: 0 <= i < |AllocsOf(job)| ==> AllocsOf(job)[i].amount >= 0
  {
    var records, budget := job.records, job.settings.budget;
    var r := Engine.Outcome(records, budget);
    Engine.AllOrNothing(records, budget);
    hide Engine.Outcome, Engine.SomeUptime;
    SameTotal(AllocsOf(job), Engine.Amounts(r.allocations));
    forall i | 0 <= i < |AllocsOf(job)| ensures AllocsOf(job)[i].amount >= 0 {
      if Engine.SomeUptime(records) { Engine.QuotaRuleHolds(records, budget, i); }
    }
  }

  lemma PlanStaysWithinBudget(job: Job, limits: Limits)
    requires job.settings.budget >= 0
    ensures Planner.Total(InstructionsOf(AllocsOf(job), limits)) <= job.settings.budget
  {
    hide AllocsOf, InstructionsOf, DroppedOf, TotalDropped, TotalAllocated, Planner.Total;
    EngineStaysWithinBudget(job);
    NothingIsLost(AllocsOf(job), limits);
    DroppedIsNotNegative(AllocsOf(job), limits);
  }

  /** A run that is not refused has room in its cycle's limit for its whole budget, so the limit never stands in its
      way; without a limit only a budget past the largest number the limits know can. */
  lemma CycleLimitNeverBlocks(h: Host, job: Job)
    requires SettingsOk(job.settings) && (job.settings.maxPerCycle == 0 ==> job.settings.budget <= UNLIMITED)
    ensures OverCycleCap !in PlanFor(h, job).blocked
  {
    PlanStaysWithinBudget(job, LimitsOf(job));
    PlanDetails.BlocksDescribe(h.db, CycleOf(job), AllocsOf(job), LimitsOf(job), job.balance, job.settings.dry,
                               OverCycleCap);
    hide PlanOf, AllocsOf, CycleOf, Planner.Total, InstructionsOf;
  }

  /** A run does nothing at all exactly when its settings are refused: no token, a negative budget, a live run without
      a wallet or a limit, or a limit below the budget. */
  lemma RefusedRunsDoNothing(h: Host, job: Job, run: nat)
    ensures var s := job.settings;
            CycleEffects(h, job, run) == [] <==>
              || s.asset == "" || s.budget < 0
              || (!s.dry && (s.wallet.None? || s.maxPerCycle <= 0 || s.maxPerWallet <= 0))
              || (s.maxPerCycle != 0 && s.maxPerCycle < s.budget)
  {
    hide PlanFor, ExecuteTrace, ApplyAll;
  }

  // What the wallet has accepted afterwards.

  /** The wallet's list only grows, by spends of the cycle under the run's cap. */
  /** What a run's own settings hold its plan to: a wallet gets its allocation when that is something and at least the
      payout asked for, cut to the wallet's limit where there is one; and nothing stands against the plan only if the
      planner is not paused, the cycle's limit covers it where there is one, and the balance covers it with one fee for
      every wallet. */
  lemma RunPlansByItsSettings(h: Host, job: Job, ins: Instruction)
    ensures var s, p := job.settings, PlanFor(h, job);
            && (ins in p.instructions <==>
                  exists a :: a in AllocsOf(job) && ins.wallet == a.wallet && a.amount > 0 && a.amount >= s.minPayout
                              && ins.amount == if Beyond(a.amount, s.maxPerWallet) then OrUnlimited(s.maxPerWallet)
                                               else a.amount)
            && (p.blocked == [] ==>
                  && !job.paused && !Beyond(Total(p.instructions), s.maxPerCycle)
                  && (job.balance.Some? ==> Total(p.instructions) + s.fee * |p.instructions| <= job.balance.value))
            && p.dryRun == s.dry
  {
    PlanDetails.InstructionsDescribe(AllocsOf(job), LimitsOf(job), ins);
    UnblockedPlan(h.db, CycleOf(job), AllocsOf(job), LimitsOf(job), job.balance, job.settings.dry);
    hide AllocsOf, CycleOf, Total, InstructionsOf, DroppedOf, BlocksOf;
  }

  /** More than the limit, which is no limit in practice when it is 0. */
  predicate Beyond(amount: int, limit: int) { amount > if limit == 0 then 0x4000_0000_0000_0000 else limit }

  lemma {:induction false} MovedGrows(h: Host, es: seq<Effect>, c: CycleId, tag: Tag)
    requires Ours(es, c, tag)
    ensures var m, m' := h.moved, ApplyAll(h, es).moved;
            && |m| <= |m'| && m'[..|m|] == m
            && (NoMoves(es) ==> m' == m)
            && (forall i :: |m| <= i < |m'| ==> m'[i].cycle == c && m'[i].capCycle == tag.capCycle)
    decreases |es|
  {
    hide Write1;
    if es != [] {
      var h1 := Apply(h, es[0]);
      assert h1.moved[..|h.moved|] == h.moved;
      MovedGrows(h1, es[1..], c, tag);
      assert ApplyAll(h, es).moved[..|h.moved|] == ApplyAll(h1, es[1..]).moved[..|h1.moved|][..|h.moved|];
    }
  }

  lemma OneMovesTotal(h: Host, e: Effect, d: CycleId)
    ensures PaymentTheorems.MovedTotal(Apply(h, e).moved, d) == PaymentTheorems.MovedTotal(h.moved, d)
              + if e.Move? && e.spend.cycle == d then e.spend.amount else 0
  {
    hide Write1;
    if e.Move? { assert (h.moved + [e.spend])[..|h.moved|] == h.moved; }
  }

  lemma {:induction false} MovedTotals(h: Host, es: seq<Effect>, c: CycleId, tag: Tag, d: CycleId)
    requires Ours(es, c, tag)
    ensures PaymentTheorems.MovedTotal(ApplyAll(h, es).moved, d)
            == PaymentTheorems.MovedTotal(h.moved, d) + if d == c then Spending(es) else 0
    decreases |es|
  {
    hide Apply, PaymentTheorems.MovedTotal;
    if es != [] {
      OneMovesTotal(h, es[0], d);
      MovedTotals(Apply(h, es[0]), es[1..], c, tag, d);
    }
  }

  lemma {:induction false} NothingOfCycle(moved: seq<Spend>, c: CycleId)
    requires forall i :: 0 <= i < |moved| ==> moved[i].cycle != c
    ensures PaymentTheorems.MovedTotal(moved, c) == 0
  {
    if moved != [] { NothingOfCycle(moved[..|moved| - 1], c); }
  }

  /** No cycle has moved more than its budget, or than the per-cycle cap of any run that moved some of it. */
  ghost predicate WithinCaps(moved: seq<Spend>) {
    forall i :: 0 <= i < |moved| ==>
      && PaymentTheorems.MovedTotal(moved, moved[i].cycle) <= moved[i].capCycle
      && PaymentTheorems.MovedTotal(moved, moved[i].cycle) <= moved[i].cycle.budget
  }

  /** A run that moves anything finds nothing of its cycle moved, and has room for all it may move. */
  lemma RoomForRun(h: Host, job: Job, run: nat)
    requires AllocationRuns.Safe(h) && Trusted(job)
    ensures var es, c := CycleEffects(h, job, run), CycleOf(job);
            && Ours(es, c, TagOf(job, run))
            && (NoMoves(es) ||
                (Spending(es) <= TagOf(job, run).capCycle && Spending(es) <= c.budget
                 && PaymentTheorems.MovedTotal(h.moved, c) == 0
                 && forall i :: 0 <= i < |h.moved| ==> h.moved[i].cycle != c))
  {
    hide CycleEffects, NoMoves, Ours, Spending, Planner.Total, TotalSent, InFlight;
    hide AllocationRuns.Safe, Trusted, AllocsOf;
    RunSpends(h, job, run);
    UnblockedPlan(h.db, CycleOf(job), AllocsOf(job), LimitsOf(job), job.balance, job.settings.dry);
    if PlanFor(h, job).blocked == [] {
      NothingSentNothingMoved(h, CycleOf(job));
      NothingOfCycle(h.moved, CycleOf(job));
    }
    if job.settings.budget >= 0 { PlanStaysWithinBudget(job, LimitsOf(job)); }
  }

  lemma RunStaysWithinCaps(h: Host, job: Job, run: nat, stop: nat)
    requires AllocationRuns.Safe(h) && WithinCaps(h.moved) && Trusted(job)
    ensures WithinCaps(ApplyAll(h, Cut(CycleEffects(h, job, run), stop)).moved)
  {
    hide AllocationRuns.Safe, Trusted, CycleEffects, ApplyAll, Spending, WithinCaps, Ours, TagOf;
    hide PaymentTheorems.MovedTotal;
    var all, tag := CycleEffects(h, job, run), TagOf(job, run);
    RoomForRun(h, job, run);
    var n := if stop <= |all| then stop else |all|;
    assert Cut(all, stop) == all[..n];
    PrefixSpendsLess(all, n, CycleOf(job), tag);
    MovedGrows(h, all[..n], CycleOf(job), tag);
    forall d { MovedTotals(h, all[..n], CycleOf(job), tag, d); }
    CapsKept(h.moved, ApplyAll(h, all[..n]).moved, CycleOf(job), tag.capCycle, Spending(all[..n]));
  }

  lemma CapsKept(m: seq<Spend>, m': seq<Spend>, c: CycleId, cap: int, spent: int)
    requires WithinCaps(m) && |m| <= |m'| && m'[..|m|] == m
    requires forall i :: |m| <= i < |m'| ==> m'[i].cycle == c && m'[i].capCycle == cap
    requires forall d :: PaymentTheorems.MovedTotal(m', d)
                         == PaymentTheorems.MovedTotal(m, d) + if d == c then spent else 0
    requires m' == m || (spent <= cap && spent <= c.budget && PaymentTheorems.MovedTotal(m, c) == 0)
    requires m' == m || forall i :: 0 <= i < |m| ==> m[i].cycle != c
    ensures WithinCaps(m')
  {
    hide PaymentTheorems.MovedTotal;
    forall i | 0 <= i < |m'|
      ensures PaymentTheorems.MovedTotal(m', m'[i].cycle) <= m'[i].capCycle
      ensures PaymentTheorems.MovedTotal(m', m'[i].cycle) <= m'[i].cycle.budget
    {
      if i < |m| { assert m'[i] == m[i]; }
    }
  }

  lemma {:induction false} SerialStaysWithinCaps(past: seq<Past>)
    requires TrustedPast(past, 0)
    ensures WithinCaps(Serial(past).moved)
  {
    if past != [] {
      var before, last := past[..|past| - 1], past[|past| - 1];
      assert last in past;
      SerialStaysWithinCaps(before);
      SerialIsSafe(before);
      hide AllocationRuns.Safe, WithinCaps, CycleEffects, AllocationRuns.TrustedFrom;
      match last
      case Ran(job, stop) => RunStaysWithinCaps(Serial(before), job, |before|, stop);
      case Resolved(c, w, txId) => ResolutionMovesNothing(Serial(before), c, w, txId);
    }
  }

  lemma ResolutionMovesNothing(h: Host, c: CycleId, w: Wallet, txId: string)
    ensures ApplyAll(h, Resolution(h, c, w, txId)).moved == h.moved
  {
    var es := Resolution(h, c, w, txId);
    if es != [] { ApplyOne(h, es[0]); }
  }
}

/** Which day `pay` pays, what its exit codes say, and when it succeeds (orchard_chia/economics/payment.py,
    orchard_chia/economics/runner.py, orchard_chia/allocation/executor.py). */
module PayOutcome {
  import opened Ordering
  import opened Audit
  import opened Planner
  import opened Executor
  import opened Payment

  // Which day.

  /** Settled, not paid, and with something to pay. */
  ghost predicate Candidate(h: Host, day: int) {
    day in h.days && day !in h.paid && exists r :: r in h.days[day] && r.mojos > 0
  }

  lemma {:induction false} SomethingToPay(rows: seq<RewardRow>)
    ensures Distributed(rows) > 0 <==> exists r :: r in rows && r.mojos > 0
    ensures OwedMap(rows) != map[] <==> exists r :: r in rows && r.mojos > 0
  {
    if rows != [] {
      var front, last := rows[..|rows| - 1], rows[|rows| - 1];
      SomethingToPay(front);
      assert rows == front + [last];
      if last.mojos > 0 { assert last.wallet in OwedMap(rows); }
    }
  }

  lemma UnpaidAreCandidates(h: Host)
    ensures forall d :: d in UnpaidDays(h) <==> Candidate(h, d)
    ensures forall d :: Refused(h, d) <==> !Candidate(h, d)
  {
    hide Distributed, OwedMap;
    forall d | d in h.days ensures Distributed(h.days[d]) > 0 <==> OwedMap(h.days[d]) != map[] {
      SomethingToPay(h.days[d]);
    }
    forall d | d in h.days
      ensures OwedMap(h.days[d]) != map[] <==> exists r :: r in h.days[d] && r.mojos > 0
    {
      SomethingToPay(h.days[d]);
    }
  }

  /** What the program insists on before it looks at the ledger. */
  predicate Allowed(site: Site, args: Args) {
    site.asset != "" && (args.dry || (args.ack && args.maxCycle > 0 && args.maxWallet > 0))
  }

  ghost predicate Oldest(h: Host, day: int) { Candidate(h, day) && forall d :: Candidate(h, d) ==> day <= d }

  lemma FirstIsOldest(h: Host)
    requires UnpaidDays(h) != {}
    ensures Ascending(IntLe, UnpaidDays(h)) != [] && Oldest(h, Ascending(IntLe, UnpaidDays(h))[0])
  {
    AscendingIsSortedListing(IntLe, UnpaidDays(h));
    UnpaidAreCandidates(h);
    hide UnpaidDays, Candidate, Ascending;
    var order := Ascending(IntLe, UnpaidDays(h));
    assert order[0] in order;
  }

  lemma OneDayIsPayDay(site: Site, h: Host, args: Args, day: int, run: nat, answers: nat -> Answer)
    requires Allowed(site, args) && Candidate(h, day)
    ensures PayEffects(site, h, args.(day := Some(day)), run, answers) == PayDay(site, h, args, day, run, answers)
    ensures PayDay(site, h, args, day, run, answers).exit != 2
  {
    UnpaidAreCandidates(h);
    hide Refused, DayPlan, PersistEffects, ExecuteTrace, UnpaidDays, Ascending, ApplyAll, Candidate, AllSent;
    SameForOneDay(site, h, args, day, run, answers);
  }

  /** Told no day, `pay` does exactly what it does when told the oldest day with something to pay; days of nothing are
      passed over, and it is never refused. */
  lemma DefaultDayIsOldest(site: Site, h: Host, args: Args, run: nat, answers: nat -> Answer)
    requires Allowed(site, args) && args.day.None?
    ensures var t := PayEffects(site, h, args, run, answers);
            && t.exit != 2
            && ((forall d :: !Candidate(h, d)) ==> t == PayTrace([], 0))
            && forall d :: Oldest(h, d) ==> t == PayEffects(site, h, args.(day := Some(d)), run, answers)
  {
    UnpaidAreCandidates(h);
    if UnpaidDays(h) != {} {
      FirstIsOldest(h);
      var day := Ascending(IntLe, UnpaidDays(h))[0];
      assert PayEffects(site, h, args, run, answers) == PayDay(site, h, args, day, run, answers);
      hide PayDay, PayEffects, UnpaidDays, Ascending, Candidate;
      OneDayIsPayDay(site, h, args, day, run, answers);
      forall d | Oldest(h, d) ensures d == day {}
    }
  }

  lemma SameForOneDay(site: Site, h: Host, args: Args, day: int, run: nat, answers: nat -> Answer)
    ensures PayDay(site, h, args, day, run, answers) == PayDay(site, h, args.(day := Some(day)), day, run, answers)
  {
    hide Refused, PersistEffects, ExecuteTrace, ApplyAll, AllSent, PlanOf, AllocationsOf;
  }

  // What the exit codes say.

  /** Refusals change nothing, and there are no others. */
  lemma RefusedExactlyWhen(site: Site, h: Host, args: Args, run: nat, answers: nat -> Answer)
    ensures var t := PayEffects(site, h, args, run, answers);
            && (t.exit == 2 <==> !Allowed(site, args) || (args.day.Some? && !Candidate(h, args.day.value)))
            && (t.exit == 2 ==> t.effects == []) && t.exit in {0, 2, 3}
  {
    UnpaidAreCandidates(h);
    hide Refused, DayPlan, PersistEffects, ExecuteTrace, UnpaidDays, Ascending, ApplyAll, Candidate, AllSent;
    if Allowed(site, args) && args.day.None? { DefaultDayIsOldest(site, h, args, run, answers); }
  }

  ghost predicate SendsNothing(es: seq<Effect>) { forall e :: e in es ==> !e.Move? }

  ghost predicate PaysNothing(es: seq<Effect>) { forall e :: e in es ==> !e.SetPaid? }

  /** A dry run asks the wallet nothing, neither its balance nor to send, and ends well unless it is refused. */
  lemma DryRunSendsNothing(site: Site, h: Host, args: Args, run: nat, answers: nat -> Answer, others: nat -> Answer,
                           balance: Option<int>)
    requires args.dry
    ensures var t := PayEffects(site, h, args, run, answers);
            && SendsNothing(t.effects) && t.exit != 3
            && t == PayEffects(site, h, args.(balance := balance), run, others)
  {
    hide Refused, ExecuteTrace, UnpaidDays, Ascending, ApplyAll, AllSent, PlanOf, AllocationsOf;
  }

  lemma {:induction false} TryPaysNothing(c: CycleId, ins: Instruction, tag: Tag, answers: nat -> Answer, k: nat,
                                          left: nat)
    ensures PaysNothing(TryToSend(c, ins, tag, answers, k, left).effects)
    decreases left
  {
    if left > 0 { TryPaysNothing(c, ins, tag, answers, k + 1, left - 1); }
  }

  lemma {:induction false} SendAllPaysNothing(h: Host, c: CycleId, todo: seq<Instruction>, tag: Tag,
                                              answers: nat -> Answer, max: nat, done: Progress)
    requires PaysNothing(done.effects)
    ensures PaysNothing(SendAll(h, c, todo, tag, answers, max, done).effects)
    decreases |todo|
  {
    hide AlreadyPaid, TryToSend, ApplyAll;
    if todo != [] && !done.report.halted {
      var one := SendOne(h.db, c, todo[0], tag, answers, done.calls, max);
      TryPaysNothing(c, todo[0], tag, answers, done.calls, max);
      SendAllPaysNothing(ApplyAll(h, one.effects), c, todo[1..], tag, answers, max,
                         Progress(done.effects + one.effects, one.calls, Note(done.report, todo[0], one.outcome)));
    }
  }

  lemma ExecutePaysNothing(h: Host, p: Plan, tag: Tag, answers: nat -> Answer, k: nat, max: nat)
    ensures PaysNothing(ExecuteTrace(h, p, tag, answers, k, max).effects)
  {
    hide SendAll, Apply;
    var start := Store(SetCycleState(p.cycle, CycleSending));
    SendAllPaysNothing(Apply(h, start), p.cycle, p.instructions, tag, answers, max,
                       Progress([start], k, EMPTY_REPORT));
  }

  lemma {:induction false} PaidUnchanged(h: Host, es: seq<Effect>)
    requires PaysNothing(es)
    ensures ApplyAll(h, es).paid == h.paid && ApplyAll(h, es).days == h.days
    decreases |es|
  {
    hide Write1;
    if es != [] {
      assert es[0] in es && forall e :: e in es[1..] ==> e in es;
      PaidUnchanged(Apply(h, es[0]), es[1..]);
    }
  }

  /** The plan's writes, and then what was sent, before the day is marked. */
  lemma PaidAtTheEnd(h: Host, es: seq<Effect>, day: int, c: CycleId)
    requires PaysNothing(es) && day in h.days
    ensures ApplyAll(h, es + [SetPaid(day, c)]).paid == h.paid[day := c]
  {
    PaidUnchanged(h, es);
    ApplyAppend(h, es, [SetPaid(day, c)]);
    ApplyOne(ApplyAll(h, es), SetPaid(day, c));
  }

  /** A live run of one day ends with 0 exactly when the day is marked paid afterwards; with 3 it is not, and nothing
      but that day is ever marked. */
  lemma ExitTellsPaid(site: Site, h: Host, args: Args, day: int, run: nat, answers: nat -> Answer)
    requires !args.dry && Candidate(h, day)
    ensures var t := PayDay(site, h, args, day, run, answers);
            var h' := ApplyAll(h, t.effects);
            && (t.exit == 0 <==> day in h'.paid) && (t.exit == 3 <==> h'.paid == h.paid)
            && forall d :: d != day ==> (d in h'.paid <==> d in h.paid)
  {
    UnpaidAreCandidates(h);
    var p := DayPlan(site, h, args, day);
    var planned := ApplyAll(h, PersistEffects(p));
    ExecutePaysNothing(planned, p, TagFor(run, args), answers, 0, MAX_ATTEMPTS);
    var sent := ExecuteTrace(planned, p, TagFor(run, args), answers, 0, MAX_ATTEMPTS).effects;
    hide ExecuteTrace, ApplyAll, AllSent, DayPlan, Refused, Clean;
    PaidUnchanged(h, PersistEffects(p) + sent);
    PaidAtTheEnd(h, PersistEffects(p), day, p.cycle);
    PaidAtTheEnd(h, PersistEffects(p) + sent, day, p.cycle);
  }

  // When it succeeds.

  ghost predicate AcceptsSoon(answers: nat -> Answer, n: nat, attempts: nat) {
    exists m: nat :: n <= m < n + attempts && answers(m).Accepted?
  }

  /** The wallet always says what became of a spend, and never fails as often in a row as it is asked. */
  ghost predicate Cooperative(answers: nat -> Answer, attempts: nat) {
    && (forall n: nat :: !answers(n).NoTxId?)
    && (forall n: nat :: AcceptsSoon(answers, n, attempts))
  }

  lemma {:induction false} TrySucceeds(c: CycleId, ins: Instruction, tag: Tag, answers: nat -> Answer, k: nat,
                                       left: nat, m: nat)
    requires (forall n: nat :: !answers(n).NoTxId?) && k <= m < k + left && answers(m).Accepted?
    ensures TryToSend(c, ins, tag, answers, k, left).outcome.Done?
    decreases left
  {
    if answers(k).Fault? {
      TrySucceeds(c, ins, tag, answers, k + 1, left - 1, m);
    }
  }

  lemma {:induction false} SendAllSucceeds(h: Host, c: CycleId, todo: seq<Instruction>, tag: Tag,
                                           answers: nat -> Answer, max: nat, done: Progress)
    requires Cooperative(answers, max) && Clean(done.report)
    ensures Clean(SendAll(h, c, todo, tag, answers, max, done).report)
    decreases |todo|
  {
    hide AlreadyPaid, TryToSend, ApplyAll;
    if todo != [] {
      var one := SendOne(h.db, c, todo[0], tag, answers, done.calls, max);
      assert AcceptsSoon(answers, done.calls, max);
      var m: nat :| done.calls <= m < done.calls + max && answers(m).Accepted?;
      TrySucceeds(c, todo[0], tag, answers, done.calls, max, m);
      SendAllSucceeds(ApplyAll(h, one.effects), c, todo[1..], tag, answers, max,
                      Progress(done.effects + one.effects, one.calls, Note(done.report, todo[0], one.outcome)));
    }
  }

  /** A day with something to pay, a plan nothing stands against, and a wallet that accepts one of every three tries:
      the run ends well and the day is paid. */
  lemma CooperativeWalletPays(site: Site, h: Host, args: Args, day: int, run: nat, answers: nat -> Answer)
    requires Allowed(site, args) && !args.dry && args.day == Some(day) && Candidate(h, day)
    requires DayPlan(site, h, args, day).blocked == [] && Cooperative(answers, 3)
    ensures var t := PayEffects(site, h, args, run, answers);
            t.exit == 0 && day in ApplyAll(h, t.effects).paid
  {
    ExitTellsPaid(site, h, args, day, run, answers);
    UnpaidAreCandidates(h);
    var p := DayPlan(site, h, args, day);
    var planned := ApplyAll(h, PersistEffects(p));
    ExecuteSucceeds(planned, p, TagFor(run, args), answers);
    hide ExecuteTrace, ApplyAll, AllSent, PlanOf, PersistEffects, Refused, Candidate, Cooperative;
  }

  lemma ExecuteSucceeds(h: Host, p: Plan, tag: Tag, answers: nat -> Answer)
    requires p.blocked == [] && !p.dryRun && Cooperative(answers, MAX_ATTEMPTS)
    ensures Clean(ExecuteTrace(h, p, tag, answers, 0, MAX_ATTEMPTS).report)
  {
    hide SendAll, Apply, Cooperative;
    var start := Store(SetCycleState(p.cycle, CycleSending));
    SendAllSucceeds(Apply(h, start), p.cycle, p.instructions, tag, answers, MAX_ATTEMPTS,
                    Progress([start], 0, EMPTY_REPORT));
  }
}

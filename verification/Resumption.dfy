/** What re-running a crashed payment can still do (orchard_chia/economics/payment.py,
    orchard_chia/economics/runner.py).

    A cycle with anything sent is never planned again, and healing needs every row to read sent. So from the first
    sent row on, running `pay` again sends nothing more for that day: it can only record what was sent already. */
module Resumption {
  import opened Ordering
  import opened Audit
  import opened Planner
  import opened Executor
  import opened Payment
  import opened PaymentSafety
  import opened PaymentHistory
  import opened PaymentTheorems
  import OneDebt

  // What every effect of a run is about.

  ghost predicate About(e: Effect, c: CycleId) {
    match e
    case Store(x) => x.c == c
    case Move(x) => x.cycle == c
    case SetPaid(_, _) => true
  }

  ghost predicate AllAbout(es: seq<Effect>, c: CycleId) {
    forall e :: e in es ==> About(e, c)
  }

  lemma {:induction false} TryAbout(c: CycleId, ins: Instruction, tag: Tag, answers: nat -> Answer, k: nat, left: nat)
    ensures AllAbout(TryToSend(c, ins, tag, answers, k, left).effects, c)
    decreases left
  {
    if left > 0 { TryAbout(c, ins, tag, answers, k + 1, left - 1); }
  }

  lemma {:induction false} SendAllAbout(h: Host, c: CycleId, todo: seq<Instruction>, tag: Tag, answers: nat -> Answer,
                                        max: nat, done: Progress)
    requires AllAbout(done.effects, c)
    ensures AllAbout(SendAll(h, c, todo, tag, answers, max, done).effects, c)
    decreases |todo|
  {
    hide AlreadyPaid, TryToSend, ApplyAll;
    if todo != [] && !done.report.halted {
      var one := SendOne(h.db, c, todo[0], tag, answers, done.calls, max);
      TryAbout(c, todo[0], tag, answers, done.calls, max);
      SendAllAbout(ApplyAll(h, one.effects), c, todo[1..], tag, answers, max,
                   Progress(done.effects + one.effects, one.calls, Note(done.report, todo[0], one.outcome)));
    }
  }

  lemma ExecuteAbout(h: Host, p: Plan, tag: Tag, answers: nat -> Answer, k: nat, max: nat)
    ensures AllAbout(ExecuteTrace(h, p, tag, answers, k, max).effects, p.cycle)
  {
    hide SendAll, Apply;
    var start := Store(SetCycleState(p.cycle, CycleSending));
    SendAllAbout(Apply(h, start), p.cycle, p.instructions, tag, answers, max, Progress([start], k, EMPTY_REPORT));
  }

  lemma PayDayAbout(site: Site, h: Host, args: Args, day: int, run: nat, answers: nat -> Answer)
    requires day in h.days
    ensures AllAbout(PayDay(site, h, args, day, run, answers).effects, CycleOfDay(site, h.days, day))
  {
    hide ExecuteTrace, ApplyAll, AllocationsOf, AllSent, Clean, BlocksOf;
    var p := DayPlan(site, h, args, day);
    ExecuteAbout(ApplyAll(h, PersistEffects(p)), p, TagFor(run, args), answers, 0, MAX_ATTEMPTS);
  }

  // What leaves a cycle's sent rows and accepted spends as they are.

  /** Another cycle's effect, a first look at this one's plan, or a mark in the ledger. */
  ghost predicate Quiet(e: Effect, c: CycleId) {
    match e
    case Store(x) => x.c != c || x.OpenCycle? || x.PutInstruction?
    case Move(x) => x.cycle != c
    case SetPaid(_, _) => true
  }

  ghost predicate SameSent(h: Host, h': Host, c: CycleId) {
    && h'.days == h.days
    && (forall w :: RowSent(h', (c, w)) <==> RowSent(h, (c, w)))
    && (forall w :: WasMoved(h', (c, w)) <==> WasMoved(h, (c, w)))
  }

  lemma QuietStep(h: Host, e: Effect, c: CycleId)
    requires Quiet(e, c)
    ensures SameSent(h, Apply(h, e), c)
  {
    match e
    case Store(x) =>
    case Move(x) => OtherMove(h, x, c);
    case SetPaid(day, d) =>
  }

  lemma OtherMove(h: Host, x: Spend, c: CycleId)
    requires x.cycle != c
    ensures forall w :: WasMoved(Apply(h, Move(x)), (c, w)) <==> WasMoved(h, (c, w))
  {
    var h' := Apply(h, Move(x));
    MovedKept(h, h');
    forall w | WasMoved(h', (c, w)) ensures WasMoved(h, (c, w)) {
      var i :| 0 <= i < |h'.moved| && SpendKey(h'.moved[i]) == (c, w);
      assert SpendKey(h.moved[i]) == (c, w);
    }
  }

  lemma {:induction false} QuietKeeps(h: Host, es: seq<Effect>, c: CycleId)
    requires forall e :: e in es ==> Quiet(e, c)
    ensures SameSent(h, ApplyAll(h, es), c)
    decreases |es|
  {
    hide Quiet, Apply, WasMoved, RowSent;
    if es != [] {
      QuietStep(h, es[0], c);
      QuietKeeps(Apply(h, es[0]), es[1..], c);
    }
  }

  // A day with something sent.

  /** Some wallet of the day reads sent. */
  ghost predicate Begun(site: Site, h: Host, day: int) {
    day in h.days && exists w :: RowSent(h, (CycleOfDay(site, h.days, day), w))
  }

  lemma BegunIsBlocked(site: Site, h: Host, runs: nat, args: Args, day: int)
    requires Inv(site, h, runs) && Begun(site, h, day)
    ensures DayPlan(site, h, args, day).blocked != []
  {
    hide Inv, CycleOfDay, DayPlan;
    var w :| RowSent(h, (CycleOfDay(site, h.days, day), w));
    assert AlreadyPaid(h.db, CycleOfDay(site, h.days, day), w);
    if DayPlan(site, h, args, day).blocked == [] { UnblockedIsUntouched(site, h, runs, args, day); }
  }

  lemma PayDayQuiet(site: Site, h: Host, runs: nat, args: Args, day: int, other: int, run: nat, answers: nat -> Answer)
    requires Inv(site, h, runs) && Begun(site, h, day)
    ensures forall e :: e in PayDay(site, h, args, other, run, answers).effects ==>
              Quiet(e, CycleOfDay(site, h.days, day))
  {
    assert day in h.days;
    hide Inv, Begun, CycleOfDay, ApplyAll, AllSent, OwedMap, PayDay, DayOf;
    if other == day {
      BegunIsBlocked(site, h, runs, args, day);
      BlockedDayQuiet(site, h, args, day, run, answers);
    } else if other in h.days {
      PayDayAbout(site, h, args, other, run, answers);
      DayOfCycle(site, h.days, day);
      DayOfCycle(site, h.days, other);
      OthersAreQuiet(PayDay(site, h, args, other, run, answers).effects, CycleOfDay(site, h.days, other),
                     CycleOfDay(site, h.days, day));
    } else {
      NothingForUnsettled(site, h, args, other, run, answers);
    }
  }

  lemma NothingForUnsettled(site: Site, h: Host, args: Args, day: int, run: nat, answers: nat -> Answer)
    requires day !in h.days
    ensures PayDay(site, h, args, day, run, answers).effects == []
  {}

  lemma OthersAreQuiet(es: seq<Effect>, other: CycleId, c: CycleId)
    requires AllAbout(es, other) && other != c
    ensures forall e :: e in es ==> Quiet(e, c)
  {
    forall e | e in es ensures Quiet(e, c) { assert About(e, other); }
  }

  lemma BlockedDayQuiet(site: Site, h: Host, args: Args, day: int, run: nat, answers: nat -> Answer)
    requires day in h.days && DayPlan(site, h, args, day).blocked != []
    ensures forall e :: e in PayDay(site, h, args, day, run, answers).effects ==>
              Quiet(e, CycleOfDay(site, h.days, day))
  {
    hide ApplyAll, AllSent, OwedMap, AllocationsOf, BlocksOf;
  }

  lemma PayQuiet(site: Site, h: Host, runs: nat, day: int, args: Args, run: nat, answers: nat -> Answer)
    requires Inv(site, h, runs) && Begun(site, h, day)
    ensures forall e :: e in PayEffects(site, h, args, run, answers).effects ==> Quiet(e, CycleOfDay(site, h.days, day))
  {
    hide Inv, Begun, CycleOfDay, PayDay, Ascending, Quiet;
    if args.day.Some? {
      PayDayQuiet(site, h, runs, args, day, args.day.value, run, answers);
    } else if UnpaidDays(h) != {} {
      AscendingIsSortedListing(IntLe, UnpaidDays(h));
      PayDayQuiet(site, h, runs, args, day, Ascending(IntLe, UnpaidDays(h))[0], run, answers);
    }
  }

  lemma PayRunQuiet(site: Site, s: System, day: int, args: Args, answers: nat -> Answer, stop: nat)
    requires Inv(site, s.host, s.runs) && Begun(site, s.host, day)
    ensures SameSent(s.host, Next(site, s, PayRun(args, answers, stop)).host, CycleOfDay(site, s.host.days, day))
  {
    hide *;
    BegunIsSettled(site, s.host, day);
    PayQuiet(site, s.host, s.runs, day, args, s.runs, answers);
    var es := CutEffects(site, s, args, answers, stop);
    QuietKeeps(s.host, es, CycleOfDay(site, s.host.days, day));
  }

  lemma CutEffects(site: Site, s: System, args: Args, answers: nat -> Answer, stop: nat) returns (es: seq<Effect>)
    ensures Next(site, s, PayRun(args, answers, stop)).host == ApplyAll(s.host, es)
    ensures forall e :: e in es ==> e in PayEffects(site, s.host, args, s.runs, answers).effects
  {
    hide PayEffects, ApplyAll;
    var all := PayEffects(site, s.host, args, s.runs, answers).effects;
    es := all[..if stop < |all| then stop else |all|];
  }

  lemma PayRunStands(site: Site, s: System, day: int, args: Args, answers: nat -> Answer, stop: nat)
    requires Inv(site, s.host, s.runs) && Begun(site, s.host, day)
    ensures Standing(site, s.host, Next(site, s, PayRun(args, answers, stop)).host, day, PayRun(args, answers, stop))
  {
    hide *;
    PayRunQuiet(site, s, day, args, answers, stop);
    BegunIsSettled(site, s.host, day);
    SameSentStands(site, s.host, Next(site, s, PayRun(args, answers, stop)).host, day, PayRun(args, answers, stop));
  }

  lemma SameSentStands(site: Site, h: Host, h': Host, day: int, e: Event)
    requires day in h.days && SameSent(h, h', CycleOfDay(site, h.days, day))
    ensures Standing(site, h, h', day, e)
  {
    hide CycleOfDay, WasMoved, RowSent;
  }

  /** No event changes what the wallet accepted for the day, or takes back a sent row; only the operator's look at a
      row left mid-send can make one more row read sent. */
  ghost predicate Standing(site: Site, h: Host, h': Host, day: int, e: Event)
    requires day in h.days
  {
    var c := CycleOfDay(site, h.days, day);
    && day in h'.days && h'.days[day] == h.days[day]
    && (forall w :: WasMoved(h', (c, w)) <==> WasMoved(h, (c, w)))
    && (forall w :: RowSent(h, (c, w)) ==> RowSent(h', (c, w)))
    && (!e.Resolve? ==> forall w :: RowSent(h', (c, w)) ==> RowSent(h, (c, w)))
  }

  lemma EventStands(site: Site, s: System, day: int, e: Event)
    requires Inv(site, s.host, s.runs) && Begun(site, s.host, day)
    ensures Standing(site, s.host, Next(site, s, e).host, day, e)
  {
    assert day in s.host.days;
    hide Inv, Begun, RowSent, CycleOfDay, Next, Standing;
    match e
    case PayRun(args, answers, stop) => PayRunStands(site, s, day, args, answers, stop);
    case SettleDay(d, rows) => SettlingStands(site, s, day, d, rows);
    case Resolve(d, w, txId) => ResolvingStands(site, s, day, d, w, txId);
  }

  lemma SettlingStands(site: Site, s: System, day: int, d: int, rows: seq<RewardRow>)
    requires day in s.host.days
    ensures Standing(site, s.host, Next(site, s, SettleDay(d, rows)).host, day, SettleDay(d, rows))
  {
    hide CycleOfDay;
  }

  lemma ResolvingStands(site: Site, s: System, day: int, d: CycleId, w: Wallet, txId: string)
    requires day in s.host.days
    ensures Standing(site, s.host, Next(site, s, Resolve(d, w, txId)).host, day, Resolve(d, w, txId))
  {
    hide CycleOfDay;
    var h' := Next(site, s, Resolve(d, w, txId)).host;
    assert h'.moved == s.host.moved;
  }

  /** The same over any number of events. */
  ghost predicate StandingFor(site: Site, h: Host, h': Host, day: int, more: seq<Event>)
    requires day in h.days
  {
    var c := CycleOfDay(site, h.days, day);
    && day in h'.days && h'.days[day] == h.days[day]
    && (forall w :: WasMoved(h', (c, w)) <==> WasMoved(h, (c, w)))
    && (forall w :: RowSent(h, (c, w)) ==> RowSent(h', (c, w)))
    && (NobodyLooks(more) ==> forall w :: RowSent(h', (c, w)) ==> RowSent(h, (c, w)))
  }

  ghost predicate NobodyLooks(more: seq<Event>) { forall e :: e in more ==> !e.Resolve? }

  ghost predicate AllTrusted(es: seq<Event>) { forall e :: e in es ==> Trusted(e) }

  lemma {:induction false} HistoryStands(site: Site, es: seq<Event>, day: int, more: seq<Event>)
    requires AllTrusted(es) && AllTrusted(more) && Begun(site, History(site, es).host, day)
    ensures var h, h' := History(site, es).host, History(site, es + more).host;
            StandingFor(site, h, h', day, more) && Begun(site, h', day)
  {
    hide Next, Trusted, CycleOfDay, WasMoved, RowSent;
    if more == [] {
      assert es + more == es;
    } else {
      var front, e := more[..|more| - 1], more[|more| - 1];
      HistoryStands(site, es, day, front);
      assert (es + more)[..|es + more| - 1] == es + front;
      HistoryOk(site, es + front);
      var h, s := History(site, es).host, History(site, es + front);
      EventStands(site, s, day, e);
      OneMore(site, h, s.host, Next(site, s, e).host, day, front, e);
      assert front + [e] == more;
    }
  }

  lemma OneMore(site: Site, h: Host, mid: Host, h': Host, day: int, front: seq<Event>, e: Event)
    requires Begun(site, h, day) && StandingFor(site, h, mid, day, front) && Standing(site, mid, h', day, e)
    ensures StandingFor(site, h, h', day, front + [e]) && Begun(site, h', day)
  {
    hide WasMoved, RowSent, CycleFor;
    assert CycleOfDay(site, h'.days, day) == CycleOfDay(site, mid.days, day) == CycleOfDay(site, h.days, day);
    var w :| RowSent(h, (CycleOfDay(site, h.days, day), w));
    assert RowSent(h', (CycleOfDay(site, h'.days, day), w));
    assert e in front + [e] && forall x :: x in front ==> x in front + [e];
  }

  // Completing the day.

  ghost predicate CompletedBy(site: Site, es: seq<Event>, more: seq<Event>, day: int) {
    AllTrusted(more) && day in History(site, es + more).host.paid
  }

  /** A look is enough to heal: the dry run of a day whose wallets all read sent. */
  const HEAL: Args := Args(true, false, None, 0, 0, None)

  function Look(day: int, stop: nat): Event { PayRun(HEAL.(day := Some(day)), OneDebt.Willing, stop) }

  lemma {:induction false} NoTokenNoRows(site: Site, es: seq<Event>)
    requires site.asset == ""
    ensures History(site, es).host.db.rows == map[]
  {
    if es != [] {
      NoTokenNoRows(site, es[..|es| - 1]);
      hide PayDay, Ascending;
      assert ApplyAll(History(site, es[..|es| - 1]).host, []) == History(site, es[..|es| - 1]).host;
    }
  }

  /** When every wallet of the day reads sent, persisting the plan again adds nothing, and every row reads sent. */
  lemma SentDayIsAllSent(site: Site, h: Host, runs: nat, args: Args, day: int)
    requires Inv(site, h, runs) && Begun(site, h, day) && DaySent(site, h, day) && args.maxWallet >= 0
    ensures var p := DayPlan(site, h, args, day);
            p.cycle == CycleOfDay(site, h.days, day) && AllSent(ApplyAll(h, PersistEffects(p)).db, p.cycle)
  {
    PersistOk(site, h, runs, args, day);
    var p := DayPlan(site, h, args, day);
    SafeEnd(site, h, runs, PersistEffects(p));
    var h' := ApplyAll(h, PersistEffects(p));
    hide ApplyAll, DayPlan, PersistEffects, CycleOfDay, OwedMap, SumCapped, Safe;
    AllRowsSent(site, h, h', runs, day);
  }

  lemma AllRowsSent(site: Site, h: Host, h': Host, runs: nat, day: int)
    requires Inv(site, h, runs) && Inv(site, h', runs) && Begun(site, h, day) && DaySent(site, h, day)
    requires OnlyPlanned(h, h', CycleOfDay(site, h.days, day))
    ensures AllSent(h'.db, CycleOfDay(site, h.days, day))
  {
    hide OwedMap, SumCapped, CycleFor, WasMoved;
    var c := CycleOfDay(site, h.days, day);
    DayOfCycle(site, h.days, day);
    forall k | k in h'.db.rows && k.0 == c ensures h'.db.rows[k].state == Sent && h'.db.rows[k].txId != "" {
      assert Owes(site, h'.days, k.0, k.1);
      assert RowSent(h, (c, k.1)) && k == (c, k.1);
    }
    var w :| RowSent(h, (c, w));
    assert (c, w) in h'.db.rows && (c, w).0 == c;
  }

  lemma BegunIsNotRefused(site: Site, h: Host, runs: nat, day: int)
    requires Inv(site, h, runs) && Begun(site, h, day) && day !in h.paid
    ensures !Refused(h, day)
  {
    hide OwedMap, SumCapped, CycleFor;
    DayOfCycle(site, h.days, day);
    var w :| RowSent(h, (CycleOfDay(site, h.days, day), w));
    assert Owes(site, h.days, CycleOfDay(site, h.days, day), w);
  }

  lemma HealingPays(site: Site, h: Host, args: Args, day: int, run: nat, answers: nat -> Answer)
    requires site.asset != "" && args.dry && args.day == Some(day) && !Refused(h, day)
    requires var p := DayPlan(site, h, args, day);
             p.blocked != [] && AllSent(ApplyAll(h, PersistEffects(p)).db, p.cycle)
    ensures var p := DayPlan(site, h, args, day);
            PayEffects(site, h, args, run, answers).effects == PersistEffects(p) + [SetPaid(day, p.cycle)]
  {
    hide DayPlan, PersistEffects, ApplyAll, AllSent, UnpaidDays, ExecuteTrace;
  }

  lemma PaidIsThere(h: Host, es: seq<Effect>, day: int, c: CycleId)
    requires day in ApplyAll(h, es).days
    ensures day in ApplyAll(h, es + [SetPaid(day, c)]).paid
  {
    ApplyAppend(h, es, [SetPaid(day, c)]);
    ApplyOne(ApplyAll(h, es), SetPaid(day, c));
    hide ApplyAll;
  }

  lemma SameDays(site: Site, h: Host, runs: nat, args: Args, day: int)
    requires Inv(site, h, runs) && day in h.days && args.maxWallet >= 0
    ensures day in ApplyAll(h, PersistEffects(DayPlan(site, h, args, day))).days
  {
    PersistOk(site, h, runs, args, day);
    hide Inv, DayPlan, PersistEffects, ApplyAll, OwedMap, CycleOfDay;
  }

  /** What a look at such a day does: the plan again, and the mark. */
  lemma LookEffects(site: Site, h: Host, runs: nat, day: int) returns (es: seq<Effect>)
    requires site.asset != "" && Inv(site, h, runs) && Begun(site, h, day) && DaySent(site, h, day) && day !in h.paid
    ensures PayEffects(site, h, HEAL.(day := Some(day)), runs, OneDebt.Willing).effects == es
    ensures day in ApplyAll(h, es).paid
  {
    var args := HEAL.(day := Some(day));
    assert args.dry && args.day == Some(day) && args.maxWallet == 0 && day in h.days;
    hide *;
    SentDayIsAllSent(site, h, runs, args, day);
    BegunIsBlocked(site, h, runs, args, day);
    BegunIsNotRefused(site, h, runs, day);
    SameDays(site, h, runs, args, day);
    var p := DayPlan(site, h, args, day);
    HealingPays(site, h, args, day, runs, OneDebt.Willing);
    PaidIsThere(h, PersistEffects(p), day, p.cycle);
    es := PersistEffects(p) + [SetPaid(day, p.cycle)];
  }

  /** A look heals a day whose wallets all read sent. */
  lemma LookHeals(site: Site, h: Host, runs: nat, day: int) returns (stop: nat)
    requires site.asset != "" && Inv(site, h, runs) && Begun(site, h, day) && DaySent(site, h, day) && day !in h.paid
    ensures day in Next(site, System(h, runs), Look(day, stop)).host.paid
  {
    hide *;
    var es := LookEffects(site, h, runs, day);
    stop := |es|;
    assert es[..stop] == es;
    CutRun(site, h, HEAL.(day := Some(day)), runs, OneDebt.Willing, es, stop);
    LookIsARun(day, stop);
  }

  lemma LookIsARun(day: int, stop: nat)
    ensures Look(day, stop) == PayRun(HEAL.(day := Some(day)), OneDebt.Willing, stop)
  {}

  /** Pay runs, however many and wherever they stop, can complete a day that has a sent row exactly when all its
      wallets read sent already. */
  lemma RerunsCompleteIff(site: Site, es: seq<Event>, day: int)
    requires AllTrusted(es) && Begun(site, History(site, es).host, day)
    ensures (exists more :: CompletedBy(site, es, more, day) && NobodyLooks(more))
            <==> DaySent(site, History(site, es).host, day)
  {
    var h := History(site, es).host;
    if more :| CompletedBy(site, es, more, day) && NobodyLooks(more) {
      HistoryStands(site, es, day, more);
      HistoryOk(site, es + more);
      hide Next, History, Inv, Begun, OwedMap, CycleOfDay;
      CompletedIsSent(site, h, History(site, es + more).host, History(site, es + more).runs, day, more);
    }
    if DaySent(site, h, day) {
      HistoryOk(site, es);
      var more := Completion(site, es, day);
    }
  }

  lemma CompletedIsSent(site: Site, h: Host, h': Host, runs: nat, day: int, more: seq<Event>)
    requires day in h.days && StandingFor(site, h, h', day, more) && NobodyLooks(more)
    requires Inv(site, h', runs) && day in h'.paid
    ensures DaySent(site, h, day)
  {
    hide OwedMap, CycleFor, SumCapped, WasMoved, RowSent;
    assert DaySent(site, h', day);
  }

  lemma Completion(site: Site, es: seq<Event>, day: int) returns (more: seq<Event>)
    requires AllTrusted(es) && Begun(site, History(site, es).host, day)
    requires DaySent(site, History(site, es).host, day)
    ensures CompletedBy(site, es, more, day) && NobodyLooks(more)
  {
    HistoryOk(site, es);
    var s := History(site, es);
    if day in s.host.paid {
      more := [];
      assert es + more == es;
    } else {
      TokenThere(site, es, day);
      hide Inv, Begun, DaySent, Next, History, Look;
      var stop := LookHeals(site, s.host, s.runs, day);
      more := [Look(day, stop)];
      LookIsTrusted(day, stop);
      HistorySnoc(site, es, Look(day, stop));
    }
  }

  lemma LookIsTrusted(day: int, stop: nat)
    ensures AllTrusted([Look(day, stop)]) && NobodyLooks([Look(day, stop)])
  {}

  lemma TokenThere(site: Site, es: seq<Event>, day: int)
    requires Begun(site, History(site, es).host, day)
    ensures site.asset != ""
  {
    if site.asset == "" { NoTokenNoRows(site, es); }
  }

  /** Whatever anybody does, a day that has a sent row can be completed exactly when the wallet has already accepted
      the spend of every wallet owed: from there on nothing more is sent for it. */
  lemma DayCompletesIff(site: Site, es: seq<Event>, day: int)
    requires AllTrusted(es) && Begun(site, History(site, es).host, day)
    ensures (exists more :: CompletedBy(site, es, more, day)) <==> DayMoved(site, History(site, es).host, day)
  {
    var h := History(site, es).host;
    if more :| CompletedBy(site, es, more, day) {
      HistoryStands(site, es, day, more);
      HistoryOk(site, es + more);
      hide Next, History, Inv, Begun, OwedMap, CycleOfDay;
      CompletedIsMoved(site, h, History(site, es + more).host, History(site, es + more).runs, day, more);
    }
    if DayMoved(site, h, day) { var more := LookAndComplete(site, es, day); }
  }

  lemma LookAndComplete(site: Site, es: seq<Event>, day: int) returns (more: seq<Event>)
    requires AllTrusted(es) && Begun(site, History(site, es).host, day) && DayMoved(site, History(site, es).host, day)
    ensures CompletedBy(site, es, more, day)
  {
    var h := History(site, es).host;
    BegunIsSettled(site, h, day);
    hide *;
    var looks := LookAtAll(site, es, day, OwedMap(h.days[day]).Keys);
    HistoryStands(site, es, day, looks);
    SentAfterLooking(site, h, History(site, es + looks).host, day, looks);
    TrustedTogether(es, looks);
    var rest := Completion(site, es + looks, day);
    more := looks + rest;
    CompletedTogether(site, es, looks, rest, day);
  }

  lemma CompletedTogether(site: Site, es: seq<Event>, looks: seq<Event>, rest: seq<Event>, day: int)
    requires AllTrusted(looks) && CompletedBy(site, es + looks, rest, day)
    ensures CompletedBy(site, es, looks + rest, day)
  {
    TrustedTogether(looks, rest);
    Regroup(es, looks, rest);
    hide AllTrusted, History;
  }

  lemma TrustedTogether(a: seq<Event>, b: seq<Event>)
    requires AllTrusted(a) && AllTrusted(b)
    ensures AllTrusted(a + b)
  {
    hide Trusted;
  }

  /** These wallets read sent for the day's cycle. */
  ghost predicate ReadSent(site: Site, h: Host, h': Host, day: int, ws: set<Wallet>)
    requires day in h.days
  {
    forall w :: w in ws ==> RowSent(h', (CycleOfDay(site, h.days, day), w))
  }

  lemma SentAfterLooking(site: Site, h: Host, h': Host, day: int, looks: seq<Event>)
    requires day in h.days && StandingFor(site, h, h', day, looks)
    requires ReadSent(site, h, h', day, OwedMap(h.days[day]).Keys)
    ensures DaySent(site, h', day)
  {
    hide OwedMap, CycleFor, RowSent, WasMoved;
  }

  ghost predicate DayMoved(site: Site, h: Host, day: int)
    requires day in h.days
  {
    forall w :: w in OwedMap(h.days[day]) ==> WasMoved(h, (CycleOfDay(site, h.days, day), w))
  }

  lemma CompletedIsMoved(site: Site, h: Host, h': Host, runs: nat, day: int, more: seq<Event>)
    requires day in h.days && StandingFor(site, h, h', day, more) && Inv(site, h', runs) && day in h'.paid
    ensures DayMoved(site, h, day)
  {
    hide OwedMap, CycleFor, SumCapped, WasMoved;
    assert DaySent(site, h', day);
  }

  /** The operator looks at every row the wallet accepted, and marks it sent where it was left mid-send. */
  lemma {:induction false} LookAtAll(site: Site, es: seq<Event>, day: int, ws: set<Wallet>) returns (looks: seq<Event>)
    requires AllTrusted(es) && Begun(site, History(site, es).host, day)
    requires DayMoved(site, History(site, es).host, day) && ws <= OwedMap(History(site, es).host.days[day]).Keys
    ensures AllTrusted(looks)
    ensures ReadSent(site, History(site, es).host, History(site, es + looks).host, day, ws)
    decreases |ws|
  {
    var h := History(site, es).host;
    BegunIsSettled(site, h, day);
    hide *;
    looks := [];
    if ws == {} {
      NothingRead(site, h, History(site, es + looks).host, day);
    } else {
      var w :| w in ws;
      var front := LookAtAll(site, es, day, ws - {w});
      var look := Resolve(CycleOfDay(site, h.days, day), w, "tx");
      HistoryStands(site, es, day, front);
      TrustedTogether(es, front);
      HistoryOk(site, es + front);
      StillMoved(site, h, History(site, es + front).host, day, front, w);
      OneLookMore(site, h, History(site, es + front), day, ws, w);
      looks := front + [look];
      TrustedTogether(front, [look]);
      HistorySnoc(site, es + front, look);
      Regroup(es, front, [look]);
    }
  }

  lemma BegunIsSettled(site: Site, h: Host, day: int)
    requires Begun(site, h, day)
    ensures day in h.days
  {}

  lemma NothingRead(site: Site, h: Host, h': Host, day: int)
    requires day in h.days
    ensures ReadSent(site, h, h', day, {}) && AllTrusted([])
  {}

  lemma StillMoved(site: Site, h: Host, h': Host, day: int, front: seq<Event>, w: Wallet)
    requires day in h.days && StandingFor(site, h, h', day, front)
    requires DayMoved(site, h, day) && w in OwedMap(h.days[day])
    ensures WasMoved(h', (CycleOfDay(site, h.days, day), w))
  {
    hide OwedMap, CycleFor, WasMoved, RowSent;
  }

  lemma OneLookMore(site: Site, h: Host, s: System, day: int, ws: set<Wallet>, w: Wallet)
    requires day in h.days && Inv(site, s.host, s.runs) && ReadSent(site, h, s.host, day, ws - {w})
    requires WasMoved(s.host, (CycleOfDay(site, h.days, day), w))
    ensures var look := Resolve(CycleOfDay(site, h.days, day), w, "tx");
            ReadSent(site, h, Next(site, s, look).host, day, ws) && AllTrusted([look])
  {
    LookAtOne(site, s, CycleOfDay(site, h.days, day), w);
    hide Next, Inv, WasMoved, RowSent, CycleFor;
  }

  lemma LookAtOne(site: Site, s: System, c: CycleId, w: Wallet)
    requires Inv(site, s.host, s.runs) && WasMoved(s.host, (c, w))
    ensures var h' := Next(site, s, Resolve(c, w, "tx")).host;
            RowSent(h', (c, w)) && forall k :: RowSent(s.host, k) ==> RowSent(h', k)
  {
    hide OwedMap, CycleFor, SumCapped;
    var i :| 0 <= i < |s.host.moved| && SpendKey(s.host.moved[i]) == (c, w);
    assert SpendOk(site, s.host, s.runs, s.host.moved[i]);
  }
}

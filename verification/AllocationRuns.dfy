/** Allocation cycles one after another (orchard_chia/allocation/service.py over
    orchard_chia/allocation/planner.py and orchard_chia/allocation/executor.py).

    Unlike a settled day, a cycle may be planned again with other amounts: uptime is collected anew by
    every run. Still no wallet is sent a second spend for one cycle. */
module AllocationRuns {
  import opened Ordering
  import opened Audit
  import opened Planner
  import opened Executor
  import opened Payment
  import Engine = Allocation
  import PaymentHistory
  import PaymentSafety

  /** The knobs of the service. Limits of 0 are unset; `wallet` is the wallet id a live run needs. */
  datatype Settings = Settings(asset: string, budget: int, maxPerCycle: int, maxPerWallet: int, minPayout: int,
                               fee: int, dry: bool, wallet: Option<int>)

  /** What a run insists on before it does anything. Only a live run looks at the limits' signs. */
  predicate SettingsOk(s: Settings) {
    && s.asset != "" && s.budget >= 0
    && (s.dry || (s.wallet.Some? && s.maxPerCycle > 0 && s.maxPerWallet > 0))
    && (s.maxPerCycle != 0 ==> s.maxPerCycle >= s.budget)
  }

  /** One run: its settings, the period and uptime it collected, and the wallet's answers. */
  datatype Job = Job(settings: Settings, start: int, end: int, records: seq<Engine.Uptime>, balance: Option<int>,
                     paused: bool, answers: nat -> Answer)

  function CycleOf(job: Job): CycleId {
    CycleIdFor(job.start, job.end, job.settings.budget, job.settings.asset)
  }

  function LimitsOf(job: Job): Limits {
    var s := job.settings;
    Limits(OrUnlimited(s.maxPerCycle), OrUnlimited(s.maxPerWallet), s.minPayout, s.fee, job.paused)
  }

  function AllocationsFrom(r: Engine.Allocations): seq<Allocation> {
    seq(|r.allocations|, i requires 0 <= i < |r.allocations| =>
      Planner.Allocation(r.allocations[i].wallet, r.allocations[i].amount))
  }

  ghost function AllocsOf(job: Job): seq<Allocation> {
    if job.settings.budget < 0 then [] else AllocationsFrom(Engine.Outcome(job.records, job.settings.budget))
  }

  function TagOf(job: Job, run: nat): Tag { Tag(run, LimitsOf(job).maxPerWallet, LimitsOf(job).maxPerCycle) }

  ghost function PlanFor(h: Host, job: Job): Plan {
    PlanOf(h.db, CycleOf(job), AllocsOf(job), LimitsOf(job), job.balance, job.settings.dry)
  }

  /** Everything one run does to the store and the wallet, in order: plan, persist, execute. */
  ghost function CycleEffects(h: Host, job: Job, run: nat): seq<Effect> {
    if !SettingsOk(job.settings) then []
    else
      var p := PlanFor(h, job);
      var persist := PersistEffects(p);
      persist + ExecuteTrace(ApplyAll(h, persist), p, TagOf(job, run), job.answers, 0, MAX_ATTEMPTS).effects
  }

  ghost predicate DistinctWallets(allocs: seq<Allocation>) {
    forall i, j :: 0 <= i < j < |allocs| ==> allocs[i].wallet != allocs[j].wallet
  }

  /** The engine lists every wallet once, as the planner's guarantee needs. */
  lemma EngineListsWalletsOnce(job: Job)
    ensures DistinctWallets(AllocsOf(job))
  {
    if job.settings.budget >= 0 {
      hide Engine.Outcome, Engine.Weights;
      Engine.WeightsDescribe(job.records);
      Engine.AllocationsFollowWeights(job.records, job.settings.budget);
    }
  }

  /** An ordinary exception means the wallet did not accept the spend, a transaction id is never empty,
      and the per-wallet limit is not negative, which a dry run does not insist on. */
  ghost predicate Trusted(job: Job) { TrustedFrom(job, 0) }

  ghost predicate TrustedFrom(job: Job, least: int) {
    job.settings.maxPerWallet >= least && PaymentHistory.TrustedAnswers(job.answers)
  }

  // The invariant, and the effects that keep it.

  ghost predicate Safe(h: Host) {
    && (forall k :: k in h.db.rows ==> h.db.rows[k].amount > 0 && k.0 in h.db.cycles)
    && (forall i :: 0 <= i < |h.moved| ==>
          var k := PaymentSafety.SpendKey(h.moved[i]);
          k in h.db.rows && h.db.rows[k].state in {Sending, Sent})
    && (forall i, j :: 0 <= i < j < |h.moved| ==>
          && PaymentSafety.SpendKey(h.moved[i]) != PaymentSafety.SpendKey(h.moved[j])
          && (h.moved[i].cycle == h.moved[j].cycle ==> h.moved[i].run == h.moved[j].run))
  }

  ghost predicate Moved(h: Host, k: Key) {
    exists i :: 0 <= i < |h.moved| && PaymentSafety.SpendKey(h.moved[i]) == k
  }

  /** Every accepted spend of the cycle so far is this run's. */
  ghost predicate OnlyRun(h: Host, c: CycleId, run: nat) {
    forall i :: 0 <= i < |h.moved| && h.moved[i].cycle == c ==> h.moved[i].run == run
  }

  ghost predicate Legal(h: Host, e: Effect, run: nat) {
    match e
    case Move(x) =>
      var k := PaymentSafety.SpendKey(x);
      && k in h.db.rows && h.db.rows[k].state in {Sending, Sent} && !Moved(h, k)
      && x.run == run && OnlyRun(h, x.cycle, run)
    case Store(PutInstruction(c, w, amount)) => amount > 0 && c in h.db.cycles
    case Store(MarkFailed(c, w)) => !Moved(h, (c, w))
    case Store(MarkSkipped(c, w)) => false
    case Store(_) => true
    case SetPaid(_, _) => false
  }

  ghost predicate LegalAll(h: Host, es: seq<Effect>, run: nat)
    decreases |es|
  {
    es == [] || (Legal(h, es[0], run) && LegalAll(Apply(h, es[0]), es[1..], run))
  }

  lemma LegalKeepsSafe(h: Host, e: Effect, run: nat)
    requires Safe(h) && Legal(h, e, run)
    ensures Safe(Apply(h, e))
  {
    match e
    case Move(x) => LegalMoveIsSafe(h, x, run);
    case Store(w) => LegalWriteIsSafe(h, w, run);
  }

  lemma LegalMoveIsSafe(h: Host, x: Spend, run: nat)
    requires Safe(h) && Legal(h, Move(x), run)
    ensures Safe(Apply(h, Move(x)))
  {
    forall i | 0 <= i < |h.moved| ensures PaymentSafety.SpendKey(h.moved[i]) != PaymentSafety.SpendKey(x) {}
  }

  lemma LegalWriteIsSafe(h: Host, w: Write, run: nat)
    requires Safe(h) && Legal(h, Store(w), run)
    ensures Safe(Apply(h, Store(w)))
  {
    forall i | 0 <= i < |h.moved| && w.MarkFailed? ensures PaymentSafety.SpendKey(h.moved[i]) != (w.c, w.w) {}
  }

  lemma {:induction false} PrefixIsSafe(h: Host, es: seq<Effect>, run: nat, n: nat)
    requires Safe(h) && LegalAll(h, es, run) && n <= |es|
    ensures Safe(ApplyAll(h, es[..n]))
    decreases |es|
  {
    hide Legal, Apply, Safe;
    if n > 0 {
      LegalKeepsSafe(h, es[0], run);
      PrefixIsSafe(Apply(h, es[0]), es[1..], run, n - 1);
      assert es[..n][0] == es[0] && es[..n][1..] == es[1..][..n - 1];
    }
  }

  lemma {:induction false} LegalAppend(h: Host, a: seq<Effect>, b: seq<Effect>, run: nat)
    requires LegalAll(h, a, run) && LegalAll(ApplyAll(h, a), b, run)
    ensures LegalAll(h, a + b, run)
    decreases |a|
  {
    hide Legal, Apply;
    if a == [] {
      assert a + b == b;
    } else {
      assert (a + b)[0] == a[0] && (a + b)[1..] == a[1..] + b;
      LegalAppend(Apply(h, a[0]), a[1..], b, run);
    }
  }

  lemma LegalOne(h: Host, e: Effect, run: nat)
    requires Legal(h, e, run)
    ensures LegalAll(h, [e], run) && ApplyAll(h, [e]) == Apply(h, e)
  {
    hide Legal, Apply;
    ApplyOne(h, e);
    assert [e][1..] == [];
  }

  // One instruction.

  /** The row is there, nothing was accepted for it, and the cycle's accepted spends are this run's. */
  ghost predicate Open(h: Host, c: CycleId, w: Wallet, run: nat) {
    (c, w) in h.db.rows && !Moved(h, (c, w)) && OnlyRun(h, c, run)
  }

  /** Other keys are untouched: no rows lost, no state changed, nothing accepted for them. */
  ghost predicate OnlyKey(h: Host, h': Host, k: Key, run: nat) {
    && h'.db.rows.Keys == h.db.rows.Keys && h'.db.cycles.Keys == h.db.cycles.Keys
    && (forall j :: j in h.db.rows && j != k ==> h'.db.rows[j] == h.db.rows[j])
    && (forall j :: j != k ==> (Moved(h', j) <==> Moved(h, j)))
    && (OnlyRun(h, k.0, run) ==> OnlyRun(h', k.0, run))
  }

  lemma OnlyKeyTransitive(a: Host, b: Host, c: Host, k: Key, run: nat)
    requires OnlyKey(a, b, k, run) && OnlyKey(b, c, k, run)
    ensures OnlyKey(a, c, k, run)
  {
    hide Moved, OnlyRun;
  }

  lemma MarkIsLegal(h: Host, c: CycleId, w: Wallet, run: nat, x: Write)
    requires (c, w) in h.db.rows && OnlyRun(h, c, run)
    requires x == MarkSending(c, w) || (x.MarkSent? && x.c == c && x.w == w)
             || (x == MarkFailed(c, w) && !Moved(h, (c, w)))
    ensures Legal(h, Store(x), run) && OnlyKey(h, Apply(h, Store(x)), (c, w), run)
    ensures forall k :: Moved(Apply(h, Store(x)), k) <==> Moved(h, k)
  {}

  lemma MoveIsLegal(h: Host, c: CycleId, ins: Instruction, tag: Tag)
    requires Open(h, c, ins.wallet, tag.run) && h.db.rows[(c, ins.wallet)].state in {Sending, Sent}
    ensures Legal(h, Move(SpendOf(c, ins, tag)), tag.run)
    ensures OnlyKey(h, Apply(h, Move(SpendOf(c, ins, tag))), (c, ins.wallet), tag.run)
  {
    var h' := Apply(h, Move(SpendOf(c, ins, tag)));
    forall j | j != (c, ins.wallet) ensures Moved(h', j) <==> Moved(h, j) {
      if i :| 0 <= i < |h.moved| && PaymentSafety.SpendKey(h.moved[i]) == j {
        assert PaymentSafety.SpendKey(h'.moved[i]) == j;
      }
      if i :| 0 <= i < |h'.moved| && PaymentSafety.SpendKey(h'.moved[i]) == j {
        assert PaymentSafety.SpendKey(h.moved[i]) == j;
      }
    }
  }

  lemma AttemptIsLegal(h: Host, c: CycleId, ins: Instruction, tag: Tag, a: Answer)
    requires Open(h, c, ins.wallet, tag.run)
    ensures var es := Attempt(c, ins, tag, a);
            && LegalAll(h, es, tag.run) && OnlyKey(h, ApplyAll(h, es), (c, ins.wallet), tag.run)
            && (!Moves(a) ==> Open(ApplyAll(h, es), c, ins.wallet, tag.run))
  {
    var k, mark, move := (c, ins.wallet), Store(MarkSending(c, ins.wallet)), Move(SpendOf(c, ins, tag));
    var h1 := Apply(h, mark);
    MarkIsLegal(h, c, ins.wallet, tag.run, MarkSending(c, ins.wallet));
    LegalOne(h, mark, tag.run);
    assert h1.db.rows[k].state == Sending && Open(h1, c, ins.wallet, tag.run);
    if Moves(a) {
      MoveIsLegal(h1, c, ins, tag);
      hide Legal, OnlyKey, Apply, Open, Moved;
      LegalOne(h1, move, tag.run);
      LegalAppend(h, [mark], [move], tag.run);
      ApplyAppend(h, [mark], [move]);
      OnlyKeyTransitive(h, h1, Apply(h1, move), k, tag.run);
    } else {
      assert [mark] + [] == [mark];
    }
  }

  lemma {:induction false} TryIsLegal(h: Host, c: CycleId, ins: Instruction, tag: Tag, answers: nat -> Answer,
                                      k: nat, left: nat)
    requires Open(h, c, ins.wallet, tag.run) && PaymentHistory.TrustedAnswers(answers)
    ensures var t := TryToSend(c, ins, tag, answers, k, left);
            && LegalAll(h, t.effects, tag.run) && OnlyKey(h, ApplyAll(h, t.effects), (c, ins.wallet), tag.run)
            && (t.outcome.GaveUp? ==> Open(ApplyAll(h, t.effects), c, ins.wallet, tag.run))
    decreases left
  {
    if left > 0 {
      var es := Attempt(c, ins, tag, answers(k));
      AttemptIsLegal(h, c, ins, tag, answers(k));
      var h1 := ApplyAll(h, es);
      match answers(k)
      case Accepted(tx) =>
        StillThere(h, h1, c, ins.wallet, tag.run);
        MarkIsLegal(h1, c, ins.wallet, tag.run, MarkSent(c, ins.wallet, tx));
        hide Legal, OnlyKey, Apply, Open, Attempt;
        LegalOne(h1, Store(MarkSent(c, ins.wallet, tx)), tag.run);
        LegalAppend(h, es, [Store(MarkSent(c, ins.wallet, tx))], tag.run);
        ApplyAppend(h, es, [Store(MarkSent(c, ins.wallet, tx))]);
        OnlyKeyTransitive(h, h1, Apply(h1, Store(MarkSent(c, ins.wallet, tx))), (c, ins.wallet), tag.run);
      case NoTxId(_) =>
      case Fault(m) =>
        assert !m;
        hide Legal, OnlyKey, Apply, Open, Attempt;
        TryIsLegal(h1, c, ins, tag, answers, k + 1, left - 1);
        var rest := TryToSend(c, ins, tag, answers, k + 1, left - 1);
        LegalAppend(h, es, rest.effects, tag.run);
        ApplyAppend(h, es, rest.effects);
        OnlyKeyTransitive(h, h1, ApplyAll(h1, rest.effects), (c, ins.wallet), tag.run);
    }
  }

  lemma StillThere(h: Host, h': Host, c: CycleId, w: Wallet, run: nat)
    requires Open(h, c, w, run) && OnlyKey(h, h', (c, w), run)
    ensures (c, w) in h'.db.rows && OnlyRun(h', c, run)
  {}

  lemma OneIsLegal(h: Host, c: CycleId, ins: Instruction, tag: Tag, answers: nat -> Answer, k: nat, max: nat)
    requires Open(h, c, ins.wallet, tag.run) && !AlreadyPaid(h.db, c, ins.wallet)
    requires PaymentHistory.TrustedAnswers(answers)
    ensures var t := SendOne(h.db, c, ins, tag, answers, k, max);
            LegalAll(h, t.effects, tag.run) && OnlyKey(h, ApplyAll(h, t.effects), (c, ins.wallet), tag.run)
  {
    hide Legal, OnlyKey, Apply, TryToSend, LegalAll, AlreadyPaid;
    TryIsLegal(h, c, ins, tag, answers, k, max);
    var t := TryToSend(c, ins, tag, answers, k, max);
    if t.outcome.GaveUp? {
      var h1, fail := ApplyAll(h, t.effects), Store(MarkFailed(c, ins.wallet));
      MarkIsLegal(h1, c, ins.wallet, tag.run, MarkFailed(c, ins.wallet));
      LegalOne(h1, fail, tag.run);
      LegalAppend(h, t.effects, [fail], tag.run);
      ApplyAppend(h, t.effects, [fail]);
      OnlyKeyTransitive(h, h1, Apply(h1, fail), (c, ins.wallet), tag.run);
    }
  }

  // A whole plan.

  ghost predicate Ready(h: Host, c: CycleId, todo: seq<Instruction>, run: nat) {
    && OnlyRun(h, c, run)
    && (forall i :: 0 <= i < |todo| ==> Open(h, c, todo[i].wallet, run) && !AlreadyPaid(h.db, c, todo[i].wallet))
    && (forall i, j :: 0 <= i < j < |todo| ==> todo[i].wallet != todo[j].wallet)
  }

  lemma RestIsReady(h: Host, h': Host, c: CycleId, todo: seq<Instruction>, run: nat)
    requires todo != [] && Ready(h, c, todo, run) && OnlyKey(h, h', (c, todo[0].wallet), run)
    ensures Ready(h', c, todo[1..], run)
  {
    hide Moved, OnlyRun;
    var rest := todo[1..];
    forall i | 0 <= i < |rest| ensures Open(h', c, rest[i].wallet, run) && !AlreadyPaid(h'.db, c, rest[i].wallet) {
      assert rest[i] == todo[i + 1];
      assert (c, rest[i].wallet) != (c, todo[0].wallet);
    }
  }

  lemma FirstIsReady(h: Host, c: CycleId, todo: seq<Instruction>, run: nat)
    requires todo != [] && Ready(h, c, todo, run)
    ensures Open(h, c, todo[0].wallet, run) && !AlreadyPaid(h.db, c, todo[0].wallet)
  {}

  lemma {:induction false} AllIsLegal(h: Host, c: CycleId, todo: seq<Instruction>, tag: Tag, answers: nat -> Answer,
                                      max: nat, done: Progress) returns (more: seq<Effect>)
    requires Ready(h, c, todo, tag.run) && PaymentHistory.TrustedAnswers(answers)
    ensures SendAll(h, c, todo, tag, answers, max, done).effects == done.effects + more
    ensures LegalAll(h, more, tag.run)
    decreases |todo|
  {
    hide Ready, Legal, SendOne, ApplyAll, OnlyKey, Open, AlreadyPaid;
    more := [];
    assert done.effects + [] == done.effects;
    if todo != [] && !done.report.halted {
      hide LegalAll;
      var one := SendOne(h.db, c, todo[0], tag, answers, done.calls, max);
      FirstIsReady(h, c, todo, tag.run);
      OneIsLegal(h, c, todo[0], tag, answers, done.calls, max);
      var h1 := ApplyAll(h, one.effects);
      RestIsReady(h, h1, c, todo, tag.run);
      var next := Progress(done.effects + one.effects, one.calls, Note(done.report, todo[0], one.outcome));
      var rest := AllIsLegal(h1, c, todo[1..], tag, answers, max, next);
      LegalAppend(h, one.effects, rest, tag.run);
      more := one.effects + rest;
      Regroup(done.effects, one.effects, rest);
    }
  }

  // Planning and persisting.

  function WalletsOf(allocs: seq<Allocation>): set<Wallet> { set a | a in allocs :: a.wallet }

  ghost predicate GoodInstructions(ins: seq<Instruction>, wallets: set<Wallet>) {
    && (forall i :: 0 <= i < |ins| ==> ins[i].amount > 0 && ins[i].wallet in wallets)
    && (forall i, j :: 0 <= i < j < |ins| ==> ins[i].wallet != ins[j].wallet)
  }

  lemma {:induction false} InstructionsAreGood(allocs: seq<Allocation>, limits: Limits)
    requires DistinctWallets(allocs) && limits.maxPerWallet > 0
    ensures GoodInstructions(InstructionsOf(allocs, limits), WalletsOf(allocs))
  {
    if allocs != [] {
      var m := |allocs| - 1;
      InstructionsAreGood(allocs[..m], limits);
      assert allocs[m] in allocs && WalletsOf(allocs[..m]) <= WalletsOf(allocs);
      assert allocs[m].wallet !in WalletsOf(allocs[..m]);
    }
  }

  /** Planned rows of the cycle have been added, and nothing else has changed. */
  ghost predicate Planned(h: Host, h': Host, c: CycleId) {
    && h'.moved == h.moved
    && (forall k :: k in h.db.rows ==> k in h'.db.rows && h'.db.rows[k] == h.db.rows[k])
    && (forall k :: k in h'.db.rows && k !in h.db.rows ==> h'.db.rows[k].state == RowState.Planned)
  }

  lemma {:induction false} PutsAreLegal(h: Host, c: CycleId, ins: seq<Instruction>, run: nat)
    requires c in h.db.cycles && forall i :: 0 <= i < |ins| ==> ins[i].amount > 0
    ensures var h' := ApplyAll(h, Puts(c, ins));
            && LegalAll(h, Puts(c, ins), run) && Planned(h, h', c)
            && forall i :: 0 <= i < |ins| ==> (c, ins[i].wallet) in h'.db.rows
    decreases |ins|
  {
    if ins != [] {
      var e := Store(PutInstruction(c, ins[0].wallet, ins[0].amount));
      var h1 := Apply(h, e);
      assert Puts(c, ins)[0] == e && Puts(c, ins)[1..] == Puts(c, ins[1..]);
      PutsAreLegal(h1, c, ins[1..], run);
      hide Puts;
      var h' := ApplyAll(h, Puts(c, ins));
      assert h' == ApplyAll(h1, Puts(c, ins[1..]));
      assert Planned(h, h1, c) && (c, ins[0].wallet) in h1.db.rows;
      hide Apply, ApplyAll;
      forall i | 0 <= i < |ins| ensures (c, ins[i].wallet) in h'.db.rows {
        if i > 0 { assert ins[i] == ins[1..][i - 1]; }
      }
    }
  }

  lemma PersistIsLegal(h: Host, p: Plan, run: nat)
    requires forall i :: 0 <= i < |p.instructions| ==> p.instructions[i].amount > 0
    ensures var h' := ApplyAll(h, PersistEffects(p));
            && LegalAll(h, PersistEffects(p), run) && Planned(h, h', p.cycle)
            && forall i :: 0 <= i < |p.instructions| ==> (p.cycle, p.instructions[i].wallet) in h'.db.rows
  {
    var open := Store(OpenCycle(p.cycle));
    var h1 := Apply(h, open);
    assert h1.db.rows == h.db.rows && h1.moved == h.moved && p.cycle in h1.db.cycles;
    assert Legal(h, open, run);
    PutsAreLegal(h1, p.cycle, p.instructions, run);
    hide Legal, Apply, Puts;
    LegalOne(h, open, run);
    LegalAppend(h, [open], Puts(p.cycle, p.instructions), run);
    ApplyAppend(h, [open], Puts(p.cycle, p.instructions));
  }

  /** With nothing of the cycle sent or mid-send, nothing of it was ever accepted. */
  lemma NothingSentNothingMoved(h: Host, c: CycleId)
    requires Safe(h) && (c in h.db.cycles ==> TotalSent(h.db, c) <= 0)
    ensures SentKeys(h.db, c) == {}
    ensures forall i :: 0 <= i < |h.moved| ==> h.moved[i].cycle != c
  {
    SumIsPositive(h.db.rows, SentKeys(h.db, c));
    if c !in h.db.cycles {
      forall k | k in SentKeys(h.db, c) ensures false {}
    }
    forall i | 0 <= i < |h.moved| ensures h.moved[i].cycle != c {
      assert h.moved[i].cycle == c ==> PaymentSafety.SpendKey(h.moved[i]) in SentKeys(h.db, c);
    }
  }

  lemma PlannedIsReady(h: Host, planned: Host, job: Job, run: nat)
    requires Safe(h) && Trusted(job) && PlanFor(h, job).blocked == []
    requires Planned(h, planned, CycleOf(job))
    requires var ins := PlanFor(h, job).instructions;
             forall i :: 0 <= i < |ins| ==> (CycleOf(job), ins[i].wallet) in planned.db.rows
    ensures Ready(planned, CycleOf(job), PlanFor(h, job).instructions, run)
  {
    hide AllocsOf, BlocksOf, InstructionsOf, DroppedOf, TotalSent, Planner.Total, InFlight;
    hide Safe, Ready, CycleOf, LimitsOf;
    UnblockedPlan(h.db, CycleOf(job), AllocsOf(job), LimitsOf(job), job.balance, job.settings.dry);
    NothingSentNothingMoved(h, CycleOf(job));
    EngineListsWalletsOnce(job);
    PositiveLimit(job);
    InstructionsAreGood(AllocsOf(job), LimitsOf(job));
    ReadyWhenUntouched(h, planned, CycleOf(job), PlanFor(h, job).instructions, run);
  }

  lemma PositiveLimit(job: Job)
    requires Trusted(job)
    ensures LimitsOf(job).maxPerWallet > 0
  {}

  lemma ReadyWhenUntouched(h: Host, planned: Host, c: CycleId, ins: seq<Instruction>, run: nat)
    requires Planned(h, planned, c) && SentKeys(h.db, c) == {}
    requires forall i :: 0 <= i < |h.moved| ==> h.moved[i].cycle != c
    requires forall i :: 0 <= i < |ins| ==> (c, ins[i].wallet) in planned.db.rows
    requires forall i, j :: 0 <= i < j < |ins| ==> ins[i].wallet != ins[j].wallet
    ensures Ready(planned, c, ins, run)
  {
    forall i | 0 <= i < |ins|
      ensures Open(planned, c, ins[i].wallet, run) && !AlreadyPaid(planned.db, c, ins[i].wallet)
    {
      var k := (c, ins[i].wallet);
      if k in h.db.rows { assert k !in SentKeys(h.db, c); }
    }
  }

  lemma ExecuteIsLegal(planned: Host, p: Plan, tag: Tag, answers: nat -> Answer)
    requires PaymentHistory.TrustedAnswers(answers)
    requires p.blocked == [] && !p.dryRun ==> Ready(planned, p.cycle, p.instructions, tag.run)
    ensures LegalAll(planned, ExecuteTrace(planned, p, tag, answers, 0, MAX_ATTEMPTS).effects, tag.run)
  {
    if p.blocked == [] && !p.dryRun {
      var start := Store(SetCycleState(p.cycle, CycleSending));
      var h1 := Apply(planned, start);
      assert h1.db.rows == planned.db.rows && h1.moved == planned.moved;
      assert Ready(h1, p.cycle, p.instructions, tag.run) by {
        ReadyStays(planned, h1, p.cycle, p.instructions, tag.run);
      }
      var done := Progress([start], 0, EMPTY_REPORT);
      var more := AllIsLegal(h1, p.cycle, p.instructions, tag, answers, MAX_ATTEMPTS, done);
      var sent := SendAll(h1, p.cycle, p.instructions, tag, answers, MAX_ATTEMPTS, done);
      var final := Store(SetCycleState(p.cycle, if sent.report.halted then CycleHalted else CycleSettled));
      assert Legal(planned, start, tag.run) && Legal(ApplyAll(h1, more), final, tag.run);
      hide Legal, Ready, SendAll, Apply, ApplyAll, LegalAll;
      LegalOne(planned, start, tag.run);
      LegalAppend(planned, [start], more, tag.run);
      ApplyAppend(planned, [start], more);
      LegalOne(ApplyAll(h1, more), final, tag.run);
      LegalAppend(planned, [start] + more, [final], tag.run);
    } else if p.blocked == [] {
      var dry := Store(SetCycleState(p.cycle, CycleDryRun));
      assert Legal(planned, dry, tag.run);
      LegalOne(planned, dry, tag.run);
    }
  }

  lemma ReadyStays(h: Host, h': Host, c: CycleId, todo: seq<Instruction>, run: nat)
    requires Ready(h, c, todo, run) && h'.db.rows == h.db.rows && h'.moved == h.moved
    ensures Ready(h', c, todo, run)
  {
    assert forall k :: Moved(h', k) <==> Moved(h, k);
    hide Moved;
    forall i | 0 <= i < |todo| ensures Open(h', c, todo[i].wallet, run) && !AlreadyPaid(h'.db, c, todo[i].wallet) {
      assert Open(h, c, todo[i].wallet, run);
    }
  }

  /** Every effect of a run is legal where it happens, so a crash after any of them leaves a safe store. */
  lemma RunIsLegal(h: Host, job: Job, run: nat)
    requires Safe(h) && Trusted(job)
    ensures LegalAll(h, CycleEffects(h, job, run), run)
  {
    hide AllocsOf;
    var p := PlanFor(h, job);
    var persist := PersistEffects(p);
    var planned := ApplyAll(h, persist);
    EngineListsWalletsOnce(job);
    InstructionsAreGood(AllocsOf(job), LimitsOf(job));
    PersistIsLegal(h, p, run);
    if p.blocked == [] { PlannedIsReady(h, planned, job, run); }
    hide Ready, PersistEffects, ExecuteTrace, LegalAll, Safe, PlanOf;
    ExecuteIsLegal(planned, p, TagOf(job, run), job.answers);
    LegalAppend(h, persist, ExecuteTrace(planned, p, TagOf(job, run), job.answers, 0, MAX_ATTEMPTS).effects, run);
  }

  // Runs one after another.

  /** A run that stopped after some of its effects, or an operator's look at a row left mid-send. */
  datatype Past = Ran(job: Job, stop: nat) | Resolved(c: CycleId, w: Wallet, txId: string)

  const START := Host(Db(map[], map[]), map[], map[], [])

  ghost function Resolution(h: Host, c: CycleId, w: Wallet, txId: string): seq<Effect> {
    if (c, w) !in h.db.rows || h.db.rows[(c, w)].state != Sending then []
    else [Store(if Moved(h, (c, w)) then MarkSent(c, w, txId) else MarkFailed(c, w))]
  }

  function Cut(es: seq<Effect>, n: nat): seq<Effect> { if n <= |es| then es[..n] else es }

  ghost function Serial(past: seq<Past>): Host {
    if past == [] then START
    else
      var h := Serial(past[..|past| - 1]);
      match past[|past| - 1]
      case Ran(job, stop) => ApplyAll(h, Cut(CycleEffects(h, job, |past| - 1), stop))
      case Resolved(c, w, txId) => ApplyAll(h, Resolution(h, c, w, txId))
  }

  ghost predicate TrustedPast(past: seq<Past>, least: int) {
    forall x :: x in past && x.Ran? ==> TrustedFrom(x.job, least)
  }

  lemma CutIsSafe(h: Host, job: Job, run: nat, n: nat)
    requires Safe(h) && Trusted(job)
    ensures Safe(ApplyAll(h, Cut(CycleEffects(h, job, run), n)))
  {
    hide CycleEffects, LegalAll, Safe, Trusted, ApplyAll;
    RunIsLegal(h, job, run);
    var es := CycleEffects(h, job, run);
    PrefixIsSafe(h, es, run, if n <= |es| then n else |es|);
    assert es[..|es|] == es;
  }

  lemma ResolutionIsSafe(h: Host, c: CycleId, w: Wallet, txId: string)
    requires Safe(h)
    ensures Safe(ApplyAll(h, Resolution(h, c, w, txId)))
  {
    var es := Resolution(h, c, w, txId);
    if es != [] {
      assert Legal(h, es[0], 0);
      LegalKeepsSafe(h, es[0], 0);
      ApplyOne(h, es[0]);
    }
  }

  lemma {:induction false} SerialIsSafe(past: seq<Past>)
    requires TrustedPast(past, 0)
    ensures Safe(Serial(past))
  {
    if past != [] {
      hide Safe, CycleEffects, Resolution, TrustedFrom;
      SerialIsSafe(past[..|past| - 1]);
      var h, last := Serial(past[..|past| - 1]), past[|past| - 1];
      assert last in past;
      match last
      case Ran(job, stop) => CutIsSafe(h, job, |past| - 1, stop);
      case Resolved(c, w, txId) => ResolutionIsSafe(h, c, w, txId);
    } else {
      StartIsSafe();
    }
  }

  lemma StartIsSafe()
    ensures Safe(START)
  {}
}

/** Sending a plan (orchard_chia/allocation/executor.py, `execute`).

    The list of effects of an execution is a function of the host, the plan and the wallet's answers;
    the method below performs exactly those effects, in that order. */
module Executor {
  import opened Audit
  import opened Planner

  /** What a spend is tagged with: the run it belongs to and the caps that run was given. */
  datatype Tag = Tag(run: nat, capWallet: int, capCycle: int)

  datatype Report = Report(sent: seq<(Wallet, int, string)>, failed: seq<(Wallet, int)>,
                           skipped: seq<(Wallet, int)>, halted: bool)

  const EMPTY_REPORT := Report([], [], [], false)

  predicate Clean(r: Report) {
    r.failed == [] && !r.halted
  }

  /** How one instruction ends. */
  datatype Outcome = Done(txId: string) | Unknown | GaveUp | AlreadyThere

  datatype Tries = Tries(effects: seq<Effect>, calls: nat, outcome: Outcome)

  function SpendOf(c: CycleId, ins: Instruction, tag: Tag): Spend {
    Spend(tag.run, c, ins.wallet, ins.amount, tag.capWallet, tag.capCycle)
  }

  function Attempt(c: CycleId, ins: Instruction, tag: Tag, a: Answer): seq<Effect> {
    [Store(MarkSending(c, ins.wallet))] + if Moves(a) then [Move(SpendOf(c, ins, tag))] else []
  }

  /** Up to `left` attempts, starting at answer k: mark the row `sending`, call the wallet, and try
      again only after an ordinary exception. */
  function TryToSend(c: CycleId, ins: Instruction, tag: Tag, answers: nat -> Answer, k: nat, left: nat): Tries
    decreases left
  {
    if left == 0 then Tries([], k, GaveUp)
    else
      match answers(k)
      case Accepted(tx) =>
        Tries(Attempt(c, ins, tag, answers(k)) + [Store(MarkSent(c, ins.wallet, tx))], k + 1, Done(tx))
      case NoTxId(_) => Tries(Attempt(c, ins, tag, answers(k)), k + 1, Unknown)
      case Fault(_) =>
        var rest := TryToSend(c, ins, tag, answers, k + 1, left - 1);
        Tries(Attempt(c, ins, tag, answers(k)) + rest.effects, rest.calls, rest.outcome)
  }

  function SendOne(db: Db, c: CycleId, ins: Instruction, tag: Tag, answers: nat -> Answer, k: nat, max: nat): Tries {
    if AlreadyPaid(db, c, ins.wallet) then Tries([Store(MarkSkipped(c, ins.wallet))], k, AlreadyThere)
    else
      var t := TryToSend(c, ins, tag, answers, k, max);
      if t.outcome.GaveUp? then Tries(t.effects + [Store(MarkFailed(c, ins.wallet))], t.calls, GaveUp) else t
  }

  function Note(r: Report, ins: Instruction, o: Outcome): Report {
    match o
    case Done(tx) => r.(sent := r.sent + [(ins.wallet, ins.amount, tx)])
    case Unknown => r.(halted := true)
    case GaveUp => r.(failed := r.failed + [(ins.wallet, ins.amount)])
    case AlreadyThere => r.(skipped := r.skipped + [(ins.wallet, ins.amount)])
  }

  datatype Progress = Progress(effects: seq<Effect>, calls: nat, report: Report)

  /** Instructions in order, stopping at the first unknown outcome. */
  function SendAll(h: Host, c: CycleId, todo: seq<Instruction>, tag: Tag, answers: nat -> Answer, max: nat,
                   done: Progress): Progress
    decreases |todo|
  {
    if todo == [] || done.report.halted then done
    else
      var one := SendOne(h.db, c, todo[0], tag, answers, done.calls, max);
      SendAll(ApplyAll(h, one.effects), c, todo[1..], tag, answers, max,
              Progress(done.effects + one.effects, one.calls, Note(done.report, todo[0], one.outcome)))
  }

  /** A blocked plan writes nothing; a dry run only marks the cycle. */
  function ExecuteTrace(h: Host, p: Plan, tag: Tag, answers: nat -> Answer, k: nat, max: nat): Progress {
    if p.blocked != [] then Progress([], k, EMPTY_REPORT.(halted := true))
    else if p.dryRun then Progress([Store(SetCycleState(p.cycle, CycleDryRun))], k, EMPTY_REPORT)
    else
      var start := Store(SetCycleState(p.cycle, CycleSending));
      var begun := Progress([start], k, EMPTY_REPORT);
      var sent := SendAll(Apply(h, start), p.cycle, p.instructions, tag, answers, max, begun);
      var end := if sent.report.halted then CycleHalted else CycleSettled;
      sent.(effects := sent.effects + [Store(SetCycleState(p.cycle, end))])
  }

  // The method that performs them. `since` is the host when the trace began.

  ghost predicate Performed(since: Host, before: seq<Effect>, es: seq<Effect>, now: Host, log: seq<Effect>) {
    log == before + es && now == ApplyAll(since, es)
  }

  lemma PerformedMore(since: Host, before: seq<Effect>, es: seq<Effect>, mid: Host, midLog: seq<Effect>,
                      more: seq<Effect>, now: Host, log: seq<Effect>)
    requires Performed(since, before, es, mid, midLog) && Performed(mid, midLog, more, now, log)
    ensures Performed(since, before, es + more, now, log)
  {
    ApplyAppend(since, es, more);
    assert (before + es) + more == before + (es + more);
  }

  lemma PerformedOne(since: Host, before: seq<Effect>, e: Effect, now: Host, log: seq<Effect>)
    requires now == Apply(since, e) && log == before + [e]
    ensures Performed(since, before, [e], now, log)
  {
    ApplyOne(since, e);
  }

  method MarkAndSend(host: PayHost, c: CycleId, ins: Instruction, ghost tag: Tag) returns (a: Answer)
    modifies host
    ensures a == host.answers(old(host.calls)) && host.calls == old(host.calls) + 1
    ensures Performed(old(host.View()), old(host.log), Attempt(c, ins, tag, a), host.View(), host.log)
  {
    ghost var h0, l0 := host.View(), host.log;
    host.Commit(MarkSending(c, ins.wallet));
    PerformedOne(h0, l0, Store(MarkSending(c, ins.wallet)), host.View(), host.log);
    ghost var h1, l1 := host.View(), host.log;
    a := host.Send(SpendOf(c, ins, tag));
    if Moves(a) {
      PerformedOne(h1, l1, Move(SpendOf(c, ins, tag)), host.View(), host.log);
      PerformedMore(h0, l0, [Store(MarkSending(c, ins.wallet))], h1, l1, [Move(SpendOf(c, ins, tag))],
                    host.View(), host.log);
    } else {
      assert Attempt(c, ins, tag, a) == [Store(MarkSending(c, ins.wallet))];
    }
  }

  /** What the first of several attempts leaves to do. */
  lemma TryUnfold(c: CycleId, ins: Instruction, tag: Tag, answers: nat -> Answer, k: nat, left: nat)
    requires left > 0
    ensures var t, step := TryToSend(c, ins, tag, answers, k, left), Attempt(c, ins, tag, answers(k));
            match answers(k)
            case Accepted(tx) => t == Tries(step + [Store(MarkSent(c, ins.wallet, tx))], k + 1, Done(tx))
            case NoTxId(_) => t == Tries(step, k + 1, Unknown)
            case Fault(_) =>
              var rest := TryToSend(c, ins, tag, answers, k + 1, left - 1);
              t == Tries(step + rest.effects, rest.calls, rest.outcome)
  {}

  lemma NoTriesLeft(c: CycleId, ins: Instruction, tag: Tag, answers: nat -> Answer, k: nat)
    ensures TryToSend(c, ins, tag, answers, k, 0) == Tries([], k, GaveUp)
  {}

  /** The retry loop for one instruction. */
  method TryLoop(host: PayHost, c: CycleId, ins: Instruction, ghost tag: Tag, max: nat) returns (outcome: Outcome)
    modifies host
    ensures var t := TryToSend(c, ins, tag, host.answers, old(host.calls), max);
            && Performed(old(host.View()), old(host.log), t.effects, host.View(), host.log)
            && host.calls == t.calls && outcome == t.outcome
  {
    hide Performed, Attempt, ApplyAll, TryToSend, Apply;
    ghost var h0, l0, k0 := host.View(), host.log, host.calls;
    ghost var t := TryToSend(c, ins, tag, host.answers, k0, max);
    ghost var done: seq<Effect> := [];
    NothingPerformed(h0, l0);
    assert [] + t.effects == t.effects;
    var attempt := 0;
    while attempt < max
      invariant 0 <= attempt <= max
      invariant Performed(h0, l0, done, host.View(), host.log)
      invariant var rest := TryToSend(c, ins, tag, host.answers, host.calls, max - attempt);
                t == Tries(done + rest.effects, rest.calls, rest.outcome)
    {
      TryUnfold(c, ins, tag, host.answers, host.calls, max - attempt);
      attempt := attempt + 1;
      ghost var h1, l1 := host.View(), host.log;
      var a := MarkAndSend(host, c, ins, tag);
      ghost var step := Attempt(c, ins, tag, a);
      PerformedMore(h0, l0, done, h1, l1, step, host.View(), host.log);
      match a {
        case Accepted(tx) =>
          ghost var h2, l2 := host.View(), host.log;
          host.Commit(MarkSent(c, ins.wallet, tx));
          ghost var mark := Store(MarkSent(c, ins.wallet, tx));
          PerformedOne(h2, l2, mark, host.View(), host.log);
          PerformedMore(h0, l0, done + step, h2, l2, [mark], host.View(), host.log);
          assert (done + step) + [mark] == done + (step + [mark]);
          return Done(tx);
        case NoTxId(_) =>
          return Unknown;
        case Fault(_) =>
          ghost var rest := TryToSend(c, ins, tag, host.answers, host.calls, max - attempt);
          assert (done + step) + rest.effects == done + (step + rest.effects);
          done := done + step;
      }
    }
    assert done + [] == done;
    NoTriesLeft(c, ins, tag, host.answers, host.calls);
    return GaveUp;
  }

  lemma NothingPerformed(h: Host, log: seq<Effect>)
    ensures Performed(h, log, [], h, log)
  {
    assert log + [] == log;
  }

  method SendInstruction(host: PayHost, c: CycleId, ins: Instruction, ghost tag: Tag, max: nat)
    returns (outcome: Outcome)
    modifies host
    ensures var t := SendOne(old(host.Tables()), c, ins, tag, host.answers, old(host.calls), max);
            && Performed(old(host.View()), old(host.log), t.effects, host.View(), host.log)
            && host.calls == t.calls && outcome == t.outcome
  {
    hide Performed, TryToSend;
    ghost var h0, l0 := host.View(), host.log;
    if AlreadyPaid(host.Tables(), c, ins.wallet) {
      host.Commit(MarkSkipped(c, ins.wallet));
      PerformedOne(h0, l0, Store(MarkSkipped(c, ins.wallet)), host.View(), host.log);
      return AlreadyThere;
    }
    ghost var t := TryToSend(c, ins, tag, host.answers, host.calls, max);
    outcome := TryLoop(host, c, ins, tag, max);
    if outcome.GaveUp? {
      ghost var h1, l1 := host.View(), host.log;
      host.Commit(MarkFailed(c, ins.wallet));
      PerformedOne(h1, l1, Store(MarkFailed(c, ins.wallet)), host.View(), host.log);
      PerformedMore(h0, l0, t.effects, h1, l1, [Store(MarkFailed(c, ins.wallet))], host.View(), host.log);
    }
  }

  method Execute(host: PayHost, p: Plan, ghost tag: Tag, max: nat) returns (report: Report)
    modifies host
    ensures var t := ExecuteTrace(old(host.View()), p, tag, host.answers, old(host.calls), max);
            && Performed(old(host.View()), old(host.log), t.effects, host.View(), host.log)
            && host.calls == t.calls && report == t.report
  {
    hide Performed, SendOne;
    ghost var h0, l0, k0 := host.View(), host.log, host.calls;
    report := EMPTY_REPORT;
    if p.blocked != [] {
      NothingPerformed(h0, l0);
      return report.(halted := true);
    }
    if p.dryRun {
      host.Commit(SetCycleState(p.cycle, CycleDryRun));
      PerformedOne(h0, l0, Store(SetCycleState(p.cycle, CycleDryRun)), host.View(), host.log);
      return;
    }
    ghost var t := ExecuteTrace(h0, p, tag, host.answers, k0, max);
    ghost var start := Store(SetCycleState(p.cycle, CycleSending));
    ghost var all := SendAll(Apply(h0, start), p.cycle, p.instructions, tag, host.answers, max,
                             Progress([start], k0, EMPTY_REPORT));
    host.Commit(SetCycleState(p.cycle, CycleSending));
    PerformedOne(h0, l0, start, host.View(), host.log);
    ghost var done := [start];
    var i := 0;
    assert p.instructions[0..] == p.instructions;
    while i < |p.instructions| && !report.halted
      invariant 0 <= i <= |p.instructions|
      invariant Performed(h0, l0, done, host.View(), host.log)
      invariant all == SendAll(host.View(), p.cycle, p.instructions[i..], tag, host.answers, max,
                               Progress(done, host.calls, report))
    {
      ghost var h1, l1 := host.View(), host.log;
      ghost var one := SendOne(host.Tables(), p.cycle, p.instructions[i], tag, host.answers, host.calls, max);
      var outcome := SendInstruction(host, p.cycle, p.instructions[i], tag, max);
      PerformedMore(h0, l0, done, h1, l1, one.effects, host.View(), host.log);
      assert p.instructions[i..][1..] == p.instructions[i + 1..];
      PerformedApplies(h1, l1, one.effects, host.View(), host.log);
      report := Note(report, p.instructions[i], outcome);
      done := done + one.effects;
      i := i + 1;
    }
    assert all == Progress(done, host.calls, report);
    ghost var h2, l2 := host.View(), host.log;
    ghost var final := Store(SetCycleState(p.cycle, if report.halted then CycleHalted else CycleSettled));
    host.Commit(SetCycleState(p.cycle, if report.halted then CycleHalted else CycleSettled));
    PerformedOne(h2, l2, final, host.View(), host.log);
    PerformedMore(h0, l0, done, h2, l2, [final], host.View(), host.log);
  }

  lemma PerformedApplies(since: Host, before: seq<Effect>, es: seq<Effect>, now: Host, log: seq<Effect>)
    requires Performed(since, before, es, now, log)
    ensures now == ApplyAll(since, es)
  {}
}

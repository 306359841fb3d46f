/** What a plan says of every allocation, and why it is blocked (orchard_chia/allocation/planner.py). */
module PlanDetails {
  import opened Ordering
  import opened Audit
  import opened Planner

  /** An allocation is paid when it is something and not dust, at most the cap. */
  ghost predicate Pays(a: Allocation, limits: Limits, ins: Instruction) {
    && ins.wallet == a.wallet && a.amount > 0 && a.amount >= limits.minPayout
    && ins.amount <= limits.maxPerWallet && ins.amount <= a.amount
    && (ins.amount == limits.maxPerWallet || ins.amount == a.amount)
  }

  /** What is not paid of an allocation, and the reason given. */
  ghost predicate Withholds(a: Allocation, limits: Limits, d: Dropped) {
    && d.wallet == a.wallet
    && match d.why
       case ZeroAllocation => a.amount <= 0 && d.amount == a.amount
       case BelowDust => 0 < a.amount < limits.minPayout && d.amount == a.amount
       case Capped => a.amount > 0 && a.amount >= limits.minPayout && d.amount == a.amount - limits.maxPerWallet > 0
  }

  lemma {:induction false} InstructionsDescribe(allocs: seq<Allocation>, limits: Limits, ins: Instruction)
    ensures ins in InstructionsOf(allocs, limits) <==> exists a :: a in allocs && Pays(a, limits, ins)
  {
    if allocs != [] {
      var front, last := allocs[..|allocs| - 1], allocs[|allocs| - 1];
      InstructionsDescribe(front, limits, ins);
      assert Pays(last, limits, ins)
        <==> Payable(last, limits) && ins == Instruction(last.wallet, Capping(last, limits));
      hide Pays, Payable, Capping;
      assert forall a :: a in allocs <==> a in front || a == last;
    }
  }

  lemma LastDrop(allocs: seq<Allocation>, limits: Limits, d: Dropped)
    requires allocs != []
    ensures d in DroppedOf(allocs, limits) <==>
              d in DroppedOf(allocs[..|allocs| - 1], limits) || Withholds(allocs[|allocs| - 1], limits, d)
  {}

  lemma {:induction false} DropsDescribe(allocs: seq<Allocation>, limits: Limits, d: Dropped)
    ensures d in DroppedOf(allocs, limits) <==> exists a :: a in allocs && Withholds(a, limits, d)
  {
    if allocs != [] {
      var front, last := allocs[..|allocs| - 1], allocs[|allocs| - 1];
      DropsDescribe(front, limits, d);
      LastDrop(allocs, limits, d);
      hide Withholds, DroppedOf;
      assert forall a :: a in allocs <==> a in front || a == last;
    }
  }

  lemma WhenIn(refused: bool, why: Block, b: Block)
    ensures b in When(refused, why) <==> refused && b == why
  {}

  /** Every reason to refuse is given when it is one, and only then. */
  lemma BlocksDescribe(db: Db, c: CycleId, allocs: seq<Allocation>, limits: Limits, balance: Option<int>, dryRun: bool,
                       b: Block)
    ensures var p := PlanOf(db, c, allocs, limits, balance, dryRun);
            b in p.blocked <==>
              match b
              case Paused => limits.paused
              case MidSend => exists k :: k in db.rows && db.rows[k].state == Sending
              case AlreadySent => c in db.cycles && TotalSent(db, c) > 0
              case OverCycleCap => Total(p.instructions) > limits.maxPerCycle
              case InsufficientBalance =>
                balance.Some? && Total(p.instructions) + limits.fee * |p.instructions| > balance.value
  {
    var ins := InstructionsOf(allocs, limits);
    WhenIn(limits.paused, Paused, b);
    WhenIn(InFlight(db), MidSend, b);
    WhenIn(c in db.cycles && TotalSent(db, c) > 0, AlreadySent, b);
    WhenIn(Total(ins) > limits.maxPerCycle, OverCycleCap, b);
    WhenIn(balance.Some? && Total(ins) + limits.fee * |ins| > balance.value, InsufficientBalance, b);
    hide TotalSent, Total, InstructionsOf, DroppedOf, When;
  }
}

/** The planner: every rule that can refuse a spend (orchard_chia/allocation/planner.py). */
module Planner {
  import opened Ordering
  import opened Audit

  datatype Allocation = Allocation(wallet: Wallet, amount: int)

  datatype Limits = Limits(maxPerCycle: int, maxPerWallet: int, minPayout: int, fee: int, paused: bool)

  datatype Instruction = Instruction(wallet: Wallet, amount: int)

  datatype Block = Paused | MidSend | AlreadySent | OverCycleCap | InsufficientBalance

  datatype DropReason = ZeroAllocation | BelowDust | Capped

  datatype Dropped = Dropped(wallet: Wallet, amount: int, why: DropReason)

  datatype Plan = Plan(cycle: CycleId, instructions: seq<Instruction>, dropped: seq<Dropped>,
                       blocked: seq<Block>, dryRun: bool)

  /** The per-wallet rules: nothing, too little, or no more than the cap. */
  predicate Payable(a: Allocation, limits: Limits) {
    a.amount > 0 && a.amount >= limits.minPayout
  }

  function Capping(a: Allocation, limits: Limits): int {
    if a.amount > limits.maxPerWallet then limits.maxPerWallet else a.amount
  }

  function InstructionsOf(allocs: seq<Allocation>, limits: Limits): seq<Instruction> {
    if allocs == [] then []
    else
      var a := allocs[|allocs| - 1];
      InstructionsOf(allocs[..|allocs| - 1], limits) +
      if Payable(a, limits) then [Instruction(a.wallet, Capping(a, limits))] else []
  }

  function DroppedOf(allocs: seq<Allocation>, limits: Limits): seq<Dropped> {
    if allocs == [] then []
    else
      var a := allocs[|allocs| - 1];
      DroppedOf(allocs[..|allocs| - 1], limits) +
      if a.amount <= 0 then [Dropped(a.wallet, a.amount, ZeroAllocation)]
      else if a.amount < limits.minPayout then [Dropped(a.wallet, a.amount, BelowDust)]
      else if a.amount > limits.maxPerWallet then [Dropped(a.wallet, a.amount - limits.maxPerWallet, Capped)]
      else []
  }

  function Total(ins: seq<Instruction>): int {
    if ins == [] then 0 else Total(ins[..|ins| - 1]) + ins[|ins| - 1].amount
  }

  function TotalDropped(ds: seq<Dropped>): int {
    if ds == [] then 0 else TotalDropped(ds[..|ds| - 1]) + ds[|ds| - 1].amount
  }

  function TotalAllocated(allocs: seq<Allocation>): int {
    if allocs == [] then 0 else TotalAllocated(allocs[..|allocs| - 1]) + allocs[|allocs| - 1].amount
  }

  function When(refused: bool, why: Block): seq<Block> {
    if refused then [why] else []
  }

  ghost function StoreBlocks(db: Db, c: CycleId, limits: Limits): seq<Block> {
    When(limits.paused, Paused) + When(InFlight(db), MidSend)
    + When(c in db.cycles && TotalSent(db, c) > 0, AlreadySent)
  }

  ghost function BlocksOf(db: Db, c: CycleId, ins: seq<Instruction>, limits: Limits, balance: Option<int>): seq<Block> {
    StoreBlocks(db, c, limits)
    + When(Total(ins) > limits.maxPerCycle, OverCycleCap)
    + When(balance.Some? && Total(ins) + limits.fee * |ins| > balance.value, InsufficientBalance)
  }

  ghost function PlanOf(db: Db, c: CycleId, allocs: seq<Allocation>, limits: Limits, balance: Option<int>,
                        dryRun: bool): Plan
  {
    var ins := InstructionsOf(allocs, limits);
    Plan(c, ins, DroppedOf(allocs, limits), BlocksOf(db, c, ins, limits, balance), dryRun)
  }

  /** `dropped` and `instructions` together account for every allocated mojo. */
  lemma {:induction false} NothingIsLost(allocs: seq<Allocation>, limits: Limits)
    ensures Total(InstructionsOf(allocs, limits)) + TotalDropped(DroppedOf(allocs, limits)) == TotalAllocated(allocs)
  {
    if allocs != [] {
      var init, a := allocs[..|allocs| - 1], allocs[|allocs| - 1];
      NothingIsLost(init, limits);
      var ins, ds := InstructionsOf(init, limits), DroppedOf(init, limits);
      var i := Instruction(a.wallet, Capping(a, limits));
      assert ins + [] == ins && ds + [] == ds;
      TotalSnoc(ins, i);
      if !Payable(a, limits) {
        DroppedSnoc(ds, Dropped(a.wallet, a.amount, if a.amount <= 0 then ZeroAllocation else BelowDust));
      } else if a.amount > limits.maxPerWallet {
        DroppedSnoc(ds, Dropped(a.wallet, a.amount - limits.maxPerWallet, Capped));
      }
    }
  }

  lemma DroppedSnoc(ds: seq<Dropped>, d: Dropped)
    ensures TotalDropped(ds + [d]) == TotalDropped(ds) + d.amount
  {
    assert (ds + [d])[..|ds|] == ds;
  }

  lemma TotalSnoc(ins: seq<Instruction>, i: Instruction)
    ensures Total(ins + [i]) == Total(ins) + i.amount
  {
    assert (ins + [i])[..|ins|] == ins;
  }

  /** A plan runs only if nothing was mid-send, nothing of this cycle had been sent, and both the
      per-cycle cap and the balance cover all of it. */
  lemma UnblockedPlan(db: Db, c: CycleId, allocs: seq<Allocation>, limits: Limits, balance: Option<int>, dryRun: bool)
    ensures var p := PlanOf(db, c, allocs, limits, balance, dryRun);
            p.blocked == [] <==>
              && !limits.paused && !InFlight(db) && (c in db.cycles ==> TotalSent(db, c) <= 0)
              && Total(p.instructions) <= limits.maxPerCycle
              && (balance.Some? ==> Total(p.instructions) + limits.fee * |p.instructions| <= balance.value)
  {
    hide TotalSent, Total, InFlight, InstructionsOf, DroppedOf;
  }

  method MakePlan(host: PayHost, c: CycleId, allocs: seq<Allocation>, limits: Limits, balance: Option<int>,
                  dryRun: bool)
    returns (p: Plan)
    ensures p.cycle == c && p.dryRun == dryRun
    ensures p == PlanOf(host.Tables(), c, allocs, limits, balance, dryRun)
  {
    var blocked := CheckStore(host, c, limits);
    var instructions, dropped, total := ApplyWalletRules(allocs, limits);
    hide InstructionsOf, DroppedOf, Total, StoreBlocks;
    if total > limits.maxPerCycle {
      blocked := blocked + [OverCycleCap];
    }
    assert blocked == StoreBlocks(host.Tables(), c, limits) + When(total > limits.maxPerCycle, OverCycleCap);
    var need := total + limits.fee * |instructions|;
    if balance.Some? && need > balance.value {
      blocked := blocked + [InsufficientBalance];
    }
    p := Plan(c, instructions, dropped, blocked, dryRun);
  }

  method CheckStore(host: PayHost, c: CycleId, limits: Limits) returns (blocked: seq<Block>)
    ensures blocked == StoreBlocks(host.Tables(), c, limits)
  {
    hide InFlight, TotalSent;
    blocked := [];
    if limits.paused {
      blocked := blocked + [Paused];
    }
    if InFlight(host.Tables()) {
      blocked := blocked + [MidSend];
    }
    assert blocked == When(limits.paused, Paused) + When(InFlight(host.Tables()), MidSend);
    if c in host.cycles {
      var sent := host.TotalSentMojos(c);
      if sent > 0 {
        blocked := blocked + [AlreadySent];
      }
    }
  }

  method ApplyWalletRules(allocs: seq<Allocation>, limits: Limits)
    returns (instructions: seq<Instruction>, dropped: seq<Dropped>, total: int)
    ensures instructions == InstructionsOf(allocs, limits) && dropped == DroppedOf(allocs, limits)
    ensures total == Total(instructions)
  {
    instructions, dropped := [], [];
    for i := 0 to |allocs|
      invariant instructions == InstructionsOf(allocs[..i], limits) && dropped == DroppedOf(allocs[..i], limits)
    {
      var a := allocs[i];
      assert allocs[..i + 1][..i] == allocs[..i];
      if a.amount <= 0 {
        dropped := dropped + [Dropped(a.wallet, a.amount, ZeroAllocation)];
        continue;
      }
      if a.amount < limits.minPayout {
        dropped := dropped + [Dropped(a.wallet, a.amount, BelowDust)];
        continue;
      }
      var amount := a.amount;
      if amount > limits.maxPerWallet {
        dropped := dropped + [Dropped(a.wallet, amount - limits.maxPerWallet, Capped)];
        amount := limits.maxPerWallet;
      }
      instructions := instructions + [Instruction(a.wallet, amount)];
    }
    assert allocs[..|allocs|] == allocs;
    total := 0;
    for i := 0 to |instructions|
      invariant total == Total(instructions[..i])
    {
      assert instructions[..i + 1][..i] == instructions[..i];
      total := total + instructions[i].amount;
    }
    assert instructions[..|instructions|] == instructions;
  }

  /** The writes that record a plan before anything is sent. */
  function PersistEffects(p: Plan): seq<Effect> {
    [Store(OpenCycle(p.cycle))] + Puts(p.cycle, p.instructions)
  }

  function Puts(c: CycleId, ins: seq<Instruction>): seq<Effect> {
    seq(|ins|, i requires 0 <= i < |ins| => Store(PutInstruction(c, ins[i].wallet, ins[i].amount)))
  }

  method Persist(host: PayHost, p: Plan)
    modifies host
    ensures host.log == old(host.log) + PersistEffects(p)
    ensures host.View() == ApplyAll(old(host.View()), PersistEffects(p))
    ensures host.calls == old(host.calls)
  {
    ghost var before := host.View();
    host.Commit(OpenCycle(p.cycle));
    ghost var done := [Store(OpenCycle(p.cycle))];
    ApplyOne(before, Store(OpenCycle(p.cycle)));
    for i := 0 to |p.instructions|
      invariant done == [Store(OpenCycle(p.cycle))] + Puts(p.cycle, p.instructions[..i])
      invariant host.log == old(host.log) + done && host.View() == ApplyAll(before, done)
      invariant host.calls == old(host.calls)
    {
      var ins := p.instructions[i];
      host.Commit(PutInstruction(p.cycle, ins.wallet, ins.amount));
      ghost var e := Store(PutInstruction(p.cycle, ins.wallet, ins.amount));
      ApplyAppend(before, done, [e]);
      ApplyOne(ApplyAll(before, done), e);
      assert Puts(p.cycle, p.instructions[..i + 1]) == Puts(p.cycle, p.instructions[..i]) + [e];
      done := done + [e];
    }
    assert p.instructions[..|p.instructions|] == p.instructions;
  }
}

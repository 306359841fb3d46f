/** One settled day, one payment cycle (orchard_chia/economics/payment.py and `_cmd_pay` in
    orchard_chia/economics/runner.py). */
module Payment {
  import opened Ordering
  import opened Audit
  import opened Planner
  import opened Executor

  /** What does not change from run to run: the instant of day 0 and the token. */
  datatype Site = Site(genesis: int, asset: string)

  /** One invocation. `maxCycle` and `maxWallet` are 0 when unset; `balance` is None when the wallet
      cannot say. */
  datatype Args = Args(dry: bool, ack: bool, day: Option<int>, maxCycle: int, maxWallet: int, balance: Option<int>)

  const DAY_SECONDS := 86_400
  const UNLIMITED := 0x4000_0000_0000_0000
  const MAX_ATTEMPTS := 3

  // What a day owes.

  function OwedMap(rows: seq<RewardRow>): map<Wallet, nat> {
    if rows == [] then map[]
    else
      var m, r := OwedMap(rows[..|rows| - 1]), rows[|rows| - 1];
      if r.mojos == 0 then m else m[r.wallet := r.mojos + if r.wallet in m then m[r.wallet] else 0]
  }

  function Distributed(rows: seq<RewardRow>): nat {
    if rows == [] then 0 else Distributed(rows[..|rows| - 1]) + rows[|rows| - 1].mojos
  }

  /** Wallets in address order, with what each is owed. */
  ghost function AllocationsOf(rows: seq<RewardRow>): seq<Allocation> {
    AllocationList(OwedMap(rows), Ascending(TextLe, OwedMap(rows).Keys))
  }

  function AllocationList(owed: map<Wallet, nat>, ws: seq<Wallet>): seq<Allocation> {
    seq(|ws|, i requires 0 <= i < |ws| => Allocation(ws[i], if ws[i] in owed then owed[ws[i]] else 0))
  }

  ghost function CycleFor(site: Site, day: int, rows: seq<RewardRow>): CycleId {
    var start := site.genesis + day * DAY_SECONDS;
    CycleIdFor(start, start + DAY_SECONDS, TotalAllocated(AllocationsOf(rows)), site.asset)
  }

  function OrUnlimited(n: int): int { if n == 0 then UNLIMITED else n }

  function LimitsFor(args: Args): Limits {
    Limits(OrUnlimited(args.maxCycle), OrUnlimited(args.maxWallet), 1, 0, false)
  }

  ghost function DayPlan(site: Site, h: Host, args: Args, day: int): Plan
    requires day in h.days
  {
    PlanOf(h.db, CycleFor(site, day, h.days[day]), AllocationsOf(h.days[day]), LimitsFor(args),
           if args.dry then None else args.balance, args.dry)
  }

  function UnpaidDays(h: Host): set<int> {
    set d | d in h.days && d !in h.paid && Distributed(h.days[d]) > 0
  }

  predicate Refused(h: Host, day: int) {
    day !in h.days || day in h.paid || OwedMap(h.days[day]) == map[]
  }

  datatype PayTrace = PayTrace(effects: seq<Effect>, exit: int)

  function TagFor(run: nat, args: Args): Tag {
    Tag(run, OrUnlimited(args.maxWallet), OrUnlimited(args.maxCycle))
  }

  /** Every durable effect of one `pay` invocation, in order, and its exit code. */
  ghost function PayEffects(site: Site, h: Host, args: Args, run: nat, answers: nat -> Answer): PayTrace {
    if !args.dry && !args.ack then PayTrace([], 2)
    else if site.asset == "" then PayTrace([], 2)
    else if !args.dry && (args.maxCycle <= 0 || args.maxWallet <= 0) then PayTrace([], 2)
    else if args.day.None? && UnpaidDays(h) == {} then PayTrace([], 0)
    else
      var day := if args.day.Some? then args.day.value else Ascending(IntLe, UnpaidDays(h))[0];
      PayDay(site, h, args, day, run, answers)
  }

  ghost function PayDay(site: Site, h: Host, args: Args, day: int, run: nat, answers: nat -> Answer): PayTrace {
    if Refused(h, day) then PayTrace([], 2)
    else
      var plan := DayPlan(site, h, args, day);
      var persist := PersistEffects(plan);
      var planned := ApplyAll(h, persist);
      if plan.blocked != [] && AllSent(planned.db, plan.cycle) then PayTrace(persist + [SetPaid(day, plan.cycle)], 0)
      else if args.dry then PayTrace(persist, 0)
      else
        var t := ExecuteTrace(planned, plan, TagFor(run, args), answers, 0, MAX_ATTEMPTS);
        if !Clean(t.report) then PayTrace(persist + t.effects, 3)
        else PayTrace(persist + t.effects + [SetPaid(day, plan.cycle)], 0)
  }

  // The methods.

  method CollectOwed(rows: seq<RewardRow>) returns (owed: map<Wallet, nat>)
    ensures owed == OwedMap(rows)
  {
    owed := map[];
    for i := 0 to |rows|
      invariant owed == OwedMap(rows[..i])
    {
      assert rows[..i + 1][..i] == rows[..i];
      var r := rows[i];
      if r.mojos > 0 {
        owed := owed[r.wallet := r.mojos + if r.wallet in owed then owed[r.wallet] else 0];
      }
    }
    assert rows[..|rows|] == rows;
  }

  method SumAllocations(allocs: seq<Allocation>) returns (total: int)
    ensures total == TotalAllocated(allocs)
  {
    total := 0;
    for i := 0 to |allocs|
      invariant total == TotalAllocated(allocs[..i])
    {
      assert allocs[..i + 1][..i] == allocs[..i];
      total := total + allocs[i].amount;
    }
    assert allocs[..|allocs|] == allocs;
  }

  method PlanDayPayment(host: PayHost, site: Site, args: Args, day: int) returns (plan: Option<Plan>)
    modifies host
    ensures plan.None? <==> Refused(old(host.View()), day)
    ensures plan.None? ==> host.View() == old(host.View()) && host.log == old(host.log)
    ensures plan.Some? ==>
              && plan.value == DayPlan(site, old(host.View()), args, day)
              && host.log == old(host.log) + PersistEffects(plan.value)
              && host.View() == ApplyAll(old(host.View()), PersistEffects(plan.value))
    ensures host.calls == old(host.calls)
  {
    hide OwedMap, ApplyAll, PlanOf, PersistEffects, TotalAllocated, AllocationList, Ascending;
    if day !in host.days || day in host.paid {
      return None;
    }
    var owed := CollectOwed(host.days[day]);
    if owed == map[] {
      return None;
    }
    var ws := AscendText(owed.Keys);
    var allocs := AllocationList(owed, ws);
    var total := SumAllocations(allocs);
    var start := site.genesis + day * DAY_SECONDS;
    var p := MakePlan(host, CycleIdFor(start, start + DAY_SECONDS, total, site.asset), allocs, LimitsFor(args),
                      if args.dry then None else args.balance, args.dry);
    Persist(host, p);
    plan := Some(p);
  }

  method OldestUnpaid(host: PayHost) returns (day: Option<int>)
    ensures day.None? <==> UnpaidDays(host.View()) == {}
    ensures day.Some? ==> |Ascending(IntLe, UnpaidDays(host.View()))| > 0
                          && day.value == Ascending(IntLe, UnpaidDays(host.View()))[0]
  {
    var unpaid := set d | d in host.days && d !in host.paid && Distributed(host.days[d]) > 0;
    assert unpaid == UnpaidDays(host.View());
    var ordered := Ascend(IntLe, unpaid);
    AscendingIsSortedListing(IntLe, unpaid);
    day := if |ordered| == 0 then None else Some(ordered[0]);
  }

  /** `pay`: what it does to the host is exactly the effects above. */
  method Pay(host: PayHost, site: Site, args: Args, ghost run: nat) returns (exit: int)
    requires host.calls == 0
    modifies host
    ensures var t := PayEffects(site, old(host.View()), args, run, host.answers);
            && host.log == old(host.log) + t.effects
            && host.View() == ApplyAll(old(host.View()), t.effects)
            && exit == t.exit
  {
    hide Refused, DayPlan, PersistEffects, ExecuteTrace, UnpaidDays, Ascending;
    assert host.log + [] == host.log;
    if !args.dry && !args.ack {
      return 2;
    }
    if site.asset == "" {
      return 2;
    }
    if !args.dry && (args.maxCycle <= 0 || args.maxWallet <= 0) {
      return 2;
    }
    var day := args.day;
    if day.None? {
      day := OldestUnpaid(host);
      if day.None? {
        return 0;
      }
    }
    exit := PayOneDay(host, site, args, day.value, run);
  }

  method PayOneDay(host: PayHost, site: Site, args: Args, day: int, ghost run: nat) returns (exit: int)
    requires host.calls == 0
    modifies host
    ensures var t := PayDay(site, old(host.View()), args, day, run, host.answers);
            && host.log == old(host.log) + t.effects
            && host.View() == ApplyAll(old(host.View()), t.effects)
            && exit == t.exit
  {
    hide Refused, DayPlan, PersistEffects, ExecuteTrace, ApplyAll;
    ghost var h0, l0 := host.View(), host.log;
    var planned := PlanDayPayment(host, site, args, day);
    NothingPerformed(h0, l0);
    if planned.None? {
      assert l0 + [] == l0;
      return 2;
    }
    var plan := planned.value;
    ghost var persist := PersistEffects(plan);
    ghost var h1, l1 := host.View(), host.log;
    assert Performed(h0, l0, persist, h1, l1);
    if plan.blocked != [] && AllSent(host.Tables(), plan.cycle) {
      host.MarkPaid(day, plan.cycle);
      PerformedOne(h1, l1, SetPaid(day, plan.cycle), host.View(), host.log);
      PerformedMore(h0, l0, persist, h1, l1, [SetPaid(day, plan.cycle)], host.View(), host.log);
      return 0;
    }
    if args.dry {
      return 0;
    }
    ghost var t := ExecuteTrace(h1, plan, TagFor(run, args), host.answers, 0, MAX_ATTEMPTS);
    var report := Execute(host, plan, TagFor(run, args), MAX_ATTEMPTS);
    ghost var h2, l2 := host.View(), host.log;
    PerformedMore(h0, l0, persist, h1, l1, t.effects, h2, l2);
    if !Clean(report) {
      return 3;
    }
    host.MarkPaid(day, plan.cycle);
    PerformedOne(h2, l2, SetPaid(day, plan.cycle), host.View(), host.log);
    PerformedMore(h0, l0, persist + t.effects, h2, l2, [SetPaid(day, plan.cycle)], host.View(), host.log);
    return 0;
  }
}

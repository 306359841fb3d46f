/** No sequence of pay runs, crashes and operator fixes pays a wallet twice for one day.

    A history is a list of events. A pay run may die after any number of its effects; between runs
    the ledger may settle further days, and the operator may resolve a row that was left `sending`
    by looking at the wallet. */
module PaymentSafety {
  import opened Ordering
  import opened Audit
  import opened Planner
  import opened Payment

  datatype System = System(host: Host, runs: nat)

  datatype Event =
    | PayRun(args: Args, answers: nat -> Answer, stop: nat)
    | SettleDay(day: int, rows: seq<RewardRow>)
    | Resolve(c: CycleId, w: Wallet, txId: string)

  /** The hypotheses under which the program's promise holds. An ordinary exception means the wallet
      did not accept the spend; a transaction id is never empty; the per-wallet cap is not negative
      (a live run checks this, a dry run does not). */
  ghost predicate Trusted(e: Event) { TrustedFrom(e, 0) }

  ghost predicate TrustedFrom(e: Event, least: int) {
    match e
    case PayRun(args, answers, _) =>
      && args.maxWallet >= least
      && (forall n: nat :: answers(n).Fault? ==> !answers(n).moved)
      && (forall n: nat :: answers(n).Accepted? ==> answers(n).txId != "")
    case SettleDay(_, _) => true
    case Resolve(_, _, txId) => txId != ""
  }

  ghost predicate WasMoved(h: Host, k: Key) {
    exists i :: 0 <= i < |h.moved| && SpendKey(h.moved[i]) == k
  }

  function SpendKey(x: Spend): Key { (x.cycle, x.wallet) }

  ghost function Next(site: Site, s: System, e: Event): System {
    match e
    case PayRun(args, answers, stop) =>
      var effects := PayEffects(site, s.host, args, s.runs, answers).effects;
      System(ApplyAll(s.host, effects[..if stop < |effects| then stop else |effects|]), s.runs + 1)
    case SettleDay(day, rows) =>
      if day in s.host.days then s else s.(host := s.host.(days := s.host.days[day := rows]))
    case Resolve(c, w, txId) =>
      if (c, w) !in s.host.db.rows || s.host.db.rows[(c, w)].state != Sending then s
      else if WasMoved(s.host, (c, w)) then s.(host := Apply(s.host, Store(MarkSent(c, w, txId))))
      else s.(host := Apply(s.host, Store(MarkFailed(c, w))))
  }

  ghost function History(site: Site, es: seq<Event>): System {
    if es == [] then System(Host(Db(map[], map[]), map[], map[], []), 0)
    else Next(site, History(site, es[..|es| - 1]), es[|es| - 1])
  }

  // The invariant.

  function DayOf(site: Site, c: CycleId): int { (c.start - site.genesis) / DAY_SECONDS }

  type Days = map<int, seq<RewardRow>>

  ghost function CycleOfDay(site: Site, days: Days, day: int): CycleId
    requires day in days
  {
    CycleFor(site, day, days[day])
  }

  lemma DayOfCycle(site: Site, days: Days, day: int)
    requires day in days
    ensures DayOf(site, CycleOfDay(site, days, day)) == day
  {}

  /** c is the cycle of a settled day, and w is owed something for it. */
  ghost predicate Owes(site: Site, days: Days, c: CycleId, w: Wallet) {
    var day := DayOf(site, c);
    day in days && c == CycleOfDay(site, days, day) && w in OwedMap(days[day])
  }

  function Least(a: int, b: int): int { if a <= b then a else b }

  ghost predicate RowsOk(site: Site, h: Host) {
    forall k :: k in h.db.rows ==> h.db.rows[k].amount > 0 && k.0 in h.db.cycles && Owes(site, h.days, k.0, k.1)
  }

  /** An accepted spend is on record, for the capped debt of its day, under caps that cover the day. */
  ghost predicate SpendOk(site: Site, h: Host, runs: nat, x: Spend) {
    && x.run < runs && SpendKey(x) in h.db.rows && h.db.rows[SpendKey(x)].state in {Sending, Sent}
    && Owes(site, h.days, x.cycle, x.wallet) && x.capWallet > 0
    && (var owed := OwedMap(h.days[DayOf(site, x.cycle)]);
        x.amount == Least(owed[x.wallet], x.capWallet) && SumCapped(owed, owed.Keys, x.capWallet) <= x.capCycle)
  }

  ghost predicate MovedOk(site: Site, h: Host, runs: nat) {
    forall i :: 0 <= i < |h.moved| ==> SpendOk(site, h, runs, h.moved[i])
  }

  /** Accepted spends have different keys, and those of one cycle come from one run under one plan. */
  ghost predicate OneEach(h: Host) {
    forall i, j :: 0 <= i < j < |h.moved| ==> Compatible(h.moved[i], h.moved[j])
  }

  predicate Compatible(x: Spend, y: Spend) {
    && SpendKey(x) != SpendKey(y)
    && (x.cycle == y.cycle ==> x.run == y.run && x.capWallet == y.capWallet && x.capCycle == y.capCycle)
  }

  ghost predicate SentOk(h: Host) {
    forall k :: RowSent(h, k) ==> h.db.rows[k].txId != "" && WasMoved(h, k)
  }

  ghost predicate PaidOk(site: Site, h: Host) {
    forall day :: day in h.paid ==>
      day in h.days && h.paid[day] == CycleOfDay(site, h.days, day) && DaySent(site, h, day)
  }

  ghost predicate DaySent(site: Site, h: Host, day: int)
    requires day in h.days
  {
    forall w :: w in OwedMap(h.days[day]) ==> RowSent(h, (CycleOfDay(site, h.days, day), w))
  }

  predicate RowSent(h: Host, k: Key) {
    k in h.db.rows && h.db.rows[k].state == Sent
  }

  ghost predicate Inv(site: Site, h: Host, runs: nat) {
    RowsOk(site, h) && MovedOk(site, h, runs) && OneEach(h) && SentOk(h) && PaidOk(site, h)
  }

  // Sums over a day's wallets.

  ghost function SumCapped(owed: map<Wallet, nat>, ws: set<Wallet>, cap: int): int
    requires ws <= owed.Keys
  {
    if ws == {} then 0
    else
      var w :| w in ws;
      Least(owed[w], cap) + SumCapped(owed, ws - {w}, cap)
  }

  lemma {:induction false} SumCappedStep(owed: map<Wallet, nat>, ws: set<Wallet>, cap: int, w: Wallet)
    requires ws <= owed.Keys && w in ws
    ensures SumCapped(owed, ws, cap) == Least(owed[w], cap) + SumCapped(owed, ws - {w}, cap)
  {
    var p :| p in ws && SumCapped(owed, ws, cap) == Least(owed[p], cap) + SumCapped(owed, ws - {p}, cap);
    if p != w {
      SumCappedStep(owed, ws - {p}, cap, w);
      SumCappedStep(owed, ws - {w}, cap, p);
      assert ws - {p} - {w} == ws - {w} - {p};
    }
  }

  lemma {:induction false} OwedIsPositive(rows: seq<RewardRow>)
    ensures forall w :: w in OwedMap(rows) ==> OwedMap(rows)[w] > 0
  {
    if rows != [] {
      OwedIsPositive(rows[..|rows| - 1]);
    }
  }

  lemma {:induction false} InstructionsAt(allocs: seq<Allocation>, limits: Limits)
    requires forall a :: a in allocs ==> Payable(a, limits)
    ensures |InstructionsOf(allocs, limits)| == |allocs|
    ensures forall i :: 0 <= i < |allocs| ==>
              InstructionsOf(allocs, limits)[i] == Instruction(allocs[i].wallet, Capping(allocs[i], limits))
  {
    if allocs != [] {
      InstructionsAt(allocs[..|allocs| - 1], limits);
    }
  }

  /** What a plan for a settled day contains: one instruction per owed wallet, for the capped debt. */
  ghost predicate CoversDay(owed: map<Wallet, nat>, ins: seq<Instruction>, cap: int) {
    && (forall i :: 0 <= i < |ins| ==>
          ins[i].wallet in owed && ins[i].amount == Least(owed[ins[i].wallet], cap) && ins[i].amount > 0)
    && (forall i, j :: 0 <= i < j < |ins| ==> ins[i].wallet != ins[j].wallet)
    && (forall w :: w in owed ==> exists i :: 0 <= i < |ins| && ins[i].wallet == w)
  }

  lemma DayPlanCovers(site: Site, h: Host, args: Args, day: int)
    requires day in h.days && OrUnlimited(args.maxWallet) > 0
    ensures CoversDay(OwedMap(h.days[day]), DayPlan(site, h, args, day).instructions, OrUnlimited(args.maxWallet))
  {
    var owed, limits := OwedMap(h.days[day]), LimitsFor(args);
    var ws, allocs := Ascending(TextLe, owed.Keys), AllocationsOf(h.days[day]);
    WalletsListed(owed);
    OwedIsPositive(h.days[day]);
    forall a | a in allocs ensures Payable(a, limits) {
      var i :| 0 <= i < |allocs| && a == allocs[i];
      assert ws[i] in owed;
    }
    InstructionsAt(allocs, limits);
    ListCovers(owed, ws, InstructionsOf(allocs, limits), limits.maxPerWallet);
  }

  lemma ListCovers(owed: map<Wallet, nat>, ws: seq<Wallet>, ins: seq<Instruction>, cap: int)
    requires Distinct(ws) && (forall w :: w in owed <==> w in ws) && |ins| == |ws| && cap > 0
    requires forall w :: w in owed ==> owed[w] > 0
    requires forall i :: 0 <= i < |ws| && ws[i] in owed ==> ins[i] == Instruction(ws[i], Least(owed[ws[i]], cap))
    ensures CoversDay(owed, ins, cap)
  {
    forall w | w in owed ensures exists i :: 0 <= i < |ins| && ins[i].wallet == w {
      var i :| 0 <= i < |ws| && ws[i] == w;
      assert ins[i].wallet == w;
    }
  }

  lemma WalletsListed(owed: map<Wallet, nat>)
    ensures var ws := Ascending(TextLe, owed.Keys); Distinct(ws) && forall w :: w in owed <==> w in ws
  {
    TextOrder();
    AscendingIsSortedListing(TextLe, owed.Keys);
    assert forall w :: w in owed <==> w in owed.Keys;
  }

  lemma {:induction false} TotalIsSum(owed: map<Wallet, nat>, ins: seq<Instruction>, ws: set<Wallet>, cap: int)
    requires ws <= owed.Keys
    requires forall i :: 0 <= i < |ins| ==> ins[i].wallet in ws && ins[i].amount == Least(owed[ins[i].wallet], cap)
    requires forall i, j :: 0 <= i < j < |ins| ==> ins[i].wallet != ins[j].wallet
    requires forall w :: w in ws ==> exists i :: 0 <= i < |ins| && ins[i].wallet == w
    ensures Total(ins) == SumCapped(owed, ws, cap)
  {
    if ins == [] {
      assert ws == {};
    } else {
      var last, init := ins[|ins| - 1], ins[..|ins| - 1];
      SumCappedStep(owed, ws, cap, last.wallet);
      forall w | w in ws - {last.wallet} ensures exists i :: 0 <= i < |init| && init[i].wallet == w {
        var i :| 0 <= i < |ins| && ins[i].wallet == w;
        assert init[i].wallet == w;
      }
      TotalIsSum(owed, init, ws - {last.wallet}, cap);
    }
  }

  // Every single effect a run performs keeps the invariant.

  ghost predicate Safe(site: Site, h: Host, runs: nat, es: seq<Effect>) {
    forall n :: 0 <= n <= |es| ==> Inv(site, ApplyAll(h, es[..n]), runs)
  }

  lemma SafeAppend(site: Site, h: Host, runs: nat, a: seq<Effect>, b: seq<Effect>)
    requires Safe(site, h, runs, a) && Safe(site, ApplyAll(h, a), runs, b)
    ensures Safe(site, h, runs, a + b)
  {
    hide Inv, ApplyAll;
    forall n | 0 <= n <= |a + b| ensures Inv(site, ApplyAll(h, (a + b)[..n]), runs) {
      if n <= |a| {
        assert (a + b)[..n] == a[..n];
      } else {
        assert (a + b)[..n] == a + b[..n - |a|];
        ApplyAppend(h, a, b[..n - |a|]);
      }
    }
  }

  lemma SafeOne(site: Site, h: Host, runs: nat, e: Effect)
    requires Inv(site, h, runs) && Inv(site, Apply(h, e), runs)
    ensures Safe(site, h, runs, [e])
  {
    hide Inv, Apply;
    ApplyOne(h, e);
    forall n | 0 <= n <= 1 ensures Inv(site, ApplyAll(h, [e][..n]), runs) {
      assert [e][..0] == [] && [e][..1] == [e];
    }
  }

  lemma SafeNothing(site: Site, h: Host, runs: nat)
    requires Inv(site, h, runs)
    ensures Safe(site, h, runs, [])
  {
    hide Inv;
  }

  lemma SafeEnd(site: Site, h: Host, runs: nat, es: seq<Effect>)
    requires Safe(site, h, runs, es)
    ensures Inv(site, h, runs) && Inv(site, ApplyAll(h, es), runs)
  {
    hide Inv;
    assert es[..|es|] == es && es[..0] == [];
  }

  /** A row that is not `sent` belongs to a day that is not marked paid. */
  lemma UnsentIsUnpaid(site: Site, h: Host, c: CycleId, w: Wallet)
    requires RowsOk(site, h) && PaidOk(site, h) && (c, w) in h.db.rows && h.db.rows[(c, w)].state != Sent
    ensures DayOf(site, c) !in h.paid
  {
    hide OwedMap, CycleOfDay;
    assert Owes(site, h.days, c, w);
  }

  lemma MovedKept(h: Host, h': Host)
    requires h.moved <= h'.moved
    ensures forall k :: WasMoved(h, k) ==> WasMoved(h', k)
  {
    forall k | WasMoved(h, k) ensures WasMoved(h', k) {
      var i :| 0 <= i < |h.moved| && SpendKey(h.moved[i]) == k;
      assert SpendKey(h'.moved[i]) == k;
    }
  }

  /** Changing one row's state in the ways the executor does. */
  lemma RowChange(site: Site, h: Host, runs: nat, c: CycleId, w: Wallet, r: Row)
    requires Inv(site, h, runs) && (c, w) in h.db.rows && h.db.rows[(c, w)].state != Sent
    requires r.amount == h.db.rows[(c, w)].amount
    requires r.state in {Sending, Failed, Sent}
    requires r.state == Failed ==> !WasMoved(h, (c, w))
    requires r.state == Sent ==> WasMoved(h, (c, w)) && r.txId != ""
    ensures Inv(site, h.(db := h.db.(rows := h.db.rows[(c, w) := r])), runs)
  {
    hide OwedMap, CycleFor, SumCapped;
    var h' := h.(db := h.db.(rows := h.db.rows[(c, w) := r]));
    UnsentIsUnpaid(site, h, c, w);
    MovedKept(h, h');
    forall day | day in h.paid ensures DaySent(site, h', day) {
      DayOfCycle(site, h.days, day);
      assert DaySent(site, h, day) && c != CycleOfDay(site, h.days, day);
    }
    forall i | 0 <= i < |h.moved| ensures SpendOk(site, h', runs, h.moved[i]) {
      assert SpendOk(site, h, runs, h.moved[i]);
    }
  }

  /** The wallet accepts a spend whose row is `sending` and was not accepted before. */
  lemma MoveStep(site: Site, h: Host, runs: nat, x: Spend)
    requires Inv(site, h, runs) && SpendOk(site, h, runs, x)
    requires forall i :: 0 <= i < |h.moved| ==> Compatible(h.moved[i], x)
    ensures Inv(site, Apply(h, Move(x)), runs)
  {
    hide OwedMap, CycleFor, SumCapped;
    var h' := Apply(h, Move(x));
    MovedKept(h, h');
    forall day | day in h.paid ensures DaySent(site, h', day) {
      assert DaySent(site, h, day);
    }
    forall i | 0 <= i < |h'.moved| ensures SpendOk(site, h', runs, h'.moved[i]) {
      assert SpendOk(site, h, runs, h'.moved[i]);
    }
  }

  /** Opening a cycle, changing its state or adding the row of an owed wallet. */
  lemma BookStep(site: Site, h: Host, runs: nat, x: Write)
    requires Inv(site, h, runs)
    requires x.OpenCycle? || x.SetCycleState? || x.PutInstruction?
    requires x.PutInstruction? ==> x.amount > 0 && x.c in h.db.cycles && Owes(site, h.days, x.c, x.w)
    ensures Inv(site, Apply(h, Store(x)), runs)
  {
    hide OwedMap, CycleFor, SumCapped;
    var h' := Apply(h, Store(x));
    MovedKept(h, h');
    assert forall k :: k in h.db.rows ==> k in h'.db.rows && h'.db.rows[k] == h.db.rows[k];
    assert forall k :: k in h'.db.rows && k !in h.db.rows ==> h'.db.rows[k].state == Planned;
    forall day | day in h.paid ensures DaySent(site, h', day) {
      assert DaySent(site, h, day);
    }
    forall i | 0 <= i < |h.moved| ensures SpendOk(site, h', runs, h.moved[i]) {
      assert SpendOk(site, h, runs, h.moved[i]);
    }
    forall k | RowSent(h', k) ensures h'.db.rows[k].txId != "" && WasMoved(h', k) {
      assert RowSent(h, k);
    }
  }

  lemma PaidStep(site: Site, h: Host, runs: nat, day: int)
    requires Inv(site, h, runs) && day in h.days && DaySent(site, h, day)
    ensures Inv(site, Apply(h, SetPaid(day, CycleOfDay(site, h.days, day))), runs)
  {
    hide OwedMap, CycleFor, SumCapped;
    var h' := Apply(h, SetPaid(day, CycleOfDay(site, h.days, day)));
    MovedKept(h, h');
    forall d | d in h'.paid ensures d in h'.days && DaySent(site, h', d) {
      assert d != day ==> DaySent(site, h, d);
    }
    forall i | 0 <= i < |h.moved| ensures SpendOk(site, h', runs, h.moved[i]) {
      assert SpendOk(site, h, runs, h.moved[i]);
    }
  }
}

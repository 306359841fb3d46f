/** What the payment stack promises, over every history of runs, crashes and operator fixes. */
module PaymentTheorems {
  import opened Ordering
  import opened Audit
  import opened Planner
  import opened Executor
  import opened Payment
  import opened PaymentSafety
  import opened PaymentHistory

  /** A run that dies after `stop` of its effects. */
  lemma CutRun(site: Site, h: Host, args: Args, run: nat, answers: nat -> Answer, es: seq<Effect>, stop: nat)
    requires PayEffects(site, h, args, run, answers).effects == es && stop <= |es|
    ensures Next(site, System(h, run), PayRun(args, answers, stop)) == System(ApplyAll(h, es[..stop]), run + 1)
  {
    hide PayEffects, ApplyAll;
  }

  lemma HistorySnoc(site: Site, es: seq<Event>, e: Event)
    ensures History(site, es + [e]) == Next(site, History(site, es), e)
  {
    hide Next;
    assert (es + [e])[..|es|] == es;
  }

  /** A crash after any of a run's effects leaves the invariant intact. */
  lemma PayOk(site: Site, h: Host, args: Args, run: nat, answers: nat -> Answer)
    requires Inv(site, h, run) && args.maxWallet >= 0 && TrustedAnswers(answers)
    ensures Safe(site, h, run + 1, PayEffects(site, h, args, run, answers).effects)
  {
    hide Inv, Safe, PayDay, Ascending;
    MoreRuns(site, h, run);
    SafeNothing(site, h, run + 1);
    if args.day.Some? {
      PayDayOk(site, h, args, args.day.value, run, answers);
    } else if UnpaidDays(h) != {} {
      AscendingIsSortedListing(IntLe, UnpaidDays(h));
      PayDayOk(site, h, args, Ascending(IntLe, UnpaidDays(h))[0], run, answers);
    }
  }

  lemma PayRunOk(site: Site, s: System, args: Args, answers: nat -> Answer, stop: nat)
    requires Inv(site, s.host, s.runs) && Trusted(PayRun(args, answers, stop))
    ensures var n := Next(site, s, PayRun(args, answers, stop)); Inv(site, n.host, n.runs)
  {
    hide Inv, PayEffects, Apply, ApplyAll;
    assert TrustedAnswers(answers);
    PayOk(site, s.host, args, s.runs, answers);
  }

  lemma NextOk(site: Site, s: System, e: Event)
    requires Inv(site, s.host, s.runs) && Trusted(e)
    ensures Inv(site, Next(site, s, e).host, Next(site, s, e).runs)
  {
    hide Inv, Next;
    match e
    case PayRun(args, answers, stop) => PayRunOk(site, s, args, answers, stop);
    case SettleDay(day, rows) => SettleOk(site, s, day, rows);
    case Resolve(c, w, txId) => ResolveOk(site, s, c, w, txId);
  }

  lemma SettleOk(site: Site, s: System, day: int, rows: seq<RewardRow>)
    requires Inv(site, s.host, s.runs)
    ensures var n := Next(site, s, SettleDay(day, rows)); Inv(site, n.host, n.runs)
  {
    hide OwedMap, CycleFor, SumCapped;
    if day !in s.host.days {
      var h, h' := s.host, s.host.(days := s.host.days[day := rows]);
      forall k | k in h.db.rows ensures Owes(site, h'.days, k.0, k.1) {
        assert Owes(site, h.days, k.0, k.1);
      }
      forall i | 0 <= i < |h.moved| ensures SpendOk(site, h', s.runs, h.moved[i]) {
        assert SpendOk(site, h, s.runs, h.moved[i]);
      }
      forall d | d in h.paid ensures d in h'.days && DaySent(site, h', d) {
        assert DaySent(site, h, d);
      }
      MovedKept(h, h');
    }
  }

  lemma ResolveOk(site: Site, s: System, c: CycleId, w: Wallet, txId: string)
    requires Inv(site, s.host, s.runs) && txId != ""
    ensures var n := Next(site, s, Resolve(c, w, txId)); Inv(site, n.host, n.runs)
  {
    hide Inv;
    var h, k := s.host, (c, w);
    if k in h.db.rows && h.db.rows[k].state == Sending {
      if WasMoved(h, k) {
        RowChange(site, h, s.runs, c, w, h.db.rows[k].(state := Sent, txId := txId));
      } else {
        RowChange(site, h, s.runs, c, w, h.db.rows[k].(state := Failed));
      }
    }
  }

  lemma {:induction false} HistoryOk(site: Site, es: seq<Event>)
    requires forall e :: e in es ==> Trusted(e)
    ensures Inv(site, History(site, es).host, History(site, es).runs)
  {
    if es != [] {
      hide Inv, Next, Trusted;
      HistoryOk(site, es[..|es| - 1]);
      NextOk(site, History(site, es[..|es| - 1]), es[|es| - 1]);
    }
  }

  /** At most once: no two spends the wallet ever accepted are for the same day and wallet, and every
      one of them is on record as sent or mid-send. */
  lemma AtMostOncePerDayAndWallet(site: Site, es: seq<Event>, i: nat, j: nat)
    requires forall e :: e in es ==> Trusted(e)
    requires i < j < |History(site, es).host.moved|
    ensures var h := History(site, es).host;
            && (DayOf(site, h.moved[i].cycle), h.moved[i].wallet) != (DayOf(site, h.moved[j].cycle), h.moved[j].wallet)
            && SpendKey(h.moved[i]) in h.db.rows && h.db.rows[SpendKey(h.moved[i])].state in {Sending, Sent}
  {
    HistoryOk(site, es);
    var s := History(site, es);
    hide OwedMap, CycleFor, SumCapped, Next, History;
    assert SpendOk(site, s.host, s.runs, s.host.moved[i]) && SpendOk(site, s.host, s.runs, s.host.moved[j]);
    assert Compatible(s.host.moved[i], s.host.moved[j]);
  }

  ghost function MovedTotal(moved: seq<Spend>, c: CycleId): int {
    if moved == [] then 0
    else MovedTotal(moved[..|moved| - 1], c) + if moved[|moved| - 1].cycle == c then moved[|moved| - 1].amount else 0
  }

  ghost function MovedWallets(moved: seq<Spend>, c: CycleId): set<Wallet> {
    set i | 0 <= i < |moved| && moved[i].cycle == c :: moved[i].wallet
  }

  lemma {:induction false} MovedTotalIsSum(owed: map<Wallet, nat>, moved: seq<Spend>, c: CycleId, cap: int)
    requires forall i, j :: 0 <= i < j < |moved| ==> SpendKey(moved[i]) != SpendKey(moved[j])
    requires forall i :: 0 <= i < |moved| && moved[i].cycle == c ==>
               moved[i].wallet in owed && moved[i].amount == PaymentSafety.Least(owed[moved[i].wallet], cap)
    ensures MovedWallets(moved, c) <= owed.Keys
    ensures MovedTotal(moved, c) == SumCapped(owed, MovedWallets(moved, c), cap)
  {
    if moved == [] {
      assert MovedWallets(moved, c) == {};
    } else {
      var init, last := moved[..|moved| - 1], moved[|moved| - 1];
      MovedTotalIsSum(owed, init, c, cap);
      MovedWalletsStep(moved, c);
      if last.cycle == c {
        SumCappedStep(owed, MovedWallets(moved, c), cap, last.wallet);
      }
    }
  }

  lemma MovedWalletsStep(moved: seq<Spend>, c: CycleId)
    requires moved != []
    requires forall i, j :: 0 <= i < j < |moved| ==> SpendKey(moved[i]) != SpendKey(moved[j])
    ensures var init, last := moved[..|moved| - 1], moved[|moved| - 1];
            if last.cycle == c then
              last.wallet in MovedWallets(moved, c) && MovedWallets(init, c) == MovedWallets(moved, c) - {last.wallet}
            else MovedWallets(init, c) == MovedWallets(moved, c)
  {
    var n := |moved| - 1;
    var init, last := moved[..n], moved[n];
    forall w
      ensures w in MovedWallets(moved, c) <==> w in MovedWallets(init, c) || (last.cycle == c && w == last.wallet)
    {
      if w in MovedWallets(moved, c) {
        var i :| 0 <= i < |moved| && moved[i].cycle == c && moved[i].wallet == w;
        if i < n { assert init[i] == moved[i]; }
      }
      if w in MovedWallets(init, c) {
        var i :| 0 <= i < |init| && init[i].cycle == c && init[i].wallet == w;
        assert moved[i] == init[i];
      }
    }
    forall i | 0 <= i < n && last.cycle == c && init[i].cycle == c ensures init[i].wallet != last.wallet {
      assert SpendKey(moved[i]) != SpendKey(moved[n]);
    }
  }

  lemma {:induction false} SumCappedMonotone(owed: map<Wallet, nat>, a: set<Wallet>, b: set<Wallet>, cap: int)
    requires a <= b <= owed.Keys && cap > 0
    ensures SumCapped(owed, a, cap) <= SumCapped(owed, b, cap)
    decreases |b|
  {
    if a == {} {
      if b != {} {
        var w :| w in b;
        SumCappedStep(owed, b, cap, w);
        SumCappedMonotone(owed, {}, b - {w}, cap);
      }
    } else {
      var w :| w in a;
      SumCappedStep(owed, a, cap, w);
      SumCappedStep(owed, b, cap, w);
      SumCappedMonotone(owed, a - {w}, b - {w}, cap);
    }
  }

  // A day's debt sums to what the ledger distributed.

  lemma {:induction false} SumCappedAgree(m: map<Wallet, nat>, n: map<Wallet, nat>, ws: set<Wallet>, cap: int,
                                          cap': int)
    requires ws <= m.Keys && ws <= n.Keys
    requires forall w :: w in ws ==> PaymentSafety.Least(m[w], cap) <= PaymentSafety.Least(n[w], cap')
    ensures SumCapped(m, ws, cap) <= SumCapped(n, ws, cap')
  {
    if ws != {} {
      var w :| w in ws;
      SumCappedStep(m, ws, cap, w);
      SumCappedStep(n, ws, cap', w);
      SumCappedAgree(m, n, ws - {w}, cap, cap');
    }
  }

  lemma {:induction false} DebtIsDistributed(rows: seq<RewardRow>, cap: int)
    requires cap >= Distributed(rows)
    ensures SumCapped(OwedMap(rows), OwedMap(rows).Keys, cap) == Distributed(rows)
    ensures forall w :: w in OwedMap(rows) ==> OwedMap(rows)[w] <= Distributed(rows)
  {
    if rows != [] {
      var init, r := rows[..|rows| - 1], rows[|rows| - 1];
      var m, n := OwedMap(init), OwedMap(rows);
      DebtIsDistributed(init, cap);
      if r.mojos > 0 {
        var others := m.Keys - {r.wallet};
        assert n.Keys == others + {r.wallet} && n.Keys - {r.wallet} == others;
        SumCappedStep(n, n.Keys, cap, r.wallet);
        SumCappedAgree(m, n, others, cap, cap);
        SumCappedAgree(n, m, others, cap, cap);
        if r.wallet in m {
          SumCappedStep(m, m.Keys, cap, r.wallet);
        } else {
          assert m.Keys == others;
        }
      }
    }
  }

  /** All accepted spends of a day come from one run with one pair of caps, and together they exceed
      neither that run's per-cycle cap nor what the day distributed. */
  lemma OnePlanPerDay(site: Site, es: seq<Event>, i: nat)
    requires forall e :: e in es ==> Trusted(e)
    requires i < |History(site, es).host.moved|
    ensures var h := History(site, es).host;
            var c := h.moved[i].cycle;
            && (forall j :: 0 <= j < |h.moved| && h.moved[j].cycle == c ==>
                  h.moved[j].run == h.moved[i].run && h.moved[j].capCycle == h.moved[i].capCycle)
            && MovedTotal(h.moved, c) <= h.moved[i].capCycle
            && DayOf(site, c) in h.days && MovedTotal(h.moved, c) <= Distributed(h.days[DayOf(site, c)])
  {
    hide Next, History, Inv, OwedMap, SumCapped, MovedWallets, MovedTotal;
    HistoryOk(site, es);
    var s := History(site, es);
    MovedOfCycle(site, s.host, s.runs, i);
    var h, x := s.host, s.host.moved[i];
    var rows := h.days[DayOf(site, x.cycle)];
    var owed := OwedMap(rows);
    SumCappedMonotone(owed, MovedWallets(h.moved, x.cycle), owed.Keys, x.capWallet);
    var big := Distributed(rows);
    DebtIsDistributed(rows, big);
    SumCappedAgree(owed, owed, owed.Keys, x.capWallet, big);
  }

  /** The accepted spends of a cycle sum to the capped debts of the wallets they went to. */
  lemma MovedOfCycle(site: Site, h: Host, runs: nat, i: nat)
    requires Inv(site, h, runs) && i < |h.moved|
    ensures var x := h.moved[i];
            && DayOf(site, x.cycle) in h.days && x.capWallet > 0
            && (var owed := OwedMap(h.days[DayOf(site, x.cycle)]);
                && MovedWallets(h.moved, x.cycle) <= owed.Keys
                && MovedTotal(h.moved, x.cycle) == SumCapped(owed, MovedWallets(h.moved, x.cycle), x.capWallet)
                && SumCapped(owed, owed.Keys, x.capWallet) <= x.capCycle)
    ensures forall j :: 0 <= j < |h.moved| && h.moved[j].cycle == h.moved[i].cycle ==>
              h.moved[j].run == h.moved[i].run && h.moved[j].capWallet == h.moved[i].capWallet
              && h.moved[j].capCycle == h.moved[i].capCycle
  {
    hide OwedMap, CycleFor, SumCapped;
    var x := h.moved[i];
    assert SpendOk(site, h, runs, x);
    forall j | 0 <= j < |h.moved| && h.moved[j].cycle == x.cycle
      ensures h.moved[j].run == x.run && h.moved[j].capWallet == x.capWallet && h.moved[j].capCycle == x.capCycle
      ensures SpendOk(site, h, runs, h.moved[j])
    {
      if j < i { assert Compatible(h.moved[j], x); }
      if i < j { assert Compatible(x, h.moved[j]); }
    }
    assert forall a, b :: 0 <= a < b < |h.moved| ==> Compatible(h.moved[a], h.moved[b]);
    MovedTotalIsSum(OwedMap(h.days[DayOf(site, x.cycle)]), h.moved, x.cycle, x.capWallet);
  }

  /** Spend i is the cycle's, and the cycle's spends make up min(owed, that spend's cap) for every wallet of the day. */
  ghost predicate PaysInFull(h: Host, day: int, c: CycleId, i: nat)
    requires i < |h.moved| && day in h.days
  {
    && h.moved[i].cycle == c && h.moved[i].capWallet > 0
    && MovedTotal(h.moved, c) == SumCapped(OwedMap(h.days[day]), OwedMap(h.days[day]).Keys, h.moved[i].capWallet)
  }

  /** A day is marked paid only when every row of its cycle is sent with a transaction id, and then the
      wallet has moved, in one run, exactly the sum over the day's wallets of min(owed, cap). */
  lemma PaidMeansPaid(site: Site, es: seq<Event>, day: int)
    requires forall e :: e in es ==> Trusted(e)
    requires day in History(site, es).host.paid
    ensures var h := History(site, es).host;
            var c := h.paid[day];
            && day in h.days && c == CycleOfDay(site, h.days, day)
            && (forall k :: k in h.db.rows && k.0 == c ==> h.db.rows[k].state == Sent && h.db.rows[k].txId != "")
            && (OwedMap(h.days[day]) != map[] ==> exists i :: 0 <= i < |h.moved| && PaysInFull(h, day, c, i))
  {
    HistoryOk(site, es);
    var s := History(site, es);
    hide Next, History, Inv, CycleOfDay, OwedMap;
    PaidRows(site, s.host, s.runs, day);
    PaidSum(site, s.host, s.runs, day);
  }

  lemma PaidSum(site: Site, h: Host, runs: nat, day: int)
    requires Inv(site, h, runs) && day in h.paid && day in h.days
    ensures OwedMap(h.days[day]) != map[] ==> exists i :: 0 <= i < |h.moved| && PaysInFull(h, day, h.paid[day], i)
  {
    hide Inv, CycleOfDay, OwedMap, MovedWallets, MovedTotal, SumCapped, DayOf;
    PaidRows(site, h, runs, day);
    var owed, c := OwedMap(h.days[day]), h.paid[day];
    if owed != map[] {
      assert |owed.Keys| == |owed| != 0;
      var w :| w in owed.Keys;
      assert WasMoved(h, (c, w));
      var i :| 0 <= i < |h.moved| && SpendKey(h.moved[i]) == (c, w);
      MovedOfCycle(site, h, runs, i);
      AllWalletsMoved(h, c, owed.Keys);
      assert MovedWallets(h.moved, c) == owed.Keys;
      assert PaysInFull(h, day, c, i);
    }
  }

  lemma AllWalletsMoved(h: Host, c: CycleId, ws: set<Wallet>)
    requires forall w :: w in ws ==> WasMoved(h, (c, w))
    ensures ws <= MovedWallets(h.moved, c)
  {
    forall v | v in ws ensures v in MovedWallets(h.moved, c) {
      assert WasMoved(h, (c, v));
      var j :| 0 <= j < |h.moved| && SpendKey(h.moved[j]) == (c, v);
      assert h.moved[j].cycle == c && h.moved[j].wallet == v;
    }
  }

  lemma PaidRows(site: Site, h: Host, runs: nat, day: int)
    requires Inv(site, h, runs) && day in h.paid
    ensures day in h.days && h.paid[day] == CycleOfDay(site, h.days, day) && DayOf(site, h.paid[day]) == day
    ensures forall k :: k in h.db.rows && k.0 == h.paid[day] ==> h.db.rows[k].state == Sent && h.db.rows[k].txId != ""
    ensures forall w :: w in OwedMap(h.days[day]) ==> WasMoved(h, (h.paid[day], w))
  {
    hide OwedMap, SumCapped;
    DayOfCycle(site, h.days, day);
    hide CycleFor, WasMoved;
    forall k | k in h.db.rows && k.0 == h.paid[day] ensures h.db.rows[k].state == Sent && h.db.rows[k].txId != "" {
      assert Owes(site, h.days, k.0, k.1) && DaySent(site, h, day);
      assert RowSent(h, k);
    }
    forall w | w in OwedMap(h.days[day]) ensures WasMoved(h, (h.paid[day], w)) {
      assert DaySent(site, h, day) && RowSent(h, (h.paid[day], w));
    }
  }

  /** After any trusted history, a live run whose plan is not blocked skips nothing: the branch that
      would overwrite a sent row is unreachable. */
  lemma UnblockedNeverSkips(site: Site, es: seq<Event>, args: Args, day: int, answers: nat -> Answer)
    requires forall e :: e in es ==> Trusted(e)
    requires day in History(site, es).host.days && args.maxWallet >= 0 && !args.dry && TrustedAnswers(answers)
    requires DayPlan(site, History(site, es).host, args, day).blocked == []
    ensures var s := History(site, es);
            var p := DayPlan(site, s.host, args, day);
            ExecuteTrace(ApplyAll(s.host, PersistEffects(p)), p, TagFor(s.runs, args), answers, 0, MAX_ATTEMPTS)
              .report.skipped == []
  {
    HistoryOk(site, es);
    hide History, Inv, ExecuteTrace;
    LiveRunOk(site, History(site, es).host, args, day, History(site, es).runs, answers);
  }

  // Why the hypotheses are needed.

  function MovesIn(es: seq<Effect>): nat {
    if es == [] then 0 else MovesIn(es[..|es| - 1]) + if es[|es| - 1].Move? then 1 else 0
  }

  lemma {:induction false} MovesInAppend(a: seq<Effect>, b: seq<Effect>)
    ensures MovesIn(a + b) == MovesIn(a) + MovesIn(b)
  {
    if b == [] {
      assert a + b == a;
    } else {
      MovesInAppend(a, b[..|b| - 1]);
      assert (a + b)[..|a + b| - 1] == a + b[..|b| - 1];
    }
  }

  predicate AllFaults(answers: nat -> Answer, k: nat, m: nat) {
    forall j: nat :: k <= j < m ==> answers(j).Fault?
  }

  /** Some attempt among the next `left` that the loop gets to is accepted by the wallet. */
  ghost predicate Reaches(answers: nat -> Answer, k: nat, left: nat) {
    exists m: nat :: k <= m < k + left && AllFaults(answers, k, m) && Moves(answers(m))
  }

  /** An exception hid an acceptance, and a later attempt is accepted too. */
  ghost predicate RetriedAfterAcceptance(answers: nat -> Answer, k: nat, left: nat) {
    exists n: nat, m: nat ::
      k <= n < m < k + left && AllFaults(answers, k, m) && answers(n) == Fault(true) && Moves(answers(m))
  }

  /** Retrying an instruction moves money at most once exactly when no exception hid an acceptance that a
      later attempt repeats. The retry rule covers every exception but one, so this is about the wallet. */
  lemma {:induction false} RetryIsSafeIff(c: CycleId, ins: Instruction, tag: Tag, answers: nat -> Answer, k: nat,
                                          left: nat)
    ensures MovesIn(TryToSend(c, ins, tag, answers, k, left).effects) <= 1
            <==> !RetriedAfterAcceptance(answers, k, left)
    ensures MovesIn(TryToSend(c, ins, tag, answers, k, left).effects) == 0 <==> !Reaches(answers, k, left)
    decreases left
  {
    if left > 0 {
      hide Reaches, RetriedAfterAcceptance, Attempt, MovesIn;
      var es, a := Attempt(c, ins, tag, answers(k)), answers(k);
      AttemptMoves(c, ins, tag, a);
      if a.Fault? {
        RetryIsSafeIff(c, ins, tag, answers, k + 1, left - 1);
        MovesInAppend(es, TryToSend(c, ins, tag, answers, k + 1, left - 1).effects);
        RetryUnfold(answers, k, left);
      } else {
        if a.Accepted? {
          MovesInOne(Store(MarkSent(c, ins.wallet, a.txId)));
          MovesInAppend(es, [Store(MarkSent(c, ins.wallet, a.txId))]);
        }
        StopsHere(answers, k, left);
      }
    }
  }

  lemma MovesInOne(e: Effect)
    ensures MovesIn([e]) == if e.Move? then 1 else 0
  {
    assert [e][..0] == [];
  }

  /** No wallet at all can make retrying move money twice exactly when there is no retrying. */
  lemma RetryIsSafeForEveryWalletIff(c: CycleId, ins: Instruction, tag: Tag, left: nat)
    ensures (forall answers: nat -> Answer :: MovesIn(TryToSend(c, ins, tag, answers, 0, left).effects) <= 1)
            <==> left <= 1
  {
    hide TryToSend, MovesIn;
    if left <= 1 {
      forall answers: nat -> Answer ensures MovesIn(TryToSend(c, ins, tag, answers, 0, left).effects) <= 1 {
        RetryIsSafeIff(c, ins, tag, answers, 0, left);
      }
    } else {
      var lost := (n: nat) => if n == 0 then Fault(true) else Accepted("tx");
      RetryIsSafeIff(c, ins, tag, lost, 0, left);
      assert AllFaults(lost, 0, 1) && lost(0) == Fault(true) && Moves(lost(1));
      assert RetriedAfterAcceptance(lost, 0, left);
    }
  }

  lemma StopsHere(answers: nat -> Answer, k: nat, left: nat)
    requires left > 0 && !answers(k).Fault?
    ensures !RetriedAfterAcceptance(answers, k, left) && (Reaches(answers, k, left) <==> Moves(answers(k)))
  {
    assert AllFaults(answers, k, k);
    forall m: nat | k < m ensures !AllFaults(answers, k, m) {
      assert !answers(k).Fault?;
    }
  }

  lemma AttemptMoves(c: CycleId, ins: Instruction, tag: Tag, a: Answer)
    ensures MovesIn(Attempt(c, ins, tag, a)) == if Moves(a) then 1 else 0
  {
    var mark := [Store(MarkSending(c, ins.wallet))];
    assert MovesIn(mark) == MovesIn([]);
    MovesInAppend(mark, if Moves(a) then [Move(SpendOf(c, ins, tag))] else []);
    assert MovesIn([Move(SpendOf(c, ins, tag))]) == MovesIn([]) + 1;
  }

  lemma RetryUnfold(answers: nat -> Answer, k: nat, left: nat)
    requires left > 0 && answers(k).Fault?
    ensures Reaches(answers, k, left) <==> answers(k).moved || Reaches(answers, k + 1, left - 1)
    ensures RetriedAfterAcceptance(answers, k, left) <==>
              (answers(k).moved && Reaches(answers, k + 1, left - 1))
              || RetriedAfterAcceptance(answers, k + 1, left - 1)
  {
    forall m: nat | m > k ensures AllFaults(answers, k, m) <==> AllFaults(answers, k + 1, m) {}
    assert AllFaults(answers, k, k);
    if answers(k).moved && Reaches(answers, k + 1, left - 1) {
      var m: nat :| k + 1 <= m < k + left && AllFaults(answers, k + 1, m) && Moves(answers(m));
      assert answers(k) == Fault(true) && AllFaults(answers, k, m);
    }
  }
}

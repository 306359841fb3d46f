/** One pay run, step by step: every prefix of what it does keeps the invariant. */
module PaymentHistory {
  import opened Ordering
  import opened Audit
  import opened Planner
  import opened Executor
  import opened Payment
  import opened PaymentSafety

  // A live run of one day's cycle.

  ghost function OwedFor(site: Site, days: Days, c: CycleId): map<Wallet, nat> {
    if DayOf(site, c) in days then OwedMap(days[DayOf(site, c)]) else map[]
  }

  /** The invariant, and: everything accepted for this cycle was accepted by this very run. */
  ghost predicate RunOk(site: Site, h: Host, runs: nat, c: CycleId, tag: Tag) {
    && Inv(site, h, runs) && tag.run < runs && tag.capWallet > 0
    && DayOf(site, c) in h.days && c == CycleOfDay(site, h.days, DayOf(site, c))
    && SumCapped(OwedFor(site, h.days, c), OwedFor(site, h.days, c).Keys, tag.capWallet) <= tag.capCycle
    && forall i :: 0 <= i < |h.moved| && h.moved[i].cycle == c ==>
         h.moved[i].run == tag.run && h.moved[i].capWallet == tag.capWallet && h.moved[i].capCycle == tag.capCycle
  }

  /** The instruction pays its wallet's capped debt, and its row exists. */
  ghost predicate Backed(site: Site, h: Host, c: CycleId, ins: Instruction, tag: Tag) {
    var owed := OwedFor(site, h.days, c);
    && (c, ins.wallet) in h.db.rows && ins.wallet in owed
    && ins.amount == PaymentSafety.Least(owed[ins.wallet], tag.capWallet)
  }

  ghost predicate NotSent(h: Host, k: Key) {
    k in h.db.rows && h.db.rows[k].state != Sent && !WasMoved(h, k)
  }

  /** Nothing but the given row, and what the wallet accepted, has changed. */
  ghost predicate OnlyRow(h: Host, h': Host, k: Key) {
    && h'.days == h.days && h'.paid == h.paid && h'.db.cycles.Keys == h.db.cycles.Keys
    && h'.db.rows.Keys == h.db.rows.Keys
    && (forall j :: j in h.db.rows && j != k ==> h'.db.rows[j] == h.db.rows[j])
    && (forall j :: j != k ==> (WasMoved(h', j) <==> WasMoved(h, j)))
  }

  lemma OnlyRowTransitive(a: Host, b: Host, c: Host, k: Key)
    requires OnlyRow(a, b, k) && OnlyRow(b, c, k)
    ensures OnlyRow(a, c, k)
  {
    hide WasMoved;
  }

  lemma MarkSendingOk(site: Site, h: Host, runs: nat, c: CycleId, ins: Instruction, tag: Tag)
    requires RunOk(site, h, runs, c, tag) && Backed(site, h, c, ins, tag) && NotSent(h, (c, ins.wallet))
    ensures var h' := Apply(h, Store(MarkSending(c, ins.wallet)));
            && RunOk(site, h', runs, c, tag) && OnlyRow(h, h', (c, ins.wallet)) && NotSent(h', (c, ins.wallet))
            && Backed(site, h', c, ins, tag) && (c, ins.wallet) in h'.db.rows
            && h'.db.rows[(c, ins.wallet)].state == Sending
  {
    hide OwedMap, CycleFor, SumCapped, Inv;
    var k := (c, ins.wallet);
    var r := h.db.rows[k].(state := Sending, attempts := h.db.rows[k].attempts + 1);
    RowChange(site, h, runs, c, ins.wallet, r);
    assert Apply(h, Store(MarkSending(c, ins.wallet))) == h.(db := h.db.(rows := h.db.rows[k := r]));
  }

  lemma MoveOk(site: Site, h: Host, runs: nat, c: CycleId, ins: Instruction, tag: Tag)
    requires RunOk(site, h, runs, c, tag) && Backed(site, h, c, ins, tag) && NotSent(h, (c, ins.wallet))
    requires h.db.rows[(c, ins.wallet)].state == Sending
    ensures var h' := Apply(h, Move(SpendOf(c, ins, tag)));
            && RunOk(site, h', runs, c, tag) && OnlyRow(h, h', (c, ins.wallet)) && WasMoved(h', (c, ins.wallet))
            && h'.db == h.db
  {
    hide OwedMap, CycleFor, SumCapped;
    var x := SpendOf(c, ins, tag);
    var h' := Apply(h, Move(x));
    assert SpendKey(x) == (c, ins.wallet);
    forall i | 0 <= i < |h.moved| ensures Compatible(h.moved[i], x) {
      assert SpendKey(h.moved[i]) == SpendKey(x) ==> WasMoved(h, (c, ins.wallet));
    }
    MoveStep(site, h, runs, x);
    assert SpendKey(h'.moved[|h.moved|]) == (c, ins.wallet);
    MovedKept(h, h');
    forall j | j != (c, ins.wallet) && WasMoved(h', j) ensures WasMoved(h, j) {
      var i :| 0 <= i < |h'.moved| && SpendKey(h'.moved[i]) == j;
      assert SpendKey(h.moved[i]) == j;
    }
  }

  /** One attempt: the row is left `sending`, and was accepted exactly when the wallet moved. */
  lemma AttemptOk(site: Site, h: Host, runs: nat, c: CycleId, ins: Instruction, tag: Tag, a: Answer)
    requires RunOk(site, h, runs, c, tag) && Backed(site, h, c, ins, tag) && NotSent(h, (c, ins.wallet))
    ensures var es := Attempt(c, ins, tag, a);
            var h' := ApplyAll(h, es);
            && Safe(site, h, runs, es) && RunOk(site, h', runs, c, tag) && OnlyRow(h, h', (c, ins.wallet))
            && h'.db.rows[(c, ins.wallet)].state == Sending && (WasMoved(h', (c, ins.wallet)) <==> Moves(a))
  {
    hide *;
    var mark := Store(MarkSending(c, ins.wallet));
    MarkSendingOk(site, h, runs, c, ins, tag);
    MarkedIsFresh(Apply(h, mark), (c, ins.wallet));
    RunOkInv(site, h, runs, c, tag);
    RunOkInv(site, Apply(h, mark), runs, c, tag);
    SafeOne(site, h, runs, mark);
    ApplyOne(h, mark);
    AttemptSteps(c, ins, tag, a);
    if Moves(a) { AcceptOk(site, h, runs, c, ins, tag); }
  }

  lemma AttemptSteps(c: CycleId, ins: Instruction, tag: Tag, a: Answer)
    ensures var mark := Store(MarkSending(c, ins.wallet));
            Attempt(c, ins, tag, a) == if Moves(a) then [mark] + [Move(SpendOf(c, ins, tag))] else [mark]
  {
    assert [Store(MarkSending(c, ins.wallet))] + [] == [Store(MarkSending(c, ins.wallet))];
  }

  lemma MarkedIsFresh(h: Host, k: Key)
    requires NotSent(h, k)
    ensures k in h.db.rows && !WasMoved(h, k)
  {
    hide WasMoved;
  }

  /** The row is marked, and the wallet accepts. */
  lemma AcceptOk(site: Site, h: Host, runs: nat, c: CycleId, ins: Instruction, tag: Tag)
    requires RunOk(site, h, runs, c, tag) && Backed(site, h, c, ins, tag) && NotSent(h, (c, ins.wallet))
    ensures var es := [Store(MarkSending(c, ins.wallet))] + [Move(SpendOf(c, ins, tag))];
            var h' := ApplyAll(h, es);
            && Safe(site, h, runs, es) && RunOk(site, h', runs, c, tag) && OnlyRow(h, h', (c, ins.wallet))
            && (c, ins.wallet) in h'.db.rows && h'.db.rows[(c, ins.wallet)].state == Sending
            && WasMoved(h', (c, ins.wallet))
  {
    hide *;
    var mark, move := Store(MarkSending(c, ins.wallet)), Move(SpendOf(c, ins, tag));
    var h1 := Apply(h, mark);
    MarkSendingOk(site, h, runs, c, ins, tag);
    MoveOk(site, h1, runs, c, ins, tag);
    RunOkInv(site, h, runs, c, tag);
    RunOkInv(site, h1, runs, c, tag);
    RunOkInv(site, Apply(h1, move), runs, c, tag);
    OnlyRowTransitive(h, h1, Apply(h1, move), (c, ins.wallet));
    SafeOne(site, h, runs, mark);
    SafeOne(site, h1, runs, move);
    ApplyOne(h, mark);
    ApplyOne(h1, move);
    SafeAppend(site, h, runs, [mark], [move]);
    ApplyAppend(h, [mark], [move]);
  }

  lemma MarkSentOk(site: Site, h: Host, runs: nat, c: CycleId, w: Wallet, tag: Tag, tx: string)
    requires RunOk(site, h, runs, c, tag) && (c, w) in h.db.rows && h.db.rows[(c, w)].state == Sending
    requires WasMoved(h, (c, w)) && tx != ""
    ensures var h' := Apply(h, Store(MarkSent(c, w, tx)));
            RunOk(site, h', runs, c, tag) && OnlyRow(h, h', (c, w)) && RowSent(h', (c, w))
  {
    hide OwedMap, CycleFor, SumCapped, Inv;
    var r := h.db.rows[(c, w)].(state := Sent, txId := tx);
    RowChange(site, h, runs, c, w, r);
    assert Apply(h, Store(MarkSent(c, w, tx))) == h.(db := h.db.(rows := h.db.rows[(c, w) := r]));
  }

  lemma MarkFailedOk(site: Site, h: Host, runs: nat, c: CycleId, w: Wallet, tag: Tag)
    requires RunOk(site, h, runs, c, tag) && NotSent(h, (c, w))
    ensures var h' := Apply(h, Store(MarkFailed(c, w)));
            RunOk(site, h', runs, c, tag) && OnlyRow(h, h', (c, w))
  {
    hide OwedMap, CycleFor, SumCapped, Inv;
    var r := h.db.rows[(c, w)].(state := Failed);
    RowChange(site, h, runs, c, w, r);
    assert Apply(h, Store(MarkFailed(c, w))) == h.(db := h.db.(rows := h.db.rows[(c, w) := r]));
  }

  ghost predicate TrustedAnswers(answers: nat -> Answer) {
    && (forall n: nat :: answers(n).Fault? ==> !answers(n).moved)
    && (forall n: nat :: answers(n).Accepted? ==> answers(n).txId != "")
  }

  /** What trying to send one instruction leaves behind. */
  ghost predicate Tried(site: Site, h: Host, runs: nat, c: CycleId, w: Wallet, tag: Tag, t: Tries) {
    var h' := ApplyAll(h, t.effects);
    && Safe(site, h, runs, t.effects) && RunOk(site, h', runs, c, tag) && OnlyRow(h, h', (c, w))
    && !t.outcome.AlreadyThere?
    && (t.outcome.Done? ==> RowSent(h', (c, w)))
    && (t.outcome.GaveUp? ==> NotSent(h', (c, w)))
  }

  lemma {:induction false} TryOk(site: Site, h: Host, runs: nat, c: CycleId, ins: Instruction, tag: Tag,
                                 answers: nat -> Answer, k: nat, left: nat)
    requires RunOk(site, h, runs, c, tag) && Backed(site, h, c, ins, tag) && NotSent(h, (c, ins.wallet))
    requires TrustedAnswers(answers)
    ensures Tried(site, h, runs, c, ins.wallet, tag, TryToSend(c, ins, tag, answers, k, left))
    decreases left
  {
    hide Apply, Backed, NotSent, Inv, Safe, SumCapped, CycleOfDay, Tried, OnlyRow, Attempt;
    if left == 0 {
      TryNothing(site, h, runs, c, ins.wallet, tag, k);
    } else {
      var es := Attempt(c, ins, tag, answers(k));
      var h1 := ApplyAll(h, es);
      AttemptOk(site, h, runs, c, ins, tag, answers(k));
      match answers(k)
      case Accepted(tx) => AcceptedOk(site, h, runs, c, ins, tag, answers(k), k + 1);
      case NoTxId(_) => UnknownOk(site, h, runs, c, ins, tag, answers(k), k + 1);
      case Fault(_) =>
        FaultStaysFresh(site, h, runs, c, ins, tag, answers(k));
        TryOk(site, h1, runs, c, ins, tag, answers, k + 1, left - 1);
        Chain(site, h, runs, c, ins.wallet, tag, es, TryToSend(c, ins, tag, answers, k + 1, left - 1));
    }
  }

  lemma TryNothing(site: Site, h: Host, runs: nat, c: CycleId, w: Wallet, tag: Tag, k: nat)
    requires RunOk(site, h, runs, c, tag) && NotSent(h, (c, w))
    ensures Tried(site, h, runs, c, w, tag, Tries([], k, GaveUp))
  {
    hide Inv, WasMoved, SumCapped, CycleOfDay;
    SafeNothing(site, h, runs);
  }

  lemma AcceptedOk(site: Site, h: Host, runs: nat, c: CycleId, ins: Instruction, tag: Tag, a: Answer, calls: nat)
    requires RunOk(site, h, runs, c, tag) && Backed(site, h, c, ins, tag) && NotSent(h, (c, ins.wallet))
    requires a.Accepted? && a.txId != ""
    ensures Tried(site, h, runs, c, ins.wallet, tag,
                  Tries(Attempt(c, ins, tag, a) + [Store(MarkSent(c, ins.wallet, a.txId))], calls, Done(a.txId)))
  {
    hide Apply, OnlyRow, Backed, NotSent, Attempt, Inv, Safe, SumCapped, CycleOfDay;
    var es, mark := Attempt(c, ins, tag, a), Store(MarkSent(c, ins.wallet, a.txId));
    AttemptOk(site, h, runs, c, ins, tag, a);
    var h1 := ApplyAll(h, es);
    RowPresent(h, h1, (c, ins.wallet));
    MarkSentOk(site, h1, runs, c, ins.wallet, tag, a.txId);
    SafeOne(site, h1, runs, mark);
    ApplyOne(h1, mark);
    SafeAppend(site, h, runs, es, [mark]);
    ApplyAppend(h, es, [mark]);
    OnlyRowTransitive(h, h1, Apply(h1, mark), (c, ins.wallet));
  }

  lemma UnknownOk(site: Site, h: Host, runs: nat, c: CycleId, ins: Instruction, tag: Tag, a: Answer, calls: nat)
    requires RunOk(site, h, runs, c, tag) && Backed(site, h, c, ins, tag) && NotSent(h, (c, ins.wallet))
    ensures Tried(site, h, runs, c, ins.wallet, tag, Tries(Attempt(c, ins, tag, a), calls, Unknown))
  {
    hide Apply, OnlyRow, Backed, NotSent, Attempt, Inv, Safe, SumCapped, CycleOfDay;
    AttemptOk(site, h, runs, c, ins, tag, a);
  }

  lemma FaultStaysFresh(site: Site, h: Host, runs: nat, c: CycleId, ins: Instruction, tag: Tag, a: Answer)
    requires RunOk(site, h, runs, c, tag) && Backed(site, h, c, ins, tag) && NotSent(h, (c, ins.wallet))
    requires a.Fault? && !a.moved
    ensures var h1 := ApplyAll(h, Attempt(c, ins, tag, a));
            && Safe(site, h, runs, Attempt(c, ins, tag, a)) && RunOk(site, h1, runs, c, tag)
            && OnlyRow(h, h1, (c, ins.wallet)) && Backed(site, h1, c, ins, tag) && NotSent(h1, (c, ins.wallet))
  {
    hide Attempt, Inv, Safe, SumCapped, CycleOfDay, Apply, WasMoved;
    AttemptOk(site, h, runs, c, ins, tag, a);
  }

  lemma RowPresent(h: Host, h': Host, k: Key)
    requires OnlyRow(h, h', k) && NotSent(h, k)
    ensures k in h'.db.rows
  {}

  lemma Chain(site: Site, h: Host, runs: nat, c: CycleId, w: Wallet, tag: Tag, es: seq<Effect>, rest: Tries)
    requires Safe(site, h, runs, es) && OnlyRow(h, ApplyAll(h, es), (c, w))
    requires Tried(site, ApplyAll(h, es), runs, c, w, tag, rest)
    ensures Tried(site, h, runs, c, w, tag, Tries(es + rest.effects, rest.calls, rest.outcome))
  {
    hide OnlyRow, NotSent, RowSent, Safe, RunOk;
    SafeAppend(site, h, runs, es, rest.effects);
    ApplyAppend(h, es, rest.effects);
    OnlyRowTransitive(h, ApplyAll(h, es), ApplyAll(h, es + rest.effects), (c, w));
  }

  /** An instruction whose row is neither sent nor mid-send is tried, never skipped. */
  lemma SendOneOk(site: Site, h: Host, runs: nat, c: CycleId, ins: Instruction, tag: Tag,
                  answers: nat -> Answer, k: nat, max: nat)
    requires RunOk(site, h, runs, c, tag) && Backed(site, h, c, ins, tag) && !AlreadyPaid(h.db, c, ins.wallet)
    requires TrustedAnswers(answers)
    ensures var t := SendOne(h.db, c, ins, tag, answers, k, max);
            var h' := ApplyAll(h, t.effects);
            && Safe(site, h, runs, t.effects) && RunOk(site, h', runs, c, tag) && OnlyRow(h, h', (c, ins.wallet))
            && !t.outcome.AlreadyThere? && (t.outcome.Done? ==> RowSent(h', (c, ins.wallet)))
  {
    UnpaidIsFresh(site, h, runs, c, ins.wallet);
    hide Apply, OnlyRow, Backed, NotSent, RowSent, AlreadyPaid, Safe, RunOk, TryToSend;
    TryOk(site, h, runs, c, ins, tag, answers, k, max);
    var t := TryToSend(c, ins, tag, answers, k, max);
    if t.outcome.GaveUp? {
      var h1, fail := ApplyAll(h, t.effects), Store(MarkFailed(c, ins.wallet));
      MarkFailedOk(site, h1, runs, c, ins.wallet, tag);
      RunOkInv(site, h1, runs, c, tag);
      RunOkInv(site, Apply(h1, fail), runs, c, tag);
      SafeOne(site, h1, runs, fail);
      ApplyOne(h1, fail);
      SafeAppend(site, h, runs, t.effects, [fail]);
      ApplyAppend(h, t.effects, [fail]);
      OnlyRowTransitive(h, h1, Apply(h1, fail), (c, ins.wallet));
    }
  }

  lemma RunOkInv(site: Site, h: Host, runs: nat, c: CycleId, tag: Tag)
    requires RunOk(site, h, runs, c, tag)
    ensures Inv(site, h, runs)
  {
    hide Inv;
  }

  lemma UnpaidIsFresh(site: Site, h: Host, runs: nat, c: CycleId, w: Wallet)
    requires Inv(site, h, runs) && (c, w) in h.db.rows && !AlreadyPaid(h.db, c, w)
    ensures NotSent(h, (c, w))
  {
    hide OwedMap, CycleFor, SumCapped;
    forall i | 0 <= i < |h.moved| ensures SpendKey(h.moved[i]) != (c, w) {
      assert SpendOk(site, h, runs, h.moved[i]);
    }
  }

  // A whole plan.

  ghost predicate Ready(site: Site, h: Host, c: CycleId, todo: seq<Instruction>, tag: Tag) {
    && (forall i :: 0 <= i < |todo| ==> Backed(site, h, c, todo[i], tag) && !AlreadyPaid(h.db, c, todo[i].wallet))
    && (forall i, j :: 0 <= i < j < |todo| ==> todo[i].wallet != todo[j].wallet)
  }

  /** Rows of other cycles, and rows outside `todo`, are as before. */
  ghost predicate OnlyRows(h: Host, h': Host, c: CycleId, todo: seq<Instruction>) {
    && h'.days == h.days && h'.paid == h.paid
    && (forall k :: k in h.db.rows && (k.0 != c || forall i :: 0 <= i < |todo| ==> todo[i].wallet != k.1) ==>
          k in h'.db.rows && h'.db.rows[k] == h.db.rows[k])
  }

  /** What sending `todo` adds to `done`, and what it achieves. */
  ghost predicate SentThrough(site: Site, h: Host, runs: nat, c: CycleId, todo: seq<Instruction>, tag: Tag,
                              done: Progress, all: Progress, more: seq<Effect>) {
    var h' := ApplyAll(h, more);
    && all.effects == done.effects + more
    && Safe(site, h, runs, more) && RunOk(site, h', runs, c, tag) && OnlyRows(h, h', c, todo)
    && all.report.skipped == done.report.skipped
    && (Clean(all.report) ==> Clean(done.report) && forall i :: 0 <= i < |todo| ==> RowSent(h', (c, todo[i].wallet)))
  }

  lemma {:induction false} SendAllOk(site: Site, h: Host, runs: nat, c: CycleId, todo: seq<Instruction>, tag: Tag,
                                     answers: nat -> Answer, max: nat, done: Progress) returns (more: seq<Effect>)
    requires RunOk(site, h, runs, c, tag) && Ready(site, h, c, todo, tag) && TrustedAnswers(answers)
    ensures SentThrough(site, h, runs, c, todo, tag, done, SendAll(h, c, todo, tag, answers, max, done), more)
    decreases |todo|
  {
    if todo == [] || done.report.halted {
      more := [];
      SendNothing(site, h, runs, c, todo, tag, done);
    } else {
      var one := SendOne(h.db, c, todo[0], tag, answers, done.calls, max);
      SendOneOk(site, h, runs, c, todo[0], tag, answers, done.calls, max);
      var h1 := ApplyAll(h, one.effects);
      var done1 := Progress(done.effects + one.effects, one.calls, Note(done.report, todo[0], one.outcome));
      StillReady(site, h, h1, c, todo, tag);
      var rest := SendAllOk(site, h1, runs, c, todo[1..], tag, answers, max, done1);
      more := one.effects + rest;
      Extend(site, h, runs, c, todo, tag, done, one, SendAll(h1, c, todo[1..], tag, answers, max, done1), rest);
    }
  }

  lemma SendNothing(site: Site, h: Host, runs: nat, c: CycleId, todo: seq<Instruction>, tag: Tag, done: Progress)
    requires RunOk(site, h, runs, c, tag) && (todo == [] || done.report.halted)
    ensures SentThrough(site, h, runs, c, todo, tag, done, done, [])
  {
    hide Inv, SumCapped, CycleOfDay, WasMoved;
    SafeNothing(site, h, runs);
    assert done.effects + [] == done.effects;
  }

  lemma StillReady(site: Site, h: Host, h1: Host, c: CycleId, todo: seq<Instruction>, tag: Tag)
    requires todo != [] && Ready(site, h, c, todo, tag) && OnlyRow(h, h1, (c, todo[0].wallet))
    ensures Ready(site, h1, c, todo[1..], tag)
  {
    hide OwedFor, WasMoved;
    forall i | 0 <= i < |todo| - 1
      ensures Backed(site, h1, c, todo[1..][i], tag) && !AlreadyPaid(h1.db, c, todo[1..][i].wallet)
    {
      assert Backed(site, h, c, todo[i + 1], tag) && todo[0].wallet != todo[i + 1].wallet;
    }
  }

  lemma Extend(site: Site, h: Host, runs: nat, c: CycleId, todo: seq<Instruction>, tag: Tag, done: Progress, one: Tries,
               all: Progress, rest: seq<Effect>)
    requires todo != [] && !done.report.halted && (forall i :: 0 < i < |todo| ==> todo[0].wallet != todo[i].wallet)
    requires Safe(site, h, runs, one.effects) && OnlyRow(h, ApplyAll(h, one.effects), (c, todo[0].wallet))
    requires !one.outcome.AlreadyThere?
    requires one.outcome.Done? ==> RowSent(ApplyAll(h, one.effects), (c, todo[0].wallet))
    requires SentThrough(site, ApplyAll(h, one.effects), runs, c, todo[1..], tag,
                         Progress(done.effects + one.effects, one.calls, Note(done.report, todo[0], one.outcome)),
                         all, rest)
    ensures SentThrough(site, h, runs, c, todo, tag, done, all, one.effects + rest)
  {
    hide Safe, RunOk, WasMoved;
    var h1 := ApplyAll(h, one.effects);
    var h2 := ApplyAll(h1, rest);
    SafeAppend(site, h, runs, one.effects, rest);
    ApplyAppend(h, one.effects, rest);
    assert (done.effects + one.effects) + rest == done.effects + (one.effects + rest);
    assert OnlyRows(h, h2, c, todo) by {
      forall k | k in h.db.rows && (k.0 != c || forall i :: 0 <= i < |todo| ==> todo[i].wallet != k.1)
        ensures k in h2.db.rows && h2.db.rows[k] == h.db.rows[k]
      {
        assert k != (c, todo[0].wallet);
        assert k.0 != c || forall i :: 0 <= i < |todo[1..]| ==> todo[1..][i].wallet != k.1;
      }
    }
    if Clean(all.report) {
      assert one.outcome.Done?;
      forall i | 0 <= i < |todo| ensures RowSent(h2, (c, todo[i].wallet)) {
        if i > 0 { assert todo[1..][i - 1] == todo[i]; }
      }
    }
  }

  // Planning and persisting.

  /** Only planned rows of this cycle have been added. */
  ghost predicate OnlyPlanned(h: Host, h': Host, c: CycleId) {
    && h'.days == h.days && h'.paid == h.paid && h'.moved == h.moved
    && (forall k :: k in h.db.rows ==> k in h'.db.rows && h'.db.rows[k] == h.db.rows[k])
    && (forall k :: k in h'.db.rows && k !in h.db.rows ==> k.0 == c && h'.db.rows[k].state == Planned)
  }

  lemma {:induction false} PutsOk(site: Site, h: Host, runs: nat, c: CycleId, ins: seq<Instruction>)
    requires Inv(site, h, runs) && c in h.db.cycles
    requires forall i :: 0 <= i < |ins| ==> ins[i].amount > 0 && Owes(site, h.days, c, ins[i].wallet)
    ensures var h' := ApplyAll(h, Puts(c, ins));
            && Safe(site, h, runs, Puts(c, ins)) && OnlyPlanned(h, h', c) && c in h'.db.cycles
            && forall i :: 0 <= i < |ins| ==> (c, ins[i].wallet) in h'.db.rows
  {
    hide Inv, Owes, Safe;
    if ins == [] {
      assert Puts(c, ins) == [];
      SafeNothing(site, h, runs);
    } else {
      hide Apply, ApplyAll, OnlyPlanned, Puts;
      var init, last := ins[..|ins| - 1], ins[|ins| - 1];
      var e := Store(PutInstruction(c, last.wallet, last.amount));
      PutsOk(site, h, runs, c, init);
      var h1 := ApplyAll(h, Puts(c, init));
      OnePut(h, h1, c, last.wallet, last.amount);
      PutsSnoc(c, init, last);
      assert init + [last] == ins;
      SafeEnd(site, h, runs, Puts(c, init));
      BookStep(site, h1, runs, PutInstruction(c, last.wallet, last.amount));
      SafeOne(site, h1, runs, e);
      ApplyOne(h1, e);
      SafeAppend(site, h, runs, Puts(c, init), [e]);
      ApplyAppend(h, Puts(c, init), [e]);
    }
  }

  lemma PutsSnoc(c: CycleId, init: seq<Instruction>, last: Instruction)
    ensures Puts(c, init + [last]) == Puts(c, init) + [Store(PutInstruction(c, last.wallet, last.amount))]
  {}

  lemma OnePut(h: Host, h1: Host, c: CycleId, w: Wallet, amount: int)
    requires OnlyPlanned(h, h1, c) && c in h1.db.cycles
    ensures var h2 := Apply(h1, Store(PutInstruction(c, w, amount)));
            && OnlyPlanned(h, h2, c) && c in h2.db.cycles && (c, w) in h2.db.rows
            && forall k :: k in h1.db.rows ==> k in h2.db.rows
  {}

  lemma PersistOk(site: Site, h: Host, runs: nat, args: Args, day: int)
    requires Inv(site, h, runs) && day in h.days && args.maxWallet >= 0
    ensures var p := DayPlan(site, h, args, day);
            var h' := ApplyAll(h, PersistEffects(p));
            && Safe(site, h, runs, PersistEffects(p)) && OnlyPlanned(h, h', p.cycle)
            && CoversDay(OwedMap(h.days[day]), p.instructions, OrUnlimited(args.maxWallet))
            && p.cycle == CycleOfDay(site, h.days, day)
            && forall w :: w in OwedMap(h.days[day]) ==> (p.cycle, w) in h'.db.rows
  {
    var p, owed := DayPlan(site, h, args, day), OwedMap(h.days[day]);
    DayPlanCovers(site, h, args, day);
    DayOfCycle(site, h.days, day);
    assert p.cycle == CycleOfDay(site, h.days, day);
    forall i | 0 <= i < |p.instructions|
      ensures p.instructions[i].amount > 0 && Owes(site, h.days, p.cycle, p.instructions[i].wallet)
    {
      hide OwedMap, CycleOfDay, DayPlan;
    }
    hide OwedMap, DayPlan, CycleOfDay, Owes, Safe, PersistEffects, Inv;
    PersistPlanOk(site, h, runs, p);
    var h' := ApplyAll(h, PersistEffects(p));
    forall w | w in owed ensures (p.cycle, w) in h'.db.rows {
      var i :| 0 <= i < |p.instructions| && p.instructions[i].wallet == w;
    }
  }

  lemma PersistPlanOk(site: Site, h: Host, runs: nat, p: Plan)
    requires Inv(site, h, runs)
    requires forall i :: 0 <= i < |p.instructions| ==>
               p.instructions[i].amount > 0 && Owes(site, h.days, p.cycle, p.instructions[i].wallet)
    ensures var h' := ApplyAll(h, PersistEffects(p));
            && Safe(site, h, runs, PersistEffects(p)) && OnlyPlanned(h, h', p.cycle)
            && forall i :: 0 <= i < |p.instructions| ==> (p.cycle, p.instructions[i].wallet) in h'.db.rows
  {
    hide Inv, Safe, Owes, Puts;
    var open := Store(OpenCycle(p.cycle));
    var h1 := Apply(h, open);
    BookStep(site, h, runs, OpenCycle(p.cycle));
    SafeOne(site, h, runs, open);
    ApplyOne(h, open);
    PutsOk(site, h1, runs, p.cycle, p.instructions);
    SafeAppend(site, h, runs, [open], Puts(p.cycle, p.instructions));
    ApplyAppend(h, [open], Puts(p.cycle, p.instructions));
  }

  /** An unblocked plan finds its cycle untouched: no row sent or mid-send, no spend ever accepted. */
  lemma UnblockedIsUntouched(site: Site, h: Host, runs: nat, args: Args, day: int)
    requires Inv(site, h, runs) && day in h.days && DayPlan(site, h, args, day).blocked == []
    ensures var c := CycleOfDay(site, h.days, day);
            && (forall w :: !AlreadyPaid(h.db, c, w))
            && (forall i :: 0 <= i < |h.moved| ==> h.moved[i].cycle != c)
    ensures Total(DayPlan(site, h, args, day).instructions) <= OrUnlimited(args.maxCycle)
  {
    var c := CycleOfDay(site, h.days, day);
    var balance := if args.dry then None else args.balance;
    UnblockedPlan(h.db, c, AllocationsOf(h.days[day]), LimitsFor(args), balance, args.dry);
    hide OwedMap, AllocationsOf, CycleFor, SumCapped, InstructionsOf;
    if c in h.db.cycles {
      SumIsPositive(h.db.rows, SentKeys(h.db, c));
    }
    forall w ensures !AlreadyPaid(h.db, c, w) {
      assert (c, w) in h.db.rows ==> c in h.db.cycles;
      assert AlreadyPaid(h.db, c, w) ==> (c, w) in SentKeys(h.db, c);
    }
    forall i | 0 <= i < |h.moved| ensures h.moved[i].cycle != c {
      assert SpendOk(site, h, runs, h.moved[i]);
      assert AlreadyPaid(h.db, h.moved[i].cycle, h.moved[i].wallet);
    }
  }

  lemma MoreRuns(site: Site, h: Host, runs: nat)
    requires Inv(site, h, runs)
    ensures Inv(site, h, runs + 1)
  {
    hide Owes, SumCapped, OwedMap;
    forall i | 0 <= i < |h.moved| ensures SpendOk(site, h, runs + 1, h.moved[i]) {
      assert SpendOk(site, h, runs, h.moved[i]);
    }
  }

  lemma StartOk(site: Site, h: Host, planned: Host, args: Args, day: int, run: nat)
    requires Inv(site, h, run) && day in h.days && args.maxWallet >= 0 && DayPlan(site, h, args, day).blocked == []
    requires Inv(site, planned, run + 1)
    requires OnlyPlanned(h, planned, CycleOfDay(site, h.days, day))
    requires CoversDay(OwedMap(h.days[day]), DayPlan(site, h, args, day).instructions, OrUnlimited(args.maxWallet))
    requires forall w :: w in OwedMap(h.days[day]) ==> (CycleOfDay(site, h.days, day), w) in planned.db.rows
    ensures var c := CycleOfDay(site, h.days, day);
            && RunOk(site, planned, run + 1, c, TagFor(run, args))
            && Ready(site, planned, c, DayPlan(site, h, args, day).instructions, TagFor(run, args))
  {
    hide Inv, OwedMap, DayPlan, SumCapped, Total, Owes, CoversDay, Ready, CycleFor, AlreadyPaid;
    UnblockedIsUntouched(site, h, run, args, day);
    DayOfCycle(site, h.days, day);
    var c, owed, ins := CycleOfDay(site, h.days, day), OwedMap(h.days[day]), DayPlan(site, h, args, day).instructions;
    CoveredTotal(owed, ins, OrUnlimited(args.maxWallet));
    assert OwedFor(site, planned.days, c) == owed;
    hide OwedFor, CycleOfDay;
    CoveredIsReady(site, h, planned, c, ins, TagFor(run, args));
  }

  lemma CoveredTotal(owed: map<Wallet, nat>, ins: seq<Instruction>, cap: int)
    requires CoversDay(owed, ins, cap)
    ensures Total(ins) == SumCapped(owed, owed.Keys, cap)
  {
    hide SumCapped, Total;
    TotalIsSum(owed, ins, owed.Keys, cap);
  }

  lemma CoveredIsReady(site: Site, h: Host, planned: Host, c: CycleId, ins: seq<Instruction>, tag: Tag)
    requires OnlyPlanned(h, planned, c) && CoversDay(OwedFor(site, planned.days, c), ins, tag.capWallet)
    requires forall w :: w in OwedFor(site, planned.days, c) ==> (c, w) in planned.db.rows
    requires forall w :: !AlreadyPaid(h.db, c, w)
    ensures Ready(site, planned, c, ins, tag)
  {
    hide OwedFor;
    forall i | 0 <= i < |ins|
      ensures Backed(site, planned, c, ins[i], tag) && !AlreadyPaid(planned.db, c, ins[i].wallet)
    {
      assert !AlreadyPaid(h.db, c, ins[i].wallet);
    }
  }

  /** A live run: every prefix of what it does keeps the invariant, it never takes the
      already-sent branch, and a clean report means every wallet of the day has been sent. */
  lemma LiveRunOk(site: Site, h: Host, args: Args, day: int, run: nat, answers: nat -> Answer)
    requires Inv(site, h, run) && day in h.days && args.maxWallet >= 0 && TrustedAnswers(answers)
    requires var p := DayPlan(site, h, args, day); p.blocked == [] && !p.dryRun
    ensures var p := DayPlan(site, h, args, day);
            var planned := ApplyAll(h, PersistEffects(p));
            var t := ExecuteTrace(planned, p, TagFor(run, args), answers, 0, MAX_ATTEMPTS);
            var h' := ApplyAll(planned, t.effects);
            && Safe(site, planned, run + 1, t.effects) && t.report.skipped == []
            && h'.days == h.days && (Clean(t.report) ==> DaySent(site, h', day))
  {
    var p, tag := DayPlan(site, h, args, day), TagFor(run, args);
    var planned := ApplyAll(h, PersistEffects(p));
    PersistOk(site, h, run, args, day);
    SafeEnd(site, h, run, PersistEffects(p));
    MoreRuns(site, planned, run);
    StartOk(site, h, planned, args, day, run);
    var covered := p.instructions;
    hide Inv, OwedMap, DayPlan, CycleOfDay, Safe, Ready, RunOk, PersistEffects, TagFor;
    ExecuteOk(site, planned, run + 1, p, tag, answers);
    var t := ExecuteTrace(planned, p, tag, answers, 0, MAX_ATTEMPTS);
    if Clean(t.report) {
      var h' := ApplyAll(planned, t.effects);
      forall w | w in OwedMap(h.days[day]) ensures RowSent(h', (p.cycle, w)) {
        var i :| 0 <= i < |covered| && covered[i].wallet == w;
      }
    }
  }

  lemma ExecuteOk(site: Site, planned: Host, runs: nat, p: Plan, tag: Tag, answers: nat -> Answer)
    requires p.blocked == [] && !p.dryRun && TrustedAnswers(answers)
    requires RunOk(site, planned, runs, p.cycle, tag) && Ready(site, planned, p.cycle, p.instructions, tag)
    ensures var t := ExecuteTrace(planned, p, tag, answers, 0, MAX_ATTEMPTS);
            var h' := ApplyAll(planned, t.effects);
            && Safe(site, planned, runs, t.effects) && t.report.skipped == [] && h'.days == planned.days
            && (Clean(t.report) ==>
                  forall i :: 0 <= i < |p.instructions| ==> RowSent(h', (p.cycle, p.instructions[i].wallet)))
  {
    hide Inv, RunOk, Ready, SendAll, Apply, ApplyAll, Safe;
    var start := Store(SetCycleState(p.cycle, CycleSending));
    var h1 := Apply(planned, start);
    StartSending(site, planned, runs, p, tag);
    var done := Progress([start], 0, EMPTY_REPORT);
    var sent := SendAll(h1, p.cycle, p.instructions, tag, answers, MAX_ATTEMPTS, done);
    var more := SendAllOk(site, h1, runs, p.cycle, p.instructions, tag, answers, MAX_ATTEMPTS, done);
    var h2 := ApplyAll(h1, more);
    var endState := if sent.report.halted then CycleHalted else CycleSettled;
    var final := Store(SetCycleState(p.cycle, endState));
    BookStepRun(site, h2, runs, p.cycle, tag, endState);
    RunOkInv(site, h2, runs, p.cycle, tag);
    Sandwich(site, planned, runs, start, more, final);
    assert sent.effects + [final] == [start] + more + [final];
  }

  lemma StartSending(site: Site, planned: Host, runs: nat, p: Plan, tag: Tag)
    requires RunOk(site, planned, runs, p.cycle, tag) && Ready(site, planned, p.cycle, p.instructions, tag)
    ensures var h1 := Apply(planned, Store(SetCycleState(p.cycle, CycleSending)));
            && Inv(site, planned, runs) && Inv(site, h1, runs) && h1.days == planned.days
            && RunOk(site, h1, runs, p.cycle, tag) && Ready(site, h1, p.cycle, p.instructions, tag)
  {
    hide Inv, OwedFor, SumCapped, CycleOfDay;
    BookStepRun(site, planned, runs, p.cycle, tag, CycleSending);
    ReadySame(site, planned, Apply(planned, Store(SetCycleState(p.cycle, CycleSending))), p.cycle, p.instructions, tag);
  }

  lemma Sandwich(site: Site, h: Host, runs: nat, start: Effect, more: seq<Effect>, final: Effect)
    requires Inv(site, h, runs) && Inv(site, Apply(h, start), runs)
    requires Safe(site, Apply(h, start), runs, more)
    requires Inv(site, ApplyAll(Apply(h, start), more), runs)
    requires Inv(site, Apply(ApplyAll(Apply(h, start), more), final), runs)
    ensures Safe(site, h, runs, [start] + more + [final])
    ensures ApplyAll(h, [start] + more + [final]) == Apply(ApplyAll(Apply(h, start), more), final)
  {
    hide Inv, Safe, Apply;
    SafeOne(site, h, runs, start);
    ApplyOne(h, start);
    SafeAppend(site, h, runs, [start], more);
    ApplyAppend(h, [start], more);
    var h2 := ApplyAll(h, [start] + more);
    SafeOne(site, h2, runs, final);
    ApplyOne(h2, final);
    SafeAppend(site, h, runs, [start] + more, [final]);
    ApplyAppend(h, [start] + more, [final]);
  }

  lemma BookStepRun(site: Site, h: Host, runs: nat, c: CycleId, tag: Tag, st: CycleState)
    requires RunOk(site, h, runs, c, tag)
    ensures RunOk(site, Apply(h, Store(SetCycleState(c, st))), runs, c, tag)
    ensures var h' := Apply(h, Store(SetCycleState(c, st)));
            Inv(site, h', runs) && h'.db.rows == h.db.rows && h'.days == h.days
  {
    hide Inv, OwedMap, CycleOfDay, SumCapped;
    BookStep(site, h, runs, SetCycleState(c, st));
  }

  lemma ReadySame(site: Site, h: Host, h1: Host, c: CycleId, todo: seq<Instruction>, tag: Tag)
    requires Ready(site, h, c, todo, tag) && h1.db.rows == h.db.rows && h1.days == h.days
    ensures Ready(site, h1, c, todo, tag)
  {
    hide OwedFor;
    forall i | 0 <= i < |todo| ensures Backed(site, h1, c, todo[i], tag) && !AlreadyPaid(h1.db, c, todo[i].wallet) {
      assert Backed(site, h, c, todo[i], tag);
    }
  }

  /** When every row of the cycle is sent after persisting, every wallet of the day has been sent. */
  lemma HealOk(site: Site, h: Host, planned: Host, day: int)
    requires day in h.days && OnlyPlanned(h, planned, CycleOfDay(site, h.days, day))
    requires forall w :: w in OwedMap(h.days[day]) ==> (CycleOfDay(site, h.days, day), w) in planned.db.rows
    requires AllSent(planned.db, CycleOfDay(site, h.days, day))
    ensures DaySent(site, planned, day)
  {
    hide OwedMap, CycleFor;
  }

  lemma PayDayOk(site: Site, h: Host, args: Args, day: int, run: nat, answers: nat -> Answer)
    requires Inv(site, h, run) && args.maxWallet >= 0 && TrustedAnswers(answers)
    ensures Safe(site, h, run + 1, PayDay(site, h, args, day, run, answers).effects)
  {
    MoreRuns(site, h, run);
    if Refused(h, day) {
      hide Inv;
      SafeNothing(site, h, run + 1);
    } else {
      var p := DayPlan(site, h, args, day);
      var persist := PersistEffects(p);
      var planned := ApplyAll(h, persist);
      PersistOk(site, h, run + 1, args, day);
      SafeEnd(site, h, run + 1, persist);
      var paid := SetPaid(day, p.cycle);
      if p.blocked != [] && AllSent(planned.db, p.cycle) {
        HealOk(site, h, planned, day);
        hide Inv, DayPlan, PersistEffects, OwedMap, CycleOfDay, Safe, DaySent, Apply;
        FinishOk(site, h, run + 1, persist, day);
      } else if !args.dry {
        hide Inv, PersistEffects, OwedMap, CycleOfDay, Safe, DaySent, Apply, ApplyAll;
        LiveDayOk(site, h, args, day, run, answers);
      }
    }
  }

  lemma FinishOk(site: Site, h: Host, runs: nat, es: seq<Effect>, day: int)
    requires Safe(site, h, runs, es) && ApplyAll(h, es).days == h.days && day in h.days
    requires DaySent(site, ApplyAll(h, es), day)
    ensures Safe(site, h, runs, es + [SetPaid(day, CycleOfDay(site, h.days, day))])
  {
    hide Inv, Apply, DaySent, CycleOfDay;
    var h1, paid := ApplyAll(h, es), SetPaid(day, CycleOfDay(site, h.days, day));
    SafeEnd(site, h, runs, es);
    PaidStep(site, h1, runs, day);
    SafeOne(site, h1, runs, paid);
    SafeAppend(site, h, runs, es, [paid]);
  }

  lemma LiveDayOk(site: Site, h: Host, args: Args, day: int, run: nat, answers: nat -> Answer)
    requires Inv(site, h, run) && !Refused(h, day) && args.maxWallet >= 0 && !args.dry && TrustedAnswers(answers)
    requires var p := DayPlan(site, h, args, day);
             !(p.blocked != [] && AllSent(ApplyAll(h, PersistEffects(p)).db, p.cycle))
    ensures Safe(site, h, run + 1, PayDay(site, h, args, day, run, answers).effects)
  {
    var p := DayPlan(site, h, args, day);
    var persist := PersistEffects(p);
    var planned := ApplyAll(h, persist);
    MoreRuns(site, h, run);
    PersistOk(site, h, run + 1, args, day);
    var t := ExecuteTrace(planned, p, TagFor(run, args), answers, 0, MAX_ATTEMPTS);
    if p.blocked == [] {
      LiveRunOk(site, h, args, day, run, answers);
      hide Inv, DayPlan, PersistEffects, OwedMap, CycleOfDay, Safe, DaySent, Apply, ExecuteTrace;
      SafeAppend(site, h, run + 1, persist, t.effects);
      ApplyAppend(h, persist, t.effects);
      if Clean(t.report) {
        FinishOk(site, h, run + 1, persist + t.effects, day);
      }
    } else {
      assert t.effects == [];
      assert persist + [] == persist;
    }
  }
}

/** The payment audit store, the ledger's paid marks and the wallet: everything a pay run can change
    (orchard_chia/allocation/audit.py, orchard_chia/economics/payment.py, the wallet behind
    orchard_chia/allocation/executor.py).

    Every method is one committed write or one wallet RPC. A process can die between any two of
    them, so a crashed run is a prefix of the list of effects it would have performed. */
module Audit {
  import opened Ordering

  type Wallet = string

  /** The SHA-256 prefix the program uses as an id is taken to be injective: the id is its material. */
  datatype CycleId = CycleId(start: int, end: int, budget: int, asset: string)

  function CycleIdFor(start: int, end: int, budget: int, asset: string): CycleId {
    CycleId(start, end, budget, Lower(asset))
  }

  /** Two payments are one cycle exactly when they are of one period, one budget and one asset in any spelling. */
  lemma OneCycleExactlyWhen(start: int, end: int, budget: int, asset: string, start': int, end': int, budget': int,
                            asset': string)
    ensures CycleIdFor(start, end, budget, asset) == CycleIdFor(start', end', budget', asset') <==>
              start == start' && end == end' && budget == budget' && Upper(asset) == Upper(asset')
  {
    CaseMappingsAgree(asset, asset');
  }

  datatype RowState = Planned | Sending | Sent | Failed | Skipped

  /** One row of `instructions`; `txId` is "" for NULL. */
  datatype Row = Row(amount: int, state: RowState, txId: string, attempts: nat)

  datatype CycleState = CyclePlanned | CycleDryRun | CycleSending | CycleSettled | CycleHalted

  type Key = (CycleId, Wallet)

  datatype Db = Db(cycles: map<CycleId, CycleState>, rows: map<Key, Row>)

  datatype Write =
    | OpenCycle(c: CycleId)
    | SetCycleState(c: CycleId, cycleState: CycleState)
    | PutInstruction(c: CycleId, w: Wallet, amount: int)
    | MarkSending(c: CycleId, w: Wallet)
    | MarkSent(c: CycleId, w: Wallet, txId: string)
    | MarkFailed(c: CycleId, w: Wallet)
    | MarkSkipped(c: CycleId, w: Wallet)

  /** What one SQL statement does. An UPDATE that matches no row changes nothing; an INSERT OR IGNORE
      leaves an existing row as it is. */
  function Write1(db: Db, x: Write): Db {
    match x
    case OpenCycle(c) => db.(cycles := db.cycles[c := CyclePlanned])
    case SetCycleState(c, s) => if c in db.cycles then db.(cycles := db.cycles[c := s]) else db
    case PutInstruction(c, w, amount) =>
      if (c, w) in db.rows then db else db.(rows := db.rows[(c, w) := Row(amount, Planned, "", 0)])
    case MarkSending(c, w) =>
      if (c, w) !in db.rows then db
      else db.(rows := db.rows[(c, w) := db.rows[(c, w)].(state := Sending, attempts := db.rows[(c, w)].attempts + 1)])
    case MarkSent(c, w, tx) =>
      if (c, w) !in db.rows then db
      else db.(rows := db.rows[(c, w) := db.rows[(c, w)].(state := Sent, txId := tx)])
    case MarkFailed(c, w) =>
      if (c, w) !in db.rows then db else db.(rows := db.rows[(c, w) := db.rows[(c, w)].(state := Failed)])
    case MarkSkipped(c, w) =>
      if (c, w) !in db.rows then db else db.(rows := db.rows[(c, w) := db.rows[(c, w)].(state := Skipped)])
  }

  // Queries.

  predicate InFlight(db: Db) {
    exists k | k in db.rows :: db.rows[k].state == Sending
  }

  predicate AlreadyPaid(db: Db, c: CycleId, w: Wallet) {
    (c, w) in db.rows && db.rows[(c, w)].state in {Sent, Sending}
  }

  function SentKeys(db: Db, c: CycleId): set<Key> {
    set k | k in db.rows && k.0 == c && db.rows[k].state in {Sent, Sending}
  }

  ghost function SumAmounts(rows: map<Key, Row>, ks: set<Key>): int
    requires ks <= rows.Keys
  {
    if ks == {} then 0
    else
      var k :| k in ks;
      rows[k].amount + SumAmounts(rows, ks - {k})
  }

  ghost function TotalSent(db: Db, c: CycleId): int {
    SumAmounts(db.rows, SentKeys(db, c))
  }

  lemma {:induction false} SumAmountsStep(rows: map<Key, Row>, ks: set<Key>, k: Key)
    requires ks <= rows.Keys && k in ks
    ensures SumAmounts(rows, ks) == rows[k].amount + SumAmounts(rows, ks - {k})
  {
    var p :| p in ks && SumAmounts(rows, ks) == rows[p].amount + SumAmounts(rows, ks - {p});
    if p != k {
      SumAmountsStep(rows, ks - {p}, k);
      SumAmountsStep(rows, ks - {k}, p);
      assert ks - {p} - {k} == ks - {k} - {p};
    }
  }

  /** With positive amounts the total is positive exactly when some row of the cycle is sent or mid-send. */
  lemma {:induction false} SumIsPositive(rows: map<Key, Row>, ks: set<Key>)
    requires ks <= rows.Keys && forall k :: k in ks ==> rows[k].amount > 0
    ensures SumAmounts(rows, ks) >= 0
    ensures SumAmounts(rows, ks) > 0 <==> ks != {}
  {
    if ks != {} {
      var k :| k in ks;
      SumAmountsStep(rows, ks, k);
      SumIsPositive(rows, ks - {k});
    }
  }

  /** The cycle has rows, and every one of them is sent with a transaction id. */
  predicate AllSent(db: Db, c: CycleId) {
    && (exists k | k in db.rows :: k.0 == c)
    && (forall k | k in db.rows :: k.0 == c ==> db.rows[k].state == Sent && db.rows[k].txId != "")
  }

  // The wallet and the ledger.

  /** One spend the wallet accepted, tagged with the run that sent it and that run's caps. */
  datatype Spend = Spend(run: nat, cycle: CycleId, wallet: Wallet, amount: int, capWallet: int, capCycle: int)

  /** How one spend RPC ends. `moved` says whether the wallet accepted the spend: the program cannot
      see it. NoTxId is the ExecutorError, Fault any other exception. */
  datatype Answer = Accepted(txId: string) | NoTxId(moved: bool) | Fault(moved: bool)

  predicate Moves(a: Answer) {
    match a
    case Accepted(_) => true
    case NoTxId(m) => m
    case Fault(m) => m
  }

  datatype RewardRow = RewardRow(wallet: Wallet, mojos: nat)

  datatype Host = Host(db: Db, days: map<int, seq<RewardRow>>, paid: map<int, CycleId>, moved: seq<Spend>)

  datatype Effect = Store(x: Write) | Move(spend: Spend) | SetPaid(day: int, c: CycleId)

  function Apply(h: Host, e: Effect): Host {
    match e
    case Store(x) => h.(db := Write1(h.db, x))
    case Move(spend) => h.(moved := h.moved + [spend])
    case SetPaid(day, c) => if day in h.days then h.(paid := h.paid[day := c]) else h
  }

  function ApplyAll(h: Host, es: seq<Effect>): Host
    decreases |es|
  {
    if es == [] then h else ApplyAll(Apply(h, es[0]), es[1..])
  }

  lemma {:induction false} ApplyAppend(h: Host, a: seq<Effect>, b: seq<Effect>)
    ensures ApplyAll(h, a + b) == ApplyAll(ApplyAll(h, a), b)
    decreases |a|
  {
    hide Apply;
    if a == [] {
      assert a + b == b;
    } else {
      assert (a + b)[0] == a[0] && (a + b)[1..] == a[1..] + b;
      ApplyAppend(Apply(h, a[0]), a[1..], b);
    }
  }

  lemma ApplyOne(h: Host, e: Effect)
    ensures ApplyAll(h, [e]) == Apply(h, e)
  {
    hide Apply;
    assert ApplyAll(Apply(h, e), [e][1..]) == Apply(h, e);
  }

  class PayHost {
    var cycles: map<CycleId, CycleState>
    var rows: map<Key, Row>
    var days: map<int, seq<RewardRow>>
    var paid: map<int, CycleId>
    ghost var moved: seq<Spend>
    const answers: nat -> Answer
    var calls: nat
    ghost var log: seq<Effect>

    ghost function View(): Host
      reads this
    {
      Host(Db(cycles, rows), days, paid, moved)
    }

    function Tables(): Db
      reads this
    {
      Db(cycles, rows)
    }

    constructor (h: Host, answers: nat -> Answer)
      ensures View() == h && this.answers == answers && calls == 0 && log == []
    {
      cycles, rows, days, paid, moved := h.db.cycles, h.db.rows, h.days, h.paid, h.moved;
      this.answers := answers;
      calls, log := 0, [];
    }

    method Commit(x: Write)
      modifies this
      ensures View() == Apply(old(View()), Store(x)) && log == old(log) + [Store(x)]
      ensures calls == old(calls)
    {
      var db := Write1(Tables(), x);
      cycles, rows := db.cycles, db.rows;
      log := log + [Store(x)];
    }

    /** The spend RPC. The wallet may accept the spend whatever the caller gets to see. */
    method Send(ghost spend: Spend) returns (a: Answer)
      modifies this
      ensures a == answers(old(calls)) && calls == old(calls) + 1
      ensures Moves(a) ==> View() == Apply(old(View()), Move(spend)) && log == old(log) + [Move(spend)]
      ensures !Moves(a) ==> View() == old(View()) && log == old(log)
    {
      a := answers(calls);
      calls := calls + 1;
      if Moves(a) {
        moved := moved + [spend];
        log := log + [Move(spend)];
      }
    }

    method MarkPaid(day: int, c: CycleId)
      modifies this
      ensures View() == Apply(old(View()), SetPaid(day, c)) && log == old(log) + [SetPaid(day, c)]
      ensures calls == old(calls)
    {
      if day in days {
        paid := paid[day := c];
      }
      log := log + [SetPaid(day, c)];
    }

    method TotalSentMojos(c: CycleId) returns (t: int)
      ensures t == TotalSent(Tables(), c)
    {
      var todo := SentKeys(Tables(), c);
      t := 0;
      while todo != {}
        invariant todo <= rows.Keys
        invariant t + SumAmounts(rows, todo) == TotalSent(Tables(), c)
      {
        var k :| k in todo;
        SumAmountsStep(rows, todo, k);
        t := t + rows[k].amount;
        todo := todo - {k};
      }
    }
  }
}

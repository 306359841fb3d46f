/** The pool ledger (orchard_chia/economics/ledger.py) and the settle commands that write it
    (orchard_chia/economics/runner.py).

    The two SQLite tables are sequences in insertion order; a primary key is a check before an
    insert, and a failed insert rolls the whole transaction back. The balance is always derived. */
module Ledger {
  import opened Ordering
  import opened Sums
  import opened Emission
  import opened Rewards
  import opened Settlement

  datatype DayRow = DayRow(day: int, ceiling: int, distributed: int, unearned: int, trees: nat, closing: int)

  datatype TreeRow = TreeRow(day: int, tree: string, wallet: string, weight: real, heartbeats: nat, reward: int,
                             basis: string)

  datatype Book = Book(days: seq<DayRow>, rows: seq<TreeRow>)

  datatype Snapshot = Snapshot(distributed: int, remaining: int, settled: nat, last: Option<int>)

  datatype LedgerError = SameTotal | DifferentTotal | Backwards | OverPool | BrokenInvariant | DuplicateRow

  function DistributedOf(d: DayRow): int { d.distributed }

  function PaidOut(days: seq<DayRow>): int { Total(Map(DistributedOf, days)) }

  function LastDay(days: seq<DayRow>): Option<int> {
    if days == [] then None
    else
      var last, d := LastDay(days[..|days| - 1]), days[|days| - 1].day;
      if last.Some? && last.value > d then last else Some(d)
  }

  function FindDay(days: seq<DayRow>, day: int): Option<DayRow> {
    if days == [] then None
    else if days[|days| - 1].day == day then Some(days[|days| - 1])
    else FindDay(days[..|days| - 1], day)
  }

  function SnapshotOf(days: seq<DayRow>): Result<Snapshot, LedgerError> {
    var total := PaidOut(days);
    if total > POOL then Err(BrokenInvariant) else Ok(Snapshot(total, POOL - total, |days|, LastDay(days)))
  }

  // Writing a day.

  function RowFor(day: int, r: TreeReward): TreeRow {
    TreeRow(day, r.tree, r.wallet, r.weight, r.heartbeats, r.reward, r.basis)
  }

  function RowsFor(day: int, rewards: seq<TreeReward>): (r: seq<TreeRow>)
    ensures |r| == |rewards|
  {
    seq(|rewards|, i requires 0 <= i < |rewards| => RowFor(day, rewards[i]))
  }

  function DayFor(s: Settled): DayRow {
    var paid := Distributed(s.rewards.rewards);
    DayRow(s.day, s.ceiling.ceiling, paid, s.rewards.ceiling - paid, |s.rewards.rewards|, s.closing)
  }

  predicate HasKey(rows: seq<TreeRow>, day: int, tree: string) {
    exists i :: 0 <= i < |rows| && rows[i].day == day && rows[i].tree == tree
  }

  /** INSERT one after another; None where a primary key is already there. */
  function InsertRows(rows: seq<TreeRow>, more: seq<TreeRow>): Option<seq<TreeRow>> {
    if more == [] then Some(rows)
    else
      var front, row := InsertRows(rows, more[..|more| - 1]), more[|more| - 1];
      if front.None? || HasKey(front.value, row.day, row.tree) then None else Some(front.value + [row])
  }

  /** What `record` checks before it writes. */
  function Refusal(days: seq<DayRow>, s: Settled): Option<LedgerError> {
    var paid := Distributed(s.rewards.rewards);
    var found, snap := FindDay(days, s.day), SnapshotOf(days);
    if found.Some? then Some(if found.value.distributed == paid then SameTotal else DifferentTotal)
    else if snap.Err? then Some(snap.error)
    else if snap.value.last.Some? && s.day < snap.value.last.value then Some(Backwards)
    else if snap.value.distributed + paid > POOL then Some(OverPool)
    else None
  }

  function Recorded(book: Book, s: Settled): Book {
    var rows := InsertRows(book.rows, RowsFor(s.day, s.rewards.rewards));
    if Refusal(book.days, s).Some? || rows.None? then book else Book(book.days + [DayFor(s)], rows.value)
  }

  // Auditing.

  datatype Problem = RowsDisagree(day: int) | OverItsCeiling(day: int) | ChainBroken(day: int)

  predicate DayLe(a: DayRow, b: DayRow) { a.day <= b.day }

  function RowSum(rows: seq<TreeRow>, day: int): int {
    if rows == [] then 0
    else
      var front, r := RowSum(rows[..|rows| - 1], day), rows[|rows| - 1];
      if r.day == day then front + r.reward else front
  }

  function ProblemsOf(rows: seq<TreeRow>, d: DayRow, before: int): seq<Problem> {
    (if RowSum(rows, d.day) != d.distributed then [RowsDisagree(d.day)] else [])
    + (if d.distributed > d.ceiling then [OverItsCeiling(d.day)] else [])
    + (if d.closing != before - d.distributed then [ChainBroken(d.day)] else [])
  }

  function Problems(rows: seq<TreeRow>, ordered: seq<DayRow>): seq<Problem> {
    if ordered == [] then []
    else
      var front := ordered[..|ordered| - 1];
      Problems(rows, front) + ProblemsOf(rows, ordered[|ordered| - 1], POOL - PaidOut(front))
  }

  function AuditOf(book: Book): seq<Problem> { Problems(book.rows, Sort(DayLe, book.days)) }

  // The ledger itself.

  class PoolLedger {
    var days: seq<DayRow>
    var rows: seq<TreeRow>

    function View(): Book
      reads this
    {
      Book(days, rows)
    }

    constructor ()
      ensures View() == Book([], [])
    {
      days, rows := [], [];
    }

    /** One transaction: everything is written, or nothing is. */
    method Record(s: Settled) returns (r: Result<Snapshot, LedgerError>)
      modifies this
      ensures View() == Recorded(old(View()), s)
      ensures Refusal(old(days), s).Some? ==> r == Err(Refusal(old(days), s).value)
      ensures r == Err(DuplicateRow) <==>
                Refusal(old(days), s).None? && InsertRows(old(rows), RowsFor(s.day, s.rewards.rewards)).None?
      ensures r.Ok? <==>
                Refusal(old(days), s).None? && InsertRows(old(rows), RowsFor(s.day, s.rewards.rewards)).Some?
      ensures r.Err? ==> View() == old(View())
      ensures r.Ok? ==> r == SnapshotOf(days) && days == old(days) + [DayFor(s)]
    {
      hide RowsFor, InsertRows, LastDay, Map, Total;
      var paid := Distributed(s.rewards.rewards);
      var found := FindDay(days, s.day);
      if found.Some? {
        return Err(if found.value.distributed == paid then SameTotal else DifferentTotal);
      }
      var snap := SnapshotOf(days);
      if snap.Err? { return Err(snap.error); }
      if snap.value.last.Some? && s.day < snap.value.last.value { return Err(Backwards); }
      if snap.value.distributed + paid > POOL { return Err(OverPool); }
      var savedDays, savedRows := days, rows;
      days := days + [DayFor(s)];
      var inserted := InsertAll(RowsFor(s.day, s.rewards.rewards));
      if !inserted {
        days, rows := savedDays, savedRows;
        return Err(DuplicateRow);
      }
      r := SnapshotOf(days);
      PaidOutAppend(savedDays, DayFor(s));
    }

    method InsertAll(more: seq<TreeRow>) returns (ok: bool)
      modifies this`rows
      ensures ok <==> InsertRows(old(rows), more).Some?
      ensures ok ==> InsertRows(old(rows), more) == Some(rows)
    {
      for i := 0 to |more|
        invariant InsertRows(old(rows), more[..i]) == Some(rows)
      {
        assert more[..i + 1][..i] == more[..i];
        if HasKey(rows, more[i].day, more[i].tree) {
          InsertFailsForGood(old(rows), more, i + 1);
          return false;
        }
        rows := rows + [more[i]];
      }
      assert more[..|more|] == more;
      return true;
    }

    method Audit() returns (problems: seq<Problem>)
      ensures problems == AuditOf(View())
    {
      hide ProblemsOf, Map, Total;
      var ordered := Sort(DayLe, days);
      problems := [];
      var before := POOL;
      EmptyTotal();
      for i := 0 to |ordered|
        invariant before == POOL - PaidOut(ordered[..i]) && problems == Problems(rows, ordered[..i])
      {
        assert ordered[..i + 1][..i] == ordered[..i];
        assert ordered[..i + 1] == ordered[..i] + [ordered[i]];
        problems := problems + ProblemsOf(rows, ordered[i], before);
        PaidOutAppend(ordered[..i], ordered[i]);
        before := before - ordered[i].distributed;
      }
      assert ordered[..|ordered|] == ordered;
    }
  }

  lemma {:induction false} InsertFailsForGood(rows: seq<TreeRow>, more: seq<TreeRow>, i: nat)
    requires i <= |more| && InsertRows(rows, more[..i]).None?
    ensures InsertRows(rows, more).None?
    decreases |more|
  {
    hide HasKey;
    if i == |more| {
      assert more[..i] == more;
    } else {
      assert more[..|more| - 1][..i] == more[..i];
      InsertFailsForGood(rows, more[..|more| - 1], i);
    }
  }

  lemma PaidOutAppend(days: seq<DayRow>, d: DayRow)
    ensures PaidOut(days + [d]) == PaidOut(days) + d.distributed
  {
    assert Map(DistributedOf, days + [d])[..|days|] == Map(DistributedOf, days);
  }
}

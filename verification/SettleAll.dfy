/** `settle` and `settle --all` (orchard_chia/economics/runner.py): one closed season, or every closed
    season that is not settled yet, oldest first, stopping at the first one that cannot be settled. */
module SettleAll {
  import opened Ordering
  import opened Sums
  import opened Rewards
  import opened Settlement
  import Emission
  import opened Ledger
  import opened LedgerSafety

  /** What the oracle and the chain answer for a season; None where either cannot be consulted. */
  type Oracle = int -> Option<seq<Tree>>

  const DONE := 0
  const CRASHED := 1
  const OPEN_SEASON := 2
  const UNREACHABLE := 3
  const BLIND := 4

  predicate Contains(text: string, word: string) {
    word <= text || (text != "" && Contains(text[1..], word))
  }

  /** Trees that earned hours and were left out only for want of a visible wallet. */
  predicate WalletBlind(s: Settled) {
    exists i :: 0 <= i < |s.rewards.ineligible| && BlindTree(s.rewards.ineligible[i])
  }

  predicate BlindTree(t: Tree) {
    t.heartbeats > 0 && t.reason.Some? && Contains(Lower(t.reason.value), "wallet")
  }

  /** The first season that is not settled yet; season s is day s - 1. */
  function FirstSeason(days: seq<DayRow>): int {
    var last := LastDay(days);
    if last.Some? then last.value + 2 else 1
  }

  /** The rows added to `before` are one for each day from `day` on, without a gap. */
  ghost predicate Consecutive(before: seq<DayRow>, after: seq<DayRow>, day: int) {
    && |before| <= |after| && after[..|before|] == before
    && forall i :: |before| <= i < |after| ==> after[i].day == day + (i - |before|)
  }

  ghost predicate AllSettled(days: seq<DayRow>, end: int) {
    forall day :: 0 <= day < end ==> FindDay(days, day).Some?
  }

  /** The Trees of a season, as an attempt to settle its day. */
  function AttemptAt(oracle: Oracle, season: int): Attempt {
    Attempt(season - 1, if oracle(season).Some? then oracle(season).value else [])
  }

  /** n seasons in a row. */
  function Attempts(oracle: Oracle, first: int, n: nat): (r: seq<Attempt>)
    ensures |r| == n
  {
    seq(n, i => AttemptAt(oracle, first + i))
  }

  /** Settled against this book, the Trees' day is not refused. */
  predicate Settles(book: Book, a: Attempt) {
    SnapshotOf(book.days).Ok? && SettleDay(a.trees, a.day, SnapshotOf(book.days).value.remaining).Ok?
  }

  /** ... but shows a Tree that earned hours and has no wallet in sight. */
  predicate BlindAt(book: Book, a: Attempt) {
    Settles(book, a) && WalletBlind(SettleDay(a.trees, a.day, SnapshotOf(book.days).value.remaining).value)
  }

  /** The season's oracle answers, and nobody's wallet is missing. */
  predicate Clear(book: Book, oracle: Oracle, season: int) {
    oracle(season).Some? && Settles(book, AttemptAt(oracle, season)) && !BlindAt(book, AttemptAt(oracle, season))
  }

  /** The book after n seasons from `first` on. */
  ghost function BookAfter(book: Book, oracle: Oracle, first: int, n: nat): Book {
    LedgerSafety.Run(book, Attempts(oracle, first, n))
  }

  /** The book a season is settled against. */
  ghost function BookAt(book: Book, oracle: Oracle, first: int, season: int, yes: bool): Book {
    if yes && first <= season then BookAfter(book, oracle, first, season - first) else book
  }

  /** Every season from `first` up to, not including, `season` was clear when its turn came. */
  ghost predicate ClearUpTo(book: Book, oracle: Oracle, first: int, season: int, yes: bool) {
    forall s :: first <= s < season ==> Clear(BookAt(book, oracle, first, s, yes), oracle, s)
  }

  /** Why a season stops the command, by its exit code. */
  predicate StopsWith(exit: int, book: Book, oracle: Oracle, season: int) {
    && (exit == UNREACHABLE <==> oracle(season).None?)
    && (exit == BLIND <==> oracle(season).Some? && BlindAt(book, AttemptAt(oracle, season)))
    && exit in {CRASHED, UNREACHABLE, BLIND}
  }

  /** A dry run gets as far as this season. */
  ghost predicate StoppedAt(book: Book, oracle: Oracle, first: int, season: int, current: int, exit: int) {
    first <= season < current && ClearUpTo(book, oracle, first, season, false) && StopsWith(exit, book, oracle, season)
  }

  /** The loop settles a run of days without a gap and keeps the ledger sound, whatever stops it; a dry run writes
      nothing. What is written for a season is what its own Trees settle to, and no season with a wallet out of sight
      is written. It looks only at the seasons after the last settled one: ending well, it has settled every closed
      season exactly when no earlier one was missing before. */
  method Run(led: PoolLedger, oracle: Oracle, current: int, yes: bool) returns (exit: int)
    requires Inv(led.View())
    modifies led
    ensures Inv(led.View())
    ensures var first := FirstSeason(old(led.days));
            && Consecutive(old(led.days), led.days, first - 1)
            && (exit == DONE && yes && first <= current ==> |led.days| - |old(led.days)| == current - first)
    ensures yes ==>
              var first, n := FirstSeason(old(led.days)), |led.days| - |old(led.days)|;
              && led.View() == BookAfter(old(led.View()), oracle, first, n)
              && ClearUpTo(old(led.View()), oracle, first, first + n, true)
              && (exit == DONE <==> first + n >= current)
              && (exit != DONE ==> StopsWith(exit, led.View(), oracle, first + n))
    ensures yes && exit == DONE ==>
              (AllSettled(led.days, current - 1)
               <==> AllSettled(old(led.days), SettledBefore(old(led.days), current)))
    ensures FirstSeason(old(led.days)) >= current ==> exit == DONE
    ensures !yes ==>
              var first := FirstSeason(old(led.days));
              && led.View() == old(led.View())
              && (exit == DONE <==> ClearUpTo(led.View(), oracle, first, current, false))
              && (exit != DONE ==> exists season :: StoppedAt(led.View(), oracle, first, season, current, exit))
    ensures exit in {DONE, CRASHED, UNREACHABLE, BLIND}
  {
    hide Inv, FirstSeason, Clear, StopsWith, BookAfter, ClearUpTo, Step, AllSettled, SettledBefore, Consecutive,
         AddedDay, Recordable;
    ghost var start := led.View();
    var first := FirstSeason(led.days);
    var season := first;
    NoSeasonsYet(start, oracle, first, yes);
    while season < current
      invariant first <= season && (if first <= current then season <= current else season == first)
      invariant Inv(led.View()) && Consecutive(start.days, led.days, first - 1)
      invariant |led.days| == |start.days| + (if yes then season - first else 0)
      invariant led.View() == if yes then BookAfter(start, oracle, first, season - first) else start
      invariant ClearUpTo(start, oracle, first, season, yes)
    {
      ghost var before := led.days;
      exit := SettleOne(led, oracle, season, yes);
      if exit != DONE {
        if !yes {
          StoppedEarly(start, oracle, first, season, current);
          assert StoppedAt(start, oracle, first, season, current, exit);
        }
        return;
      }
      OneSeasonMore(start, oracle, first, season, yes);
      if yes { StillConsecutive(start.days, before, led.days, first - 1, season - 1); }
      season := season + 1;
    }
    ClearSooner(start, oracle, first, season, current, yes);
    if yes { GapsStay(led.View(), start.days, current); }
    return DONE;
  }

  /** The body of the loop. */
  method SettleOne(led: PoolLedger, oracle: Oracle, season: int, yes: bool) returns (exit: int)
    requires Inv(led.View())
    modifies led
    ensures Inv(led.View())
    ensures exit in {DONE, CRASHED, UNREACHABLE, BLIND}
    ensures exit != DONE ==> StopsWith(exit, old(led.View()), oracle, season)
    ensures led.View() ==
              if exit == DONE && yes then Step(old(led.View()), AttemptAt(oracle, season)) else old(led.View())
    ensures exit == DONE && yes ==> AddedDay(old(led.days), led.days, season - 1)
    ensures exit == DONE <==>
              Clear(old(led.View()), oracle, season)
              && (yes ==> Recordable(old(led.View()), AttemptAt(oracle, season)))
  {
    hide Recorded, SettleDay, Refusal, LastDay, WalletBlind, Inv, InsertRows, RowsFor;
    var trees := oracle(season);
    if trees.None? { return UNREACHABLE; }
    var snap := SnapshotOf(led.days);
    if snap.Err? { return CRASHED; }
    var s := SettleDay(trees.value, season - 1, snap.value.remaining);
    if s.Err? { return CRASHED; }
    if WalletBlind(s.value) { return BLIND; }
    if yes {
      SettledDayIsDay(trees.value, season - 1, snap.value.remaining);
      RecordingKeeps(led.View(), s.value, trees.value);
      var r := led.Record(s.value);
      if r.Err? { return CRASHED; }
    }
    return DONE;
  }

  /** The ledger takes what the attempt settles to. */
  predicate Recordable(book: Book, a: Attempt) {
    && Settles(book, a)
    && var s := SettleDay(a.trees, a.day, SnapshotOf(book.days).value.remaining).value;
       Refusal(book.days, s).None? && InsertRows(book.rows, RowsFor(s.day, s.rewards.rewards)).Some?
  }

  ghost predicate AddedDay(before: seq<DayRow>, after: seq<DayRow>, day: int) {
    |after| == |before| + 1 && after[..|before|] == before && after[|before|].day == day
  }

  lemma NoSeasonsYet(start: Book, oracle: Oracle, first: int, yes: bool)
    ensures BookAfter(start, oracle, first, 0) == start && ClearUpTo(start, oracle, first, first, yes)
    ensures Consecutive(start.days, start.days, first - 1)
  {}

  lemma OneSeasonMore(start: Book, oracle: Oracle, first: int, season: int, yes: bool)
    requires first <= season && ClearUpTo(start, oracle, first, season, yes)
    requires Clear(BookAt(start, oracle, first, season, yes), oracle, season)
    ensures ClearUpTo(start, oracle, first, season + 1, yes)
    ensures BookAfter(start, oracle, first, season + 1 - first)
            == Step(BookAfter(start, oracle, first, season - first), AttemptAt(oracle, season))
  {
    hide Step, Clear, BookAt;
    var n := season - first;
    assert Attempts(oracle, first, n + 1)[..n] == Attempts(oracle, first, n);
  }

  lemma StillConsecutive(before: seq<DayRow>, mid: seq<DayRow>, after: seq<DayRow>, first: int, day: int)
    requires Consecutive(before, mid, first) && |mid| == |before| + (day - first) && AddedDay(mid, after, day)
    ensures Consecutive(before, after, first) && |after| == |before| + (day + 1 - first)
  {
    forall i | |before| <= i < |after| ensures after[i].day == first + (i - |before|) {
      if i < |mid| { assert after[i] == mid[i]; }
    }
  }

  lemma ClearSooner(start: Book, oracle: Oracle, first: int, season: int, current: int, yes: bool)
    requires current <= season && ClearUpTo(start, oracle, first, season, yes)
    ensures ClearUpTo(start, oracle, first, current, yes)
  {
    hide Clear, BookAt;
  }

  lemma StoppedEarly(start: Book, oracle: Oracle, first: int, season: int, current: int)
    requires first <= season < current && !Clear(start, oracle, season)
    ensures !ClearUpTo(start, oracle, first, current, false)
  {
    hide Clear;
    assert BookAt(start, oracle, first, season, false) == start;
  }

  /** The closed days up to the last settled one. */
  function SettledBefore(days: seq<DayRow>, current: int): int {
    if FirstSeason(days) <= current then FirstSeason(days) - 1 else current - 1
  }

  /** Days added without a gap after the last one neither close an earlier gap nor open a new one. */
  lemma GapsStay(book: Book, before: seq<DayRow>, current: int)
    requires Inv(book) && Consecutive(before, book.days, FirstSeason(before) - 1)
    requires FirstSeason(before) <= current ==> |book.days| == |before| + (current - FirstSeason(before))
    requires FirstSeason(before) > current ==> book.days == before
    ensures AllSettled(book.days, current - 1) <==> AllSettled(before, SettledBefore(before, current))
  {
    hide LastDay, FindDay, PaidOut, RowSum;
    var first, days := FirstSeason(before), book.days;
    if first <= current {
      forall day | 0 <= day < current - 1
        ensures FindDay(days, day).Some? <==> day >= first - 1 || FindDay(before, day).Some?
      {
        FindDayMeaning(days, day);
        FindDayMeaning(before, day);
        if day >= first - 1 { assert days[|before| + (day - (first - 1))].day == day; }
        if i :| 0 <= i < |before| && before[i].day == day { assert days[i] == before[i]; }
        if i :| 0 <= i < |days| && days[i].day == day && day < first - 1 { assert days[i] == before[i]; }
      }
    }
  }

  /** Ending well with `yes` means the season is settled, and it ends well exactly when a closed season is settled
      already or its Trees can be recorded with every wallet in sight. The only thing there can be written is what
      those Trees settle to. */
  method One(led: PoolLedger, oracle: Oracle, current: int, season: int, yes: bool) returns (exit: int)
    requires Inv(led.View())
    modifies led
    ensures Inv(led.View())
    ensures exit == DONE && yes ==> FindDay(led.days, season - 1).Some?
    ensures led.View() == if yes && exit == DONE && FindDay(old(led.days), season - 1).None?
                          then Step(old(led.View()), AttemptAt(oracle, season)) else old(led.View())
    ensures led.View() != old(led.View()) ==> AddedDay(old(led.days), led.days, season - 1)
    ensures var reached := 1 <= season < current && FindDay(old(led.days), season - 1).None?;
            var a := AttemptAt(oracle, season);
            && (exit == UNREACHABLE <==> reached && oracle(season).None?)
            && (exit == BLIND <==> reached && yes && oracle(season).Some? && BlindAt(old(led.View()), a))
    ensures yes && 1 <= season < current ==>
              (exit == DONE <==>
                 FindDay(old(led.days), season - 1).Some?
                 || (Clear(old(led.View()), oracle, season) && Recordable(old(led.View()), AttemptAt(oracle, season))))
    ensures exit == OPEN_SEASON <==> season >= current
  {
    hide Recorded, SettleDay, Refusal, LastDay, WalletBlind, Inv, InsertRows, RowsFor;
    if season >= current { return OPEN_SEASON; }
    if season < 1 { return CRASHED; }
    if FindDay(led.days, season - 1).Some? { return DONE; }
    var trees := oracle(season);
    if trees.None? { return UNREACHABLE; }
    var snap := SnapshotOf(led.days);
    if snap.Err? { return CRASHED; }
    var s := SettleDay(trees.value, season - 1, snap.value.remaining);
    if s.Err? { return CRASHED; }
    if !yes { return DONE; }
    if WalletBlind(s.value) { return BLIND; }
    SettledDayIsDay(trees.value, season - 1, snap.value.remaining);
    RecordingKeeps(led.View(), s.value, trees.value);
    var r := led.Record(s.value);
    if r.Err? { return CRASHED; }
    FindDayMeaning(led.days, season - 1);
    assert led.days[|led.days| - 1].day == season - 1;
    return DONE;
  }

  // Whose wallet is out of sight.

  lemma {:induction false} NotEligibleMembers(trees: seq<Tree>, t: Tree)
    ensures t in NotEligible(trees) <==> t in trees && !t.eligible
  {
    if trees != [] {
      NotEligibleMembers(trees[..|trees| - 1], t);
      assert trees == trees[..|trees| - 1] + [trees[|trees| - 1]];
    }
  }

  lemma {:induction false} WithoutSensorMembers(trees: seq<Tree>, t: Tree)
    ensures t in WithoutSensor(trees) <==>
              exists x :: x in trees && x.eligible && WeightOf(x) <= 0.0 && t == Dropped(x)
  {
    hide Dropped, WeightOf;
    if trees != [] {
      WithoutSensorMembers(trees[..|trees| - 1], t);
      assert trees == trees[..|trees| - 1] + [trees[|trees| - 1]];
    }
  }

  lemma {:induction false} ContainsAt(text: string, word: string, i: nat)
    requires i <= |text| && word <= text[i..]
    ensures Contains(text, word)
  {
    if i == 0 {
      assert text[0..] == text;
    } else {
      assert text[1..][i - 1..] == text[i..];
      ContainsAt(text[1..], word, i - 1);
    }
  }

  lemma {:induction false} ContainsNeedsLetters(text: string, word: string)
    requires word != "" && word[0] !in text
    ensures !Contains(text, word)
  {
    if text != "" {
      assert text == [text[0]] + text[1..];
      ContainsNeedsLetters(text[1..], word);
    }
  }

  lemma NoSensorNamesNoWallet()
    ensures !Contains(Lower("no qualifying sensor this season"), "wallet")
  {
    var reason := "no qualifying sensor this season";
    assert 'w' !in reason && 'W' !in reason;
    LowerLetter(reason, 'w');
    hide Contains, Lower;
    ContainsNeedsLetters(Lower(reason), "wallet");
  }

  lemma LowerLetter(s: string, c: char)
    requires 'a' <= c <= 'z' && c !in s && c - 'a' + 'A' !in s
    ensures c !in Lower(s)
  {
    forall i | 0 <= i < |s| ensures Lower(s)[i] != c {
      assert s[i] in s;
    }
  }

  /** A Tree left out for want of a sensor is never taken for one left out for want of a wallet. */
  lemma NoSensorIsNotBlind(t: Tree)
    requires t.eligible
    ensures BlindTree(Dropped(t)) <==> BlindTree(t)
  {
    NoSensorNamesNoWallet();
    if t.reason.Some? && t.reason.value == "" { ContainsNeedsLetters(Lower(""), "wallet"); }
    hide Contains, Lower;
  }

  /** A settlement is blind exactly when one of its Trees has heartbeats, does not share in the day, and is said to
      want a wallet. */
  lemma BlindExactlyWhen(trees: seq<Tree>, day: int, pool: int)
    requires SettleDay(trees, day, pool).Ok?
    ensures WalletBlind(SettleDay(trees, day, pool).value) <==> exists t :: t in trees && !Counts(t) && BlindTree(t)
  {
    var out := SettleDay(trees, day, pool).value.rewards.ineligible;
    assert out == NotEligible(trees) + WithoutSensor(trees);
    hide SettleDay, BlindTree, Dropped, WeightOf, NotEligible, WithoutSensor;
    if i :| 0 <= i < |out| && BlindTree(out[i]) {
      NotEligibleMembers(trees, out[i]);
      WithoutSensorMembers(trees, out[i]);
      if out[i] !in NotEligible(trees) {
        assert out[i] in WithoutSensor(trees);
        var x :| x in trees && x.eligible && WeightOf(x) <= 0.0 && out[i] == Dropped(x);
        NoSensorIsNotBlind(x);
      }
    }
    if t :| t in trees && !Counts(t) && BlindTree(t) {
      NotEligibleMembers(trees, t);
      WithoutSensorMembers(trees, Dropped(t));
      NoWeightIsNothing(t);
      var x := if t.eligible then Dropped(t) else t;
      if t.eligible { NoSensorIsNotBlind(t); }
      assert x in out;
      var i :| 0 <= i < |out| && out[i] == x;
    }
  }

  lemma NoWeightIsNothing(t: Tree)
    ensures Counts(t) <==> t.eligible && !(WeightOf(t) <= 0.0)
  {}

  /** An observation without a visible wallet and with hours makes its day blind, whatever its reason left unsaid. */
  lemma UnseenWalletIsBlind(o: Observation)
    requires o.tree != "" && o.eligible && (o.wallet.None? || o.wallet.value == "") && o.hours > 0
    requires o.reason.None? || o.reason.value == ""
    ensures WellFormed(TreeDayFromObservation(o))
    ensures BlindTree(TreeDayFromObservation(o)) && !Counts(TreeDayFromObservation(o))
  {
    EveryObservationIsAccepted(o);
    NoWalletVisible();
    hide Contains, Lower, Named;
  }

  const UNSEEN := "no wallet_address visible"

  lemma UnseenIsLower()
    ensures Lower(UNSEEN) == UNSEEN
  {}

  lemma UnseenSpelled()
    ensures UNSEEN == "no " + "wallet" + "_address visible"
  {}

  lemma ContainsMiddle(front: string, word: string, back: string)
    ensures Contains(front + word + back, word)
  {
    hide Contains;
    assert (front + word + back)[|front|..] == word + back;
    ContainsAt(front + word + back, word, |front|);
  }

  lemma NoWalletVisible()
    ensures Contains(Lower("no wallet_address visible"), "wallet")
  {
    UnseenIsLower();
    UnseenSpelled();
    hide Contains, Lower;
    ContainsMiddle("no ", "wallet", "_address visible");
  }

  // A season settled out of turn.

  const NOBODY: Oracle := (season: int) => Some([])

  lemma NobodyIsRecordable(day: nat)
    ensures Recordable(EMPTY, Attempt(day, [])) && !BlindAt(EMPTY, Attempt(day, []))
  {
    EmptyTotal();
    assert Map(DistributedOf, EMPTY.days) == [];
    assert Weighted([]) == [] && NotEligible([]) == [] && WithoutSensor([]) == [];
    hide PaidOut, Distributed;
    DaySettles([], day, Emission.POOL);
  }

  /** In the eleventh season, settling the tenth and then all of them ends well twice and settles one day. The nine
      before it are refused from then on. */
  method TenthThenAll() returns (days: seq<DayRow>, one: int, all: int)
    ensures one == DONE && all == DONE && |days| == 1 && days[0].day == 9
    ensures forall day :: 0 <= day < 9 ==> FindDay(days, day).None?
    ensures forall s: Settled :: 0 <= s.day < 9 ==> Refusal(days, s).Some?
  {
    hide Recordable, Inv, Refusal, PaidOut, AllSettled;
    var led := new PoolLedger();
    EmptyIsGood();
    NobodyIsRecordable(9);
    NothingFound();
    one := One(led, NOBODY, 11, 10, true);
    OneDayFound(led.days, 9);
    all := Run(led, NOBODY, 11, true);
    days := led.days;
    assert days == days[..1];
    OneDayFound(days, 9);
  }

  lemma NothingFound()
    ensures FindDay([], 9).None?
  {}

  lemma OneDayFound(days: seq<DayRow>, day: int)
    requires |days| == 1 && days[0].day == day
    ensures FirstSeason(days) == day + 2
    ensures forall d :: d != day ==> FindDay(days, d).None?
    ensures forall s: Settled :: s.day < day ==> Refusal(days, s).Some?
  {
    assert days[..0] == [] && LastDay([]) == None && LastDay(days) == Some(day);
    hide PaidOut;
  }
}

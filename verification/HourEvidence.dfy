/** What backs a verified hour (orchard_chia/datalayer/schema.py, `verified_hours`).

    An hour counts when enough of its readings qualify. Nothing asks whether they differ from one another, or
    whether the hour they are filed under is the hour they were taken in. */
module HourEvidence {
  import opened Ordering
  import opened Sums
  import opened Schema
  import opened Verify
  import opened Agreement

  /** The different qualifying readings of an hour. */
  function Different(w: World, rs: seq<Reading>, pub: Option<PubKey>, window: Window): set<Reading> {
    set r | r in rs && Qualifies(w, r, pub, window)
  }

  /** No qualifying reading is there twice. */
  ghost predicate Unrepeated(w: World, rs: seq<Reading>, pub: Option<PubKey>, window: Window) {
    forall i, j :: 0 <= i < j < |rs| && Qualifies(w, rs[i], pub, window) ==> rs[i] != rs[j]
  }

  /** An hour's count is the number of its different qualifying readings exactly when none is there twice. */
  lemma {:induction false} CountIsDifferentIff(w: World, rs: seq<Reading>, pub: Option<PubKey>, window: Window)
    ensures |Different(w, rs, pub, window)| <= CountQualifying(w, rs, pub, window)
    ensures CountQualifying(w, rs, pub, window) == |Different(w, rs, pub, window)| <==> Unrepeated(w, rs, pub, window)
  {
    hide Qualifies;
    if rs != [] {
      var front, last := rs[..|rs| - 1], rs[|rs| - 1];
      CountIsDifferentIff(w, front, pub, window);
      OneReadingMore(w, front, last, pub, window);
      assert front + [last] == rs;
    }
  }

  lemma OneReadingMore(w: World, front: seq<Reading>, last: Reading, pub: Option<PubKey>, window: Window)
    ensures Different(w, front + [last], pub, window)
            == Different(w, front, pub, window) + if Qualifies(w, last, pub, window) then {last} else {}
    ensures Unrepeated(w, front + [last], pub, window) <==>
              Unrepeated(w, front, pub, window) && last !in Different(w, front, pub, window)
  {
    hide Qualifies;
    var rs := front + [last];
    if last in Different(w, front, pub, window) {
      var i :| 0 <= i < |front| && front[i] == last;
      assert rs[i] == rs[|front|] && Qualifies(w, rs[i], pub, window);
    }
    if Unrepeated(w, rs, pub, window) {
      forall i, j | 0 <= i < j < |front| && Qualifies(w, front[i], pub, window) ensures front[i] != front[j] {
        assert rs[i] == front[i] && rs[j] == front[j];
      }
    }
  }

  // A season whose readings do not repeat and are filed where they belong.

  const MS_PER_HOUR := 3_600_000

  /** The UTC hour of day of a reading's own timestamp. */
  function ClockHour(r: Reading): int { SortTime(r) / MS_PER_HOUR % HOURS_PER_SEASON }

  ghost predicate FiledInItsHour(w: World, hours: Hours, pub: Option<PubKey>, window: Window) {
    forall h, r :: h in hours && r in hours[h] && Qualifies(w, r, pub, window) ==> ClockHour(r) == h
  }

  ghost predicate NothingRepeats(w: World, hours: Hours, pub: Option<PubKey>, window: Window) {
    forall h :: h in hours ==> Unrepeated(w, hours[h], pub, window)
  }

  /** The different qualifying readings filed under these hours. */
  function Evidence(w: World, hours: Hours, some: set<int>, pub: Option<PubKey>, window: Window): set<Reading> {
    set h, r | h in some && h in hours && r in Different(w, hours[h], pub, window) :: r
  }

  /** Then every verified hour has its own quorum of readings, no two of which are the same. */
  lemma {:induction false} HoursAreBacked(w: World, hours: Hours, some: set<int>, pub: Option<PubKey>, min: nat,
                                          window: Window)
    requires NothingRepeats(w, hours, pub, window) && FiledInItsHour(w, hours, pub, window)
    requires some <= GoodHours(w, hours, pub, min, window)
    ensures min * |some| <= |Evidence(w, hours, some, pub, window)|
    decreases some
  {
    hide *;
    if some != {} {
      var h := OneOf(some);
      HoursAreBacked(w, hours, some - {h}, pub, min, window);
      OneHourBacked(w, hours, some, h, pub, min, window);
      OneTimesMore(min, |some - {h}|);
    }
  }

  lemma OneHourBacked(w: World, hours: Hours, some: set<int>, h: int, pub: Option<PubKey>, min: nat, window: Window)
    requires NothingRepeats(w, hours, pub, window) && FiledInItsHour(w, hours, pub, window)
    requires h in some && some <= GoodHours(w, hours, pub, min, window)
    ensures |Evidence(w, hours, some, pub, window)| >= |Evidence(w, hours, some - {h}, pub, window)| + min
  {
    GoodHourHasQuorum(w, hours, h, pub, min, window);
    hide Qualifies, Evidence, Different, GoodHours;
    var mine, others := Different(w, hours[h], pub, window), Evidence(w, hours, some - {h}, pub, window);
    EvidenceSplits(w, hours, some, h, pub, window);
    forall r | r in mine ensures r !in others { NotFiledTwice(w, hours, some - {h}, h, r, pub, window); }
    assert others !! mine;
  }

  lemma GoodHourHasQuorum(w: World, hours: Hours, h: int, pub: Option<PubKey>, min: nat, window: Window)
    requires NothingRepeats(w, hours, pub, window) && h in GoodHours(w, hours, pub, min, window)
    ensures h in hours && |Different(w, hours[h], pub, window)| >= min
  {
    hide Qualifies, CountQualifying, Different, Unrepeated;
    CountIsDifferentIff(w, hours[h], pub, window);
  }

  lemma EvidenceSplits(w: World, hours: Hours, some: set<int>, h: int, pub: Option<PubKey>, window: Window)
    requires h in some && h in hours
    ensures Evidence(w, hours, some, pub, window)
            == Evidence(w, hours, some - {h}, pub, window) + Different(w, hours[h], pub, window)
  {
    hide Different;
  }

  lemma NotFiledTwice(w: World, hours: Hours, rest: set<int>, h: int, r: Reading, pub: Option<PubKey>, window: Window)
    requires FiledInItsHour(w, hours, pub, window) && h in hours && h !in rest
    requires r in Different(w, hours[h], pub, window)
    ensures r !in Evidence(w, hours, rest, pub, window)
  {
    hide Qualifies, ClockHour;
  }

  lemma OneTimesMore(min: nat, n: nat)
    ensures min * (n + 1) == min * n + min
  {}

  /** A season's verified hours, times the quorum, are no more than its different qualifying readings. */
  lemma VerifiedHoursAreBacked(w: World, hours: Hours, pub: Option<PubKey>, min: nat, window: Window)
    requires NothingRepeats(w, hours, pub, window) && FiledInItsHour(w, hours, pub, window)
    ensures min * |GoodHours(w, hours, pub, min, window)|
            <= |Evidence(w, hours, GoodHours(w, hours, pub, min, window), pub, window)|
  {
    hide GoodHours;
    HoursAreBacked(w, hours, GoodHours(w, hours, pub, min, window), pub, min, window);
  }

  // One batch published under many hours.

  function Replayed(rs: seq<Reading>, n: nat): seq<HourBatch> { seq(n, h => HourBatch(h, rs)) }

  function Everywhere(rs: seq<Reading>, n: nat): (hours: Hours)
    ensures |hours| == n && forall h :: h in hours ==> 0 <= h < n && hours[h] == rs
  {
    if n == 0 then map[] else Everywhere(rs, n - 1)[n - 1 := rs]
  }

  lemma OneHourMore(w: World, f: SeasonFacts, rs: seq<Reading>, n: nat)
    requires n > 0
    ensures var front, last := Publish(w, f.nodeId, f.season, Replayed(rs, n - 1)),
                               BuildReadingsBatch(w, f.nodeId, f.season, n - 1, rs);
            Publish(w, f.nodeId, f.season, Replayed(rs, n)) == front + [last]
  {
    hide BuildReadingsBatch;
  }

  lemma {:induction false} ReplayedHours(w: World, f: SeasonFacts, rs: seq<Reading>, n: nat)
    ensures ByHour(Publish(w, f.nodeId, f.season, Replayed(rs, n))) == Everywhere(SortedReadings(rs), n)
  {
    hide HourRoot, Sort, SortedReadings;
    if n > 0 {
      ReplayedHours(w, f, rs, n - 1);
      OneHourMore(w, f, rs, n);
      hide Publish, Replayed;
      LastHourCounts(w, f, Publish(w, f.nodeId, f.season, Replayed(rs, n - 1)), rs, n - 1);
    } else {
      assert Publish(w, f.nodeId, f.season, Replayed(rs, 0)) == [];
    }
  }

  lemma LastHourCounts(w: World, f: SeasonFacts, front: seq<HourRecord>, rs: seq<Reading>, h: int)
    ensures ByHour(front + [BuildReadingsBatch(w, f.nodeId, f.season, h, rs)])
            == ByHour(front)[h := SortedReadings(rs)]
  {
    hide HourRoot, SortedReadings;
    assert (front + [BuildReadingsBatch(w, f.nodeId, f.season, h, rs)])[..|front|] == front;
  }

  /** A qualifying reading counts one, wherever it stands. */
  lemma {:induction false} CountPermutes(w: World, rs: seq<Reading>, other: seq<Reading>, pub: Option<PubKey>,
                                         window: Window)
    requires multiset(rs) == multiset(other)
    ensures CountQualifying(w, rs, pub, window) == CountQualifying(w, other, pub, window)
  {
    var worth := (r: Reading) => if Qualifies(w, r, pub, window) then 1 else 0;
    CountIsTotal(w, rs, pub, window, worth);
    CountIsTotal(w, other, pub, window, worth);
    MapPermutes(worth, rs, other);
    TotalPermutes(Map(worth, rs), Map(worth, other));
  }

  lemma {:induction false} CountIsTotal(w: World, rs: seq<Reading>, pub: Option<PubKey>, window: Window,
                                        worth: Reading -> int)
    requires forall r :: worth(r) == if Qualifies(w, r, pub, window) then 1 else 0
    ensures CountQualifying(w, rs, pub, window) == Total(Map(worth, rs))
  {
    hide Qualifies;
    if rs != [] {
      CountIsTotal(w, rs[..|rs| - 1], pub, window, worth);
      assert Map(worth, rs)[..|rs| - 1] == Map(worth, rs[..|rs| - 1]);
    }
  }

  lemma EverywhereIsGood(w: World, rs: seq<Reading>, n: nat, pub: Option<PubKey>, min: int, window: Window)
    requires CountQualifying(w, rs, pub, window) >= min
    ensures |GoodHours(w, Everywhere(rs, n), pub, min, window)| == n
  {
    var hours := Everywhere(rs, n);
    assert GoodHours(w, hours, pub, min, window) == hours.Keys;
    assert |hours.Keys| == |hours|;
  }

  /** However many hours one and the same batch is published under, the season seals as VALID, and every one of them
      is a verified hour when the batch holds a quorum. */
  lemma OneBatchManyHours(w: World, f: SeasonFacts, pub: PubKey, seed: Seed, rs: seq<Reading>, n: nat)
    requires w.SignaturesCorrect() && w.pubkeyOf(seed) != "" && f.nodeId != "" && n > 0
    requires rs != [] && forall r :: r in rs ==> Genuine(w, f.nodeId, pub, r)
    requires CountQualifying(w, rs, Some(pub), w.window(f.start, f.end)) >= MIN_VERIFIED_READINGS_PER_HOUR
    ensures var records := Publish(w, f.nodeId, f.season, Replayed(rs, n));
            && WriterSeal(w, f, pub, records).Some?
            && WriterSeal(w, f, pub, records).value.verifiedHours == n
            && BundleSound(w, WriterBundle(w, f, pub, seed, WriterSeal(w, f, pub, records).value, records), true)
  {
    hide Genuine, BundleSound, WriterBundle, WriterSeal, Publish, GoodHours, CountQualifying, Sort;
    var records := Publish(w, f.nodeId, f.season, Replayed(rs, n));
    SealedSeasonVerifies(w, f, pub, seed, Replayed(rs, n));
    SealMeaning(w, f, pub, records);
    ReplayedHours(w, f, rs, n);
    SortedReadingsFacts(rs);
    CountPermutes(w, rs, SortedReadings(rs), Some(pub), w.window(f.start, f.end));
    EverywhereIsGood(w, SortedReadings(rs), n, Some(pub), MIN_VERIFIED_READINGS_PER_HOUR, w.window(f.start, f.end));
  }

  function Copies(r: Reading, n: nat): (rs: seq<Reading>)
    ensures |rs| == n
  {
    seq(n, _ => r)
  }

  lemma {:induction false} CopiesCount(w: World, r: Reading, n: nat, pub: Option<PubKey>, window: Window)
    requires Qualifies(w, r, pub, window)
    ensures CountQualifying(w, Copies(r, n), pub, window) == n
  {
    hide Qualifies;
    if n > 0 {
      CopiesCount(w, r, n - 1, pub, window);
      assert Copies(r, n)[..n - 1] == Copies(r, n - 1);
    }
  }

  /** So a single genuine reading, copied often enough, is any number of verified hours. */
  lemma OneReadingManyHours(w: World, f: SeasonFacts, pub: PubKey, seed: Seed, r: Reading, copies: nat, n: nat)
    requires w.SignaturesCorrect() && w.pubkeyOf(seed) != "" && f.nodeId != "" && n > 0
    requires Genuine(w, f.nodeId, pub, r) && InWindow(r, w.window(f.start, f.end))
    requires copies >= MIN_VERIFIED_READINGS_PER_HOUR
    ensures var records := Publish(w, f.nodeId, f.season, Replayed(Copies(r, copies), n));
            && WriterSeal(w, f, pub, records).Some?
            && WriterSeal(w, f, pub, records).value.verifiedHours == n
            && BundleSound(w, WriterBundle(w, f, pub, seed, WriterSeal(w, f, pub, records).value, records), true)
  {
    assert Qualifies(w, r, Some(pub), w.window(f.start, f.end));
    hide Genuine, BundleSound, WriterBundle, WriterSeal, Publish, CountQualifying, Qualifies, InWindow;
    CopiesCount(w, r, copies, Some(pub), w.window(f.start, f.end));
    OneBatchManyHours(w, f, pub, seed, Copies(r, copies), n);
  }
}

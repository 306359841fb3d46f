/** What a publish puts under its keys, told from the batches it was given (orchard_chia/datalayer/publish.py). */
module PublishContents {
  import opened Ordering
  import opened Schema
  import opened Changelist
  import opened Publish
  import opened PublishSafety

  // Only what the devices signed.

  predicate HasSig(r: Reading) { r.sig != "" }

  /** How often each reading occurs among the signed ones. */
  lemma {:induction false} SignedCounts(rs: seq<Reading>, r: Reading)
    ensures multiset(Signed(rs))[r] == if HasSig(r) then multiset(rs)[r] else 0
  {
    if rs != [] {
      SignedCounts(rs[..|rs| - 1], r);
      assert rs == rs[..|rs| - 1] + [rs[|rs| - 1]];
    }
  }

  lemma SignedMembers(rs: seq<Reading>)
    ensures forall r :: r in Signed(rs) <==> r in rs && HasSig(r)
    ensures Signed(rs) != [] <==> exists r :: r in rs && HasSig(r)
  {
    forall r ensures r in Signed(rs) <==> r in rs && HasSig(r) {
      SignedCounts(rs, r);
      assert r in Signed(rs) <==> r in multiset(Signed(rs));
      assert r in rs <==> r in multiset(rs);
    }
    if Signed(rs) != [] { assert Signed(rs)[0] in Signed(rs); }
  }

  /** A record of one batch's hour: its readings are exactly the batch's signed ones, each as often as it was given,
      under the batch's own name and the root anyone recomputes. */
  ghost predicate Tells(w: World, b: Batch, rec: HourRecord) {
    && rec.nodeId == Upper(b.node) && rec.season == Some(b.season) && rec.hour == Some(b.hour)
    && rec.readings != [] && (forall r :: r in rec.readings ==> HasSig(r))
    && (forall r :: HasSig(r) ==> multiset(rec.readings)[r] == multiset(b.readings)[r])
    && rec.hourRoot == Root(HourRoot(w, rec.readings))
  }

  lemma RecordTells(ctx: Context, b: Batch)
    requires Signed(b.readings) != []
    ensures Tells(ctx.w, b, RecordFor(ctx, b))
  {
    hide Sort, HourRoot, Signed;
    var rec := RecordFor(ctx, b);
    SignedMembers(b.readings);
    SortedReadingsFacts(Signed(b.readings));
    UpperIdempotent(b.node);
    forall r | HasSig(r) ensures multiset(rec.readings)[r] == multiset(b.readings)[r] { SignedCounts(b.readings, r); }
  }

  // Which hours.

  /** The hour is one of the day's and not published yet, the store does not hold it, something in it is signed, and
      the device's key comes with it or is on chain. */
  ghost predicate Due(ctx: Context, b: Batch) {
    && 0 <= b.hour <= 23 && !ctx.published(Upper(b.node), b.season, b.hour)
    && ReadingsKey(Upper(b.node), b.season, b.hour) !in ctx.existing
    && (exists r :: r in b.readings && HasSig(r))
    && (b.pubkey != "" || NodeKey(Upper(b.node)) in ctx.existing)
  }

  lemma PublishesExactlyWhen(ctx: Context, b: Batch)
    ensures Publishes(ctx, b) <==> Due(ctx, b)
    ensures Reason(ctx, b).None? <==> Due(ctx, b)
    ensures Reason(ctx, b) == Some(NothingSigned) <==>
              && 0 <= b.hour <= 23 && !ctx.published(Upper(b.node), b.season, b.hour)
              && forall r :: r in b.readings ==> !HasSig(r)
    ensures Reason(ctx, b) == Some(NoPubkeyOnChain) ==> b.pubkey == "" && NodeKey(Upper(b.node)) !in ctx.existing
    ensures Reason(ctx, b) == Some(AlreadyOnChain) ==> ReadingsKey(Upper(b.node), b.season, b.hour) in ctx.existing
  {
    SignedMembers(b.readings);
    hide Signed;
  }

  ghost predicate FromABatch(ctx: Context, batches: seq<Batch>, c: Publish.Change) {
    exists b :: b in batches && Due(ctx, b) && IsHourOf(ctx, b, c)
  }

  ghost predicate IsHourOf(ctx: Context, b: Batch, c: Publish.Change) {
    && c.Insert? && c.key == ReadingsKey(Upper(b.node), b.season, b.hour)
    && c.value.ReadingsValue? && Tells(ctx.w, b, c.value.record)
  }

  lemma BatchInserts(ctx: Context, b: Batch)
    ensures forall c :: c in CardChanges(ctx, b) ==> !c.key.ReadingsKey?
    ensures forall c :: c in HourChanges(ctx, b) && c.key.ReadingsKey? ==> Publishes(ctx, b) && IsHourOf(ctx, b, c)
    ensures Publishes(ctx, b) ==> HourChanges(ctx, b) != [] && IsHourOf(ctx, b, HourChanges(ctx, b)[0])
  {
    if Publishes(ctx, b) { RecordTells(ctx, b); }
    hide Signed, RecordFor, LatestFor, CardFor, Tells, Considered;
  }

  /** Every `readings:` value a plan inserts is some due batch's hour. */
  lemma {:induction false} InsertedHoursAreTheBatches(ctx: Context, batches: seq<Batch>, c: Publish.Change)
    requires c in PlanFor(ctx, batches).changes && c.key.ReadingsKey?
    ensures FromABatch(ctx, batches, c)
  {
    hide MetaFor, CardChanges, HourChanges, HourOf, Reason, Publishes, Due, IsHourOf;
    if batches == [] {
      MetaIsMeta(ctx, c);
    } else {
      var front, b := batches[..|batches| - 1], batches[|batches| - 1];
      BatchInserts(ctx, b);
      PublishesExactlyWhen(ctx, b);
      assert b in batches && forall x :: x in front ==> x in batches;
      if c in PlanFor(ctx, front).changes {
        InsertedHoursAreTheBatches(ctx, front, c);
      } else {
        assert c in HourChanges(ctx, b);
      }
    }
  }

  lemma MetaIsMeta(ctx: Context, c: Publish.Change)
    requires c in MetaChanges(ctx)
    ensures !c.key.ReadingsKey?
  {
    hide MetaFor;
  }

  /** ... and every due batch's hour is inserted. */
  lemma {:induction false} DueHoursAreInserted(ctx: Context, batches: seq<Batch>, b: Batch)
    requires b in batches && Due(ctx, b)
    ensures exists c :: c in PlanFor(ctx, batches).changes && IsHourOf(ctx, b, c)
  {
    hide MetaFor, CardChanges, HourChanges, HourOf, Reason, Publishes, Due, IsHourOf;
    var front, last := batches[..|batches| - 1], batches[|batches| - 1];
    assert batches == front + [last];
    if b in front {
      DueHoursAreInserted(ctx, front, b);
    } else {
      BatchInserts(ctx, b);
      PublishesExactlyWhen(ctx, b);
      var c := HourChanges(ctx, b)[0];
      assert c in HourChanges(ctx, b);
    }
  }

  // What `latest:` says.

  /** The newest hour of a node: its last signed reading, written now. */
  ghost predicate LatestTells(ctx: Context, b: Batch, v: Value) {
    && v.LatestValue?
    && var l := v.latest;
       && l.node == Upper(b.node) && l.season == b.season && l.hour == b.hour && l.updatedAt == ctx.now
       && l.lastSealed == b.lastSealed && l.running == (if b.running != 0 then b.running else b.hour + 1)
       && l.lastReading in b.readings && HasSig(l.lastReading)
       && forall r :: r in b.readings && HasSig(r) ==> ReadingLe(r, l.lastReading)
  }

  lemma LastIsGreatest<T(!new)>(le: (T, T) -> bool, s: seq<T>, x: T)
    requires TotalPreorder(le) && Sorted(le, s) && x in s
    ensures le(x, s[|s| - 1])
  {
    assert le(x, x);
  }

  lemma LastIsLast(rs: seq<Reading>, r: Reading)
    requires r in rs
    ensures var ordered := SortedReadings(rs); ordered != [] && ReadingLe(r, ordered[|ordered| - 1])
  {
    hide Sort, ReadingLe, Sorted, TotalPreorder;
    ReadingOrder();
    SortIsSortedPermutation(ReadingLe, rs);
    SortMembers(ReadingLe, rs);
    LastIsGreatest(ReadingLe, SortedReadings(rs), r);
  }

  lemma LatestForTells(ctx: Context, b: Batch)
    requires Signed(b.readings) != []
    ensures LatestTells(ctx, b, LatestFor(ctx, b))
  {
    hide Signed, ReadingLe, SortedReadings;
    SignedMembers(b.readings);
    SortedReadingsFacts(Signed(b.readings));
    forall r | r in b.readings && HasSig(r)
      ensures var ordered := SortedReadings(Signed(b.readings)); ReadingLe(r, ordered[|ordered| - 1])
    {
      LastIsLast(Signed(b.readings), r);
    }
  }

  function LatestOf(s: Store, node: string): Option<Value> { Get(s, LatestKey(node)) }

  lemma OthersKeepLatest(ctx: Context, s: Store, b: Batch, node: string)
    requires Publishes(ctx, b) ==> Upper(b.node) != node
    ensures LatestOf(WriteBatch(ctx, s, b), node) == LatestOf(s, node)
  {
    hide CardFor, LatestFor, RecordFor, Considered;
  }

  lemma HourWritesLatest(ctx: Context, s: Store, b: Batch)
    requires Publishes(ctx, b)
    ensures var kept, now := LatestOf(ctx.existing, Upper(b.node)), Some(LatestFor(ctx, b));
            LatestOf(WriteBatch(ctx, s, b), Upper(b.node)) == if kept == now then LatestOf(s, Upper(b.node)) else now
  {
    hide CardFor, LatestFor, RecordFor;
  }

  /** No batch of the plan publishes an hour of the node. */
  ghost predicate Silent(ctx: Context, batches: seq<Batch>, node: string) {
    forall b :: b in batches && Due(ctx, b) ==> Upper(b.node) != node
  }

  lemma {:induction false} SilentKeepsLatest(ctx: Context, batches: seq<Batch>, node: string)
    requires Silent(ctx, batches, node)
    ensures LatestOf(After(ctx, batches), node) == LatestOf(ctx.existing, node)
  {
    hide MetaFor, PlanFor, After, WriteBatch, Due, Publishes;
    if batches == [] {
      AfterMeta(ctx);
    } else {
      var front, b := batches[..|batches| - 1], batches[|batches| - 1];
      assert b in batches && forall x :: x in front ==> x in batches;
      SilentKeepsLatest(ctx, front, node);
      AfterStep(ctx, batches);
      PublishesExactlyWhen(ctx, b);
      OthersKeepLatest(ctx, After(ctx, front), b, node);
    }
  }

  /** The store's own `latest:` record of the node carries this run's time. */
  ghost predicate WrittenNow(ctx: Context, node: string) {
    var v := LatestOf(ctx.existing, node);
    v.Some? && v.value.LatestValue? && v.value.latest.updatedAt == ctx.now
  }

  lemma OldLatestIsReplaced(ctx: Context, b: Batch)
    requires Signed(b.readings) != [] && !WrittenNow(ctx, Upper(b.node))
    ensures LatestOf(ctx.existing, Upper(b.node)) != Some(LatestFor(ctx, b))
  {
    hide Signed, LatestFor;
    LatestForTells(ctx, b);
  }

  /** Of the hours a plan publishes of one node, `latest:` tells the last one given, unless a record of this very
      moment was there before and more than one hour is published. */
  lemma {:induction false} LatestIsTheHour(ctx: Context, before: seq<Batch>, b: Batch, after: seq<Batch>)
    requires Due(ctx, b) && Silent(ctx, after, Upper(b.node))
    requires Silent(ctx, before, Upper(b.node)) || !WrittenNow(ctx, Upper(b.node))
    ensures var v := LatestOf(After(ctx, before + [b] + after), Upper(b.node));
            v.Some? && LatestTells(ctx, b, v.value)
    decreases |after|
  {
    hide MetaFor, PlanFor, After, WriteBatch, Due, LatestOf, LatestTells, WrittenNow, LatestFor, Signed, Reason;
    var node, batches := Upper(b.node), before + [b] + after;
    AfterStep(ctx, batches);
    if after == [] {
      assert batches[..|batches| - 1] == before;
      PublishesExactlyWhen(ctx, b);
      HourWritesLatest(ctx, After(ctx, before), b);
      LatestForTells(ctx, b);
      if Silent(ctx, before, node) { SilentKeepsLatest(ctx, before, node); } else { OldLatestIsReplaced(ctx, b); }
    } else {
      var front, last := after[..|after| - 1], after[|after| - 1];
      assert batches[..|batches| - 1] == before + [b] + front;
      assert last in after && forall x :: x in front ==> x in after;
      LatestIsTheHour(ctx, before, b, front);
      PublishesExactlyWhen(ctx, last);
      hide Publishes, Silent;
      assert Publishes(ctx, last) ==> Upper(last.node) != node by { assert Silent(ctx, after, node); }
      OthersKeepLatest(ctx, After(ctx, before + [b] + front), last, node);
    }
  }

  // What the cards and the store's own record say.

  /** A batch that is looked at, whether or not its hour is published, and brings the device's key. */
  ghost predicate BringsCard(ctx: Context, b: Batch) {
    && 0 <= b.hour <= 23 && !ctx.published(Upper(b.node), b.season, b.hour)
    && (exists r :: r in b.readings && HasSig(r)) && b.pubkey != ""
  }

  predicate SameCard(b: Batch, c: Batch) {
    b.pubkey == c.pubkey && b.details == c.details && b.firstSeen == c.firstSeen
  }

  /** Where a plan's batches agree about a node, its card afterwards holds the device's key and details as they were
      given, and the time it was first seen, or now where none was given. */
  lemma CardIsAsGiven(ctx: Context, batches: seq<Batch>, b: Batch)
    requires b in batches && BringsCard(ctx, b)
    requires forall c :: c in batches && BringsCard(ctx, c) && Upper(c.node) == Upper(b.node) ==> SameCard(b, c)
    ensures var seen := if b.firstSeen == "" then ctx.now else b.firstSeen;
            Get(After(ctx, batches), NodeKey(Upper(b.node)))
            == Some(CardValue(CardRecord(Upper(b.node), b.pubkey, b.details, seen)))
  {
    hide After, FinalCard, Signed;
    forall c ensures CarriesCard(ctx, c) <==> BringsCard(ctx, c) { SignedMembers(c.readings); }
    FinalCardIsThere(ctx, batches, Upper(b.node));
    FinalCardIsFixed(ctx, batches, b, CardFor(ctx, b));
  }

  predicate Unchanged(ctx: Context, before: Option<Value>) {
    && before.Some? && before.value.MetaValue? && before.value.meta.createdAt != ""
    && before.value.meta.writerVersion == ctx.writerVersion && before.value.meta.seasonPubkey == ctx.seasonPubkey
  }

  /** The store's own record names the writer and the season's key, and was made when the one before it was, unless
      the writer, the key or the form has changed since. */
  lemma MetaIsAsGiven(ctx: Context, batches: seq<Batch>)
    ensures var made := Get(After(ctx, batches), MetaKey); var before := Get(ctx.existing, MetaKey);
            && made.Some? && made.value.MetaValue?
            && made.value.meta.writerVersion == ctx.writerVersion && made.value.meta.seasonPubkey == ctx.seasonPubkey
            && (made != before ==> made.value.meta.createdAt == ctx.now)
            && (Unchanged(ctx, before) ==> made == before)
  {
    AfterDescribes(ctx, batches);
    hide After;
  }
}

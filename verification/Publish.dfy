/** Planning a hot-path publish (orchard_chia/datalayer/publish.py).

    Keys are the datatype below: the colon-separated text is injective in its parts. Values are
    records, which canonical JSON tells apart. */
module Publish {
  import opened Ordering
  import opened Schema
  import opened Changelist

  datatype Key = MetaKey | NodeKey(node: string) | ReadingsKey(node: string, season: int, hour: int)
               | LatestKey(node: string)

  /** `meta:schema` as the publisher builds it: everything but these three fields is constant. */
  datatype MetaRecord = MetaRecord(writerVersion: string, createdAt: string, seasonPubkey: PubKey)

  /** `details` stands for board, firmware, sensors, geohash and label. */
  datatype CardRecord = CardRecord(node: string, pubkey: PubKey, details: string, firstSeen: string)

  datatype LatestRecord = LatestRecord(node: string, season: int, hour: int, lastSealed: Option<int>, running: int,
                                       lastReading: Reading, updatedAt: string)

  datatype Value = MetaValue(meta: MetaRecord) | CardValue(card: CardRecord) | ReadingsValue(record: HourRecord)
                 | LatestValue(latest: LatestRecord) | OtherValue(text: string)

  type Store = map<Key, Value>

  type Change = Changelist.Change<Key, Value>

  /** One closed hour of one Tree. `pubkey` is "" where none is given. */
  datatype Batch = Batch(node: string, season: int, hour: int, readings: seq<Reading>, pubkey: PubKey, details: string,
                         firstSeen: string, running: int, lastSealed: Option<int>)

  datatype Why = InvalidHour | AlreadyPublished | NothingSigned | AlreadyOnChain | NoPubkeyOnChain

  datatype Skip = Skip(node: string, season: int, hour: int, why: Why)

  datatype Hour = Hour(node: string, season: int, hour: int, root: StoredRoot)

  datatype Plan = Plan(changes: seq<Change>, hours: seq<Hour>, skipped: seq<Skip>, metaWritten: bool,
                       nodesWritten: seq<string>)

  /** What one run is given: the store as read, the clock, the watermark and the season's key. */
  datatype Context = Context(w: World, existing: Store, now: string, published: (string, int, int) -> bool,
                             seasonPubkey: PubKey, writerVersion: string)

  function Upsert(key: Key, value: Value, existing: Option<Value>): seq<Change> {
    if existing == Some(value) then []
    else if existing.Some? then [Delete(key), Insert(key, value)]
    else [Insert(key, value)]
  }

  // The meta record.

  function StableCreatedAt(prior: Option<Value>, writerVersion: string, seasonPubkey: PubKey, fallback: string)
    : string
  {
    if prior.None? || !prior.value.MetaValue? then fallback
    else
      var existing := prior.value.meta.createdAt;
      if existing == "" then fallback
      else if MetaRecord(writerVersion, existing, seasonPubkey) == prior.value.meta then existing else fallback
  }

  function MetaFor(ctx: Context): Value {
    var prior := Get(ctx.existing, MetaKey);
    MetaValue(MetaRecord(ctx.writerVersion, StableCreatedAt(prior, ctx.writerVersion, ctx.seasonPubkey, ctx.now),
                         ctx.seasonPubkey))
  }

  function MetaChanges(ctx: Context): seq<Change> { Upsert(MetaKey, MetaFor(ctx), Get(ctx.existing, MetaKey)) }

  // One hour.

  function NodeOf(b: Batch): string { Upper(b.node) }

  function Signed(rs: seq<Reading>): seq<Reading> {
    if rs == [] then []
    else
      var front, r := Signed(rs[..|rs| - 1]), rs[|rs| - 1];
      if r.sig != "" then front + [r] else front
  }

  function CardFor(ctx: Context, b: Batch): Value {
    CardValue(CardRecord(NodeOf(b), b.pubkey, b.details, if b.firstSeen != "" then b.firstSeen else ctx.now))
  }

  function RecordFor(ctx: Context, b: Batch): HourRecord {
    BuildReadingsBatch(ctx.w, NodeOf(b), b.season, b.hour, Signed(b.readings))
  }

  function LatestFor(ctx: Context, b: Batch): Value
    requires Signed(b.readings) != []
  {
    var ordered := SortedReadings(Signed(b.readings));
    SortedReadingsFacts(Signed(b.readings));
    var running := if b.running != 0 then b.running else b.hour + 1;
    LatestValue(LatestRecord(NodeOf(b), b.season, b.hour, b.lastSealed, running, ordered[|ordered| - 1], ctx.now))
  }

  function HourKey(b: Batch): Key { ReadingsKey(NodeOf(b), b.season, b.hour) }

  /** The hour is looked at: valid, not published yet, and with signed readings. */
  predicate Considered(ctx: Context, b: Batch) {
    && 0 <= b.hour <= 23 && !ctx.published(NodeOf(b), b.season, b.hour) && Signed(b.readings) != []
  }

  predicate CarriesCard(ctx: Context, b: Batch) { Considered(ctx, b) && b.pubkey != "" }

  predicate Publishes(ctx: Context, b: Batch) {
    && Considered(ctx, b) && HourKey(b) !in ctx.existing
    && (b.pubkey != "" || NodeKey(NodeOf(b)) in ctx.existing)
  }

  function CardChanges(ctx: Context, b: Batch): seq<Change> {
    var key := NodeKey(NodeOf(b));
    if CarriesCard(ctx, b) then Upsert(key, CardFor(ctx, b), Get(ctx.existing, key)) else []
  }

  function HourChanges(ctx: Context, b: Batch): seq<Change> {
    if !Publishes(ctx, b) then []
    else
      [Insert(HourKey(b), ReadingsValue(RecordFor(ctx, b)))]
      + Upsert(LatestKey(NodeOf(b)), LatestFor(ctx, b), Get(ctx.existing, LatestKey(NodeOf(b))))
  }

  function HourOf(ctx: Context, b: Batch): Hour {
    Hour(NodeOf(b), b.season, b.hour, RecordFor(ctx, b).hourRoot)
  }

  function Reason(ctx: Context, b: Batch): Option<Why> {
    if b.hour < 0 || b.hour > 23 then Some(InvalidHour)
    else if ctx.published(NodeOf(b), b.season, b.hour) then Some(AlreadyPublished)
    else if Signed(b.readings) == [] then Some(NothingSigned)
    else if HourKey(b) in ctx.existing then Some(AlreadyOnChain)
    else if b.pubkey == "" && NodeKey(NodeOf(b)) !in ctx.existing then Some(NoPubkeyOnChain)
    else None
  }

  /** What one batch does to the plan. The store consulted is always the one read before the run. */
  function AddBatch(ctx: Context, p: Plan, b: Batch): Plan {
    var card := CardChanges(ctx, b);
    Plan(p.changes + card + HourChanges(ctx, b),
         if Publishes(ctx, b) then p.hours + [HourOf(ctx, b)] else p.hours,
         if Reason(ctx, b).Some? then p.skipped + [Skip(NodeOf(b), b.season, b.hour, Reason(ctx, b).value)]
         else p.skipped,
         p.metaWritten,
         if card != [] then p.nodesWritten + [NodeOf(b)] else p.nodesWritten)
  }

  function PlanFor(ctx: Context, batches: seq<Batch>): Plan {
    if batches == [] then Plan(MetaChanges(ctx), [], [], MetaChanges(ctx) != [], [])
    else AddBatch(ctx, PlanFor(ctx, batches[..|batches| - 1]), batches[|batches| - 1])
  }

  // The loop.

  method AppendUpsert(changes: seq<Change>, key: Key, value: Value, existing: Option<Value>)
    returns (more: seq<Change>, written: bool)
    ensures more == changes + Upsert(key, value, existing)
    ensures written <==> Upsert(key, value, existing) != []
  {
    if existing == Some(value) {
      assert changes + [] == changes;
      return changes, false;
    }
    more := changes;
    if existing.Some? { more := more + [Delete(key)]; }
    more := more + [Insert(key, value)];
    return more, true;
  }

  method PlanPublish(ctx: Context, batches: seq<Batch>) returns (p: Plan)
    ensures p == PlanFor(ctx, batches)
  {
    var changes, metaWritten := AppendUpsert([], MetaKey, MetaFor(ctx), Get(ctx.existing, MetaKey));
    assert [] + MetaChanges(ctx) == MetaChanges(ctx);
    p := Plan(changes, [], [], metaWritten, []);
    for i := 0 to |batches|
      invariant p == PlanFor(ctx, batches[..i])
    {
      assert batches[..i + 1][..i] == batches[..i];
      p := PlanOne(ctx, p, batches[i]);
    }
    assert batches[..|batches|] == batches;
  }

  method PlanOne(ctx: Context, before: Plan, b: Batch) returns (p: Plan)
    ensures p == AddBatch(ctx, before, b)
  {
    hide Signed, RecordFor, LatestFor, CardFor, Upsert;
    p := before;
    assert p.changes + [] + [] == p.changes;
    if b.hour < 0 || b.hour > 23 {
      p := p.(skipped := p.skipped + [Skip(NodeOf(b), b.season, b.hour, InvalidHour)]);
      return;
    }
    if ctx.published(NodeOf(b), b.season, b.hour) {
      p := p.(skipped := p.skipped + [Skip(NodeOf(b), b.season, b.hour, AlreadyPublished)]);
      return;
    }
    var signed := Signed(b.readings);
    if signed == [] {
      p := p.(skipped := p.skipped + [Skip(NodeOf(b), b.season, b.hour, NothingSigned)]);
      return;
    }
    p := WriteCard(ctx, p, b);
    assert p.changes == before.changes + CardChanges(ctx, b) && p.changes + [] == p.changes;
    if HourKey(b) in ctx.existing {
      p := p.(skipped := p.skipped + [Skip(NodeOf(b), b.season, b.hour, AlreadyOnChain)]);
      return;
    }
    if b.pubkey == "" && NodeKey(NodeOf(b)) !in ctx.existing {
      p := p.(skipped := p.skipped + [Skip(NodeOf(b), b.season, b.hour, NoPubkeyOnChain)]);
      return;
    }
    p := WriteHour(ctx, p, b);
  }

  method WriteCard(ctx: Context, before: Plan, b: Batch) returns (p: Plan)
    requires Considered(ctx, b)
    ensures p == before.(changes := before.changes + CardChanges(ctx, b),
                         nodesWritten := if CardChanges(ctx, b) != [] then before.nodesWritten + [NodeOf(b)]
                                         else before.nodesWritten)
  {
    p := before;
    assert before.changes + [] == before.changes;
    if b.pubkey != "" {
      var key := NodeKey(NodeOf(b));
      var changes, written := AppendUpsert(p.changes, key, CardFor(ctx, b), Get(ctx.existing, key));
      p := p.(changes := changes, nodesWritten := if written then p.nodesWritten + [NodeOf(b)] else p.nodesWritten);
    }
  }

  method WriteHour(ctx: Context, before: Plan, b: Batch) returns (p: Plan)
    requires Publishes(ctx, b)
    ensures p == before.(changes := before.changes + HourChanges(ctx, b), hours := before.hours + [HourOf(ctx, b)])
  {
    hide Upsert, LatestFor, RecordFor;
    var insert := Insert(HourKey(b), ReadingsValue(RecordFor(ctx, b)));
    var key := LatestKey(NodeOf(b));
    var changes, _ := AppendUpsert(before.changes + [insert], key, LatestFor(ctx, b), Get(ctx.existing, key));
    assert changes == before.changes + ([insert] + Upsert(key, LatestFor(ctx, b), Get(ctx.existing, key)));
    p := before.(changes := changes, hours := before.hours + [HourOf(ctx, b)]);
  }
}

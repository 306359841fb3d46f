/** What a publish does to the store, and what planning it again would do
    (orchard_chia/datalayer/publish.py). */
module PublishSafety {
  import opened Ordering
  import opened Changelist
  import opened Publish

  /** The store after a run that was planned against it. */
  function After(ctx: Context, batches: seq<Batch>): Store {
    ApplyAll(ctx.existing, PlanFor(ctx, batches).changes)
  }

  function Put(s: Store, key: Key, value: Value, existing: Option<Value>): Store {
    if existing == Some(value) then s else s[key := value]
  }

  lemma UpsertPuts(s: Store, key: Key, value: Value, existing: Option<Value>)
    ensures ApplyAll(s, Upsert(key, value, existing)) == Put(s, key, value, existing)
  {
    var insert := Insert(key, value);
    if existing.Some? && existing != Some(value) {
      ApplyTwo(s, Delete(key), insert);
      assert Apply(Apply(s, Delete(key)), insert) == s[key := value];
    } else if existing.None? {
      ApplyOne(s, insert);
    }
  }

  /** What one batch writes. */
  function WriteBatch(ctx: Context, s: Store, b: Batch): Store {
    var node := NodeKey(NodeOf(b));
    var carded := if CarriesCard(ctx, b) then Put(s, node, CardFor(ctx, b), Get(ctx.existing, node)) else s;
    if !Publishes(ctx, b) then carded
    else
      var latest := LatestKey(NodeOf(b));
      Put(carded[HourKey(b) := ReadingsValue(RecordFor(ctx, b))], latest, LatestFor(ctx, b), Get(ctx.existing, latest))
  }

  lemma BatchWrites(ctx: Context, s: Store, b: Batch)
    ensures ApplyAll(s, CardChanges(ctx, b) + HourChanges(ctx, b)) == WriteBatch(ctx, s, b)
  {
    hide Upsert, CardFor, LatestFor, RecordFor, Apply;
    var node, latest := NodeKey(NodeOf(b)), LatestKey(NodeOf(b));
    ApplyAppend(s, CardChanges(ctx, b), HourChanges(ctx, b));
    if CarriesCard(ctx, b) { UpsertPuts(s, node, CardFor(ctx, b), Get(ctx.existing, node)); }
    var carded := ApplyAll(s, CardChanges(ctx, b));
    if Publishes(ctx, b) {
      var insert := Insert(HourKey(b), ReadingsValue(RecordFor(ctx, b)));
      var ups := Upsert(latest, LatestFor(ctx, b), Get(ctx.existing, latest));
      ApplyAppend(carded, [insert], ups);
      ApplyOne(carded, insert);
      InsertPuts(carded, HourKey(b), ReadingsValue(RecordFor(ctx, b)));
      UpsertPuts(Apply(carded, insert), latest, LatestFor(ctx, b), Get(ctx.existing, latest));
    }
  }

  lemma InsertPuts(s: Store, key: Key, value: Value)
    ensures Apply(s, Insert(key, value)) == s[key := value]
  {}

  lemma AfterStep(ctx: Context, batches: seq<Batch>)
    requires batches != []
    ensures After(ctx, batches) == WriteBatch(ctx, After(ctx, batches[..|batches| - 1]), batches[|batches| - 1])
  {
    var front, b := batches[..|batches| - 1], batches[|batches| - 1];
    var changes := PlanFor(ctx, front).changes;
    BatchWrites(ctx, After(ctx, front), b);
    hide WriteBatch, CardChanges, HourChanges, Reason, Publishes;
    assert changes + CardChanges(ctx, b) + HourChanges(ctx, b) == changes + (CardChanges(ctx, b) + HourChanges(ctx, b));
    ApplyAppend(ctx.existing, changes, CardChanges(ctx, b) + HourChanges(ctx, b));
  }

  lemma AfterMeta(ctx: Context)
    ensures After(ctx, []) == Put(ctx.existing, MetaKey, MetaFor(ctx), Get(ctx.existing, MetaKey))
  {
    UpsertPuts(ctx.existing, MetaKey, MetaFor(ctx), Get(ctx.existing, MetaKey));
  }

  // Which keys are there afterwards.

  function HoursPublished(ctx: Context, batches: seq<Batch>): set<Key> {
    set b | b in batches && Publishes(ctx, b) :: HourKey(b)
  }

  function NodesCarded(ctx: Context, batches: seq<Batch>): set<string> {
    set b | b in batches && CarriesCard(ctx, b) :: NodeOf(b)
  }

  lemma SetsStep(ctx: Context, front: seq<Batch>, b: Batch)
    ensures HoursPublished(ctx, front + [b])
            == HoursPublished(ctx, front) + if Publishes(ctx, b) then {HourKey(b)} else {}
    ensures NodesCarded(ctx, front + [b]) == NodesCarded(ctx, front) + if CarriesCard(ctx, b) then {NodeOf(b)} else {}
  {
    hide Publishes, CarriesCard;
  }

  /** The readings and cards of the store are those it had and those this run wrote; readings it had are
      as they were, and a node that was given no card has the one it had. */
  ghost predicate Describes(ctx: Context, batches: seq<Batch>, s: Store) {
    && (forall k: Key :: k.ReadingsKey? ==> (k in s <==> k in ctx.existing || k in HoursPublished(ctx, batches)))
    && (forall k: Key :: k.ReadingsKey? && k in ctx.existing ==> k in s && s[k] == ctx.existing[k])
    && (forall n: string :: NodeKey(n) in s <==> NodeKey(n) in ctx.existing || n in NodesCarded(ctx, batches))
    && (forall n: string :: n !in NodesCarded(ctx, batches) ==> Get(s, NodeKey(n)) == Get(ctx.existing, NodeKey(n)))
    && Get(s, MetaKey) == Some(MetaFor(ctx))
  }

  lemma {:induction false} AfterDescribes(ctx: Context, batches: seq<Batch>)
    ensures Describes(ctx, batches, After(ctx, batches))
  {
    hide MetaFor, PlanFor, CardFor, LatestFor, RecordFor;
    if batches == [] {
      AfterMeta(ctx);
    } else {
      var front, b := batches[..|batches| - 1], batches[|batches| - 1];
      AfterDescribes(ctx, front);
      AfterStep(ctx, batches);
      assert front + [b] == batches;
      SetsStep(ctx, front, b);
      hide After, HoursPublished, NodesCarded, Considered;
      DescribesStep(ctx, front, b, After(ctx, front));
    }
  }

  lemma DescribesStep(ctx: Context, front: seq<Batch>, b: Batch, s: Store)
    requires Describes(ctx, front, s)
    ensures Describes(ctx, front + [b], WriteBatch(ctx, s, b))
  {
    SetsStep(ctx, front, b);
    hide HoursPublished, NodesCarded, Considered, MetaFor, CardFor, LatestFor, RecordFor;
  }

  /** An hour that is on chain stays on chain, byte for byte, and is neither deleted nor inserted again. */
  lemma ReadingsAreAppendOnly(ctx: Context, batches: seq<Batch>)
    ensures forall k: Key :: k.ReadingsKey? && k in ctx.existing ==>
              k in After(ctx, batches) && After(ctx, batches)[k] == ctx.existing[k]
    ensures forall c :: c in PlanFor(ctx, batches).changes && c.key.ReadingsKey? ==> c.Insert? && c.key !in ctx.existing
  {
    AfterDescribes(ctx, batches);
    ReadingsOnlyInserted(ctx, batches);
  }

  /** Of the readings, only new ones are written, and none is deleted. */
  ghost predicate OnlyNewReadings(ctx: Context, changes: seq<Publish.Change>) {
    forall c :: c in changes && c.key.ReadingsKey? ==> c.Insert? && c.key !in ctx.existing
  }

  lemma BatchOnlyInserts(ctx: Context, b: Batch)
    ensures OnlyNewReadings(ctx, CardChanges(ctx, b)) && OnlyNewReadings(ctx, HourChanges(ctx, b))
  {
    hide CardFor, LatestFor, RecordFor;
  }

  lemma OnlyNewAppend(ctx: Context, a: seq<Publish.Change>, b: seq<Publish.Change>)
    requires OnlyNewReadings(ctx, a) && OnlyNewReadings(ctx, b)
    ensures OnlyNewReadings(ctx, a + b)
  {}

  lemma {:induction false} ReadingsOnlyInserted(ctx: Context, batches: seq<Batch>)
    ensures OnlyNewReadings(ctx, PlanFor(ctx, batches).changes)
  {
    hide MetaFor, CardChanges, HourChanges, HourOf, Reason, Publishes;
    if batches == [] {
      MetaIsNoReading(ctx);
    } else {
      hide OnlyNewReadings;
      var front, b := batches[..|batches| - 1], batches[|batches| - 1];
      ReadingsOnlyInserted(ctx, front);
      BatchOnlyInserts(ctx, b);
      OnlyNewAppend(ctx, PlanFor(ctx, front).changes, CardChanges(ctx, b));
      OnlyNewAppend(ctx, PlanFor(ctx, front).changes + CardChanges(ctx, b), HourChanges(ctx, b));
    }
  }

  lemma MetaIsNoReading(ctx: Context)
    ensures OnlyNewReadings(ctx, MetaChanges(ctx))
  {
    hide MetaFor;
  }

  /** The hours a plan inserts, read off its changelist. */
  function HoursIn(changes: seq<Publish.Change>): seq<Hour> {
    if changes == [] then []
    else
      var front := HoursIn(changes[..|changes| - 1]);
      match changes[|changes| - 1]
      case Insert(ReadingsKey(n, s, h), ReadingsValue(r)) => front + [Hour(n, s, h, r.hourRoot)]
      case _ => front
  }

  lemma {:induction false} HoursInAppend(a: seq<Publish.Change>, b: seq<Publish.Change>)
    ensures HoursIn(a + b) == HoursIn(a) + HoursIn(b)
  {
    if b == [] {
      assert a + b == a;
    } else {
      assert (a + b)[..|a + b| - 1] == a + b[..|b| - 1];
      HoursInAppend(a, b[..|b| - 1]);
    }
  }

  lemma UpsertHasNoHours(key: Key, value: Value, existing: Option<Value>)
    requires !key.ReadingsKey?
    ensures HoursIn(Upsert(key, value, existing)) == []
  {
    var insert := Insert(key, value);
    assert HoursIn([insert]) == [] by { assert [insert][..0] == []; }
    if existing.Some? {
      var delete: Publish.Change := Delete(key);
      assert [delete, insert][..1] == [delete] && [delete][..0] == [];
    }
  }

  lemma BatchHours(ctx: Context, b: Batch)
    ensures HoursIn(CardChanges(ctx, b)) == []
    ensures HoursIn(HourChanges(ctx, b)) == if Publishes(ctx, b) then [HourOf(ctx, b)] else []
  {
    var insert := Insert(HourKey(b), ReadingsValue(RecordFor(ctx, b)));
    UpsertHasNoHours(NodeKey(NodeOf(b)), CardFor(ctx, b), Get(ctx.existing, NodeKey(NodeOf(b))));
    hide Upsert, CardFor, LatestFor, RecordFor;
    if Publishes(ctx, b) {
      var ups := Upsert(LatestKey(NodeOf(b)), LatestFor(ctx, b), Get(ctx.existing, LatestKey(NodeOf(b))));
      UpsertHasNoHours(LatestKey(NodeOf(b)), LatestFor(ctx, b), Get(ctx.existing, LatestKey(NodeOf(b))));
      HoursInAppend([insert], ups);
      assert [insert][..0] == [];
      assert HoursIn([insert]) == HoursIn([]) + [HourOf(ctx, b)];
    }
  }

  /** The plan's list of hours is exactly what its changelist inserts, in order. */
  lemma {:induction false} HoursAreTheInserts(ctx: Context, batches: seq<Batch>)
    ensures PlanFor(ctx, batches).hours == HoursIn(PlanFor(ctx, batches).changes)
  {
    hide CardChanges, HourChanges, Publishes, HourOf, Reason, MetaFor;
    if batches == [] {
      UpsertHasNoHours(MetaKey, MetaFor(ctx), Get(ctx.existing, MetaKey));
    } else {
      var front, b := batches[..|batches| - 1], batches[|batches| - 1];
      var changes := PlanFor(ctx, front).changes;
      HoursAreTheInserts(ctx, front);
      BatchHours(ctx, b);
      HoursInAppend(changes + CardChanges(ctx, b), HourChanges(ctx, b));
      HoursInAppend(changes, CardChanges(ctx, b));
    }
  }

  /** Every hour inserted has its node's card in the store afterwards. */
  lemma InsertedHoursAreVerifiable(ctx: Context, batches: seq<Batch>, b: Batch)
    requires b in batches && Publishes(ctx, b)
    ensures HourKey(b) in After(ctx, batches) && NodeKey(NodeOf(b)) in After(ctx, batches)
  {
    AfterDescribes(ctx, batches);
    assert HourKey(b) in HoursPublished(ctx, batches);
    assert b.pubkey != "" ==> NodeOf(b) in NodesCarded(ctx, batches);
    hide After, Considered;
  }

  // Planning again.

  /** The card a node has after the run: the last one that was written, or the one it had. */
  function FinalCard(ctx: Context, batches: seq<Batch>, node: string): Option<Value> {
    if batches == [] then Get(ctx.existing, NodeKey(node))
    else
      var b := batches[|batches| - 1];
      if CarriesCard(ctx, b) && NodeOf(b) == node && Get(ctx.existing, NodeKey(node)) != Some(CardFor(ctx, b))
      then Some(CardFor(ctx, b)) else FinalCard(ctx, batches[..|batches| - 1], node)
  }

  lemma CardAfterBatch(ctx: Context, s: Store, b: Batch, node: string)
    ensures Get(WriteBatch(ctx, s, b), NodeKey(node)) ==
            if CarriesCard(ctx, b) && NodeOf(b) == node && Get(ctx.existing, NodeKey(node)) != Some(CardFor(ctx, b))
            then Some(CardFor(ctx, b)) else Get(s, NodeKey(node))
  {
    hide CarriesCard, CardFor, LatestFor, RecordFor;
  }

  lemma {:induction false} FinalCardIsThere(ctx: Context, batches: seq<Batch>, node: string)
    ensures Get(After(ctx, batches), NodeKey(node)) == FinalCard(ctx, batches, node)
  {
    hide After, CarriesCard, CardFor, WriteBatch;
    if batches == [] {
      AfterMeta(ctx);
    } else {
      FinalCardIsThere(ctx, batches[..|batches| - 1], node);
      AfterStep(ctx, batches);
      CardAfterBatch(ctx, After(ctx, batches[..|batches| - 1]), batches[|batches| - 1], node);
    }
  }

  /** A second run: another clock, a watermark that forgets nothing, the store as the first run left it. */
  ghost predicate SecondRun(ctx: Context, again: Context, batches: seq<Batch>) {
    && again.w == ctx.w && again.existing == After(ctx, batches)
    && again.seasonPubkey == ctx.seasonPubkey && again.writerVersion == ctx.writerVersion
    && (forall n, s, h :: ctx.published(n, s, h) ==> again.published(n, s, h))
  }

  lemma MetaIsStable(ctx: Context, again: Context, batches: seq<Batch>)
    requires SecondRun(ctx, again, batches) && ctx.now != ""
    ensures MetaChanges(again) == []
  {
    AfterDescribes(ctx, batches);
    hide After;
    assert Get(again.existing, MetaKey) == Some(MetaFor(ctx));
  }

  /** The batch carries a card that is not the one its node ended up with. */
  ghost predicate Rewrites(ctx: Context, again: Context, batches: seq<Batch>, b: Batch) {
    CarriesCard(again, b) && FinalCard(ctx, batches, NodeOf(b)) != Some(CardFor(again, b))
  }

  /** The batch had no key for its node, its hour is not published, and the run brought the node's first card. */
  ghost predicate Reopens(ctx: Context, again: Context, batches: seq<Batch>, b: Batch) {
    && Considered(again, b) && b.pubkey == ""
    && NodeKey(NodeOf(b)) !in ctx.existing && NodeOf(b) in NodesCarded(ctx, batches)
    && HourKey(b) !in ctx.existing && HourKey(b) !in HoursPublished(ctx, batches)
  }

  lemma CardAgain(ctx: Context, again: Context, batches: seq<Batch>, b: Batch)
    requires SecondRun(ctx, again, batches) && b in batches
    ensures CardChanges(again, b) == [] <==> !Rewrites(ctx, again, batches, b)
  {
    hide After, CarriesCard, CardFor, FinalCard;
    FinalCardIsThere(ctx, batches, NodeOf(b));
  }

  lemma HourAgain(ctx: Context, again: Context, batches: seq<Batch>, b: Batch)
    requires SecondRun(ctx, again, batches) && b in batches
    ensures HourChanges(again, b) == [] <==> !Reopens(ctx, again, batches, b)
  {
    hide After, RecordFor, LatestFor;
    AfterDescribes(ctx, batches);
    if Considered(again, b) {
      assert Considered(ctx, b);
      if Publishes(ctx, b) { assert HourKey(b) in HoursPublished(ctx, batches); }
    }
  }

  lemma {:induction false} NothingAgain(ctx: Context, again: Context, batches: seq<Batch>, some: seq<Batch>)
    requires SecondRun(ctx, again, batches) && ctx.now != ""
    requires forall b :: b in some ==> b in batches
    ensures PlanFor(again, some).changes == [] <==>
              forall b :: b in some ==> !Rewrites(ctx, again, batches, b) && !Reopens(ctx, again, batches, b)
  {
    hide After, Considered, Rewrites, Reopens, CardChanges, HourChanges;
    if some == [] {
      MetaIsStable(ctx, again, batches);
    } else {
      var front, b := some[..|some| - 1], some[|some| - 1];
      assert b in some && forall c :: c in some <==> c in front || c == b;
      NothingAgain(ctx, again, batches, front);
      CardAgain(ctx, again, batches, b);
      HourAgain(ctx, again, batches, b);
    }
  }

  /** Planning the same batches again, at any clock, changes nothing exactly when every card carried is the one
      its node ended up with, and no hour waited for a card that this run brought. */
  lemma ReplanIsEmptyIff(ctx: Context, again: Context, batches: seq<Batch>)
    requires SecondRun(ctx, again, batches) && ctx.now != ""
    ensures PlanFor(again, batches).changes == [] <==>
              forall b :: b in batches ==> !Rewrites(ctx, again, batches, b) && !Reopens(ctx, again, batches, b)
  {
    NothingAgain(ctx, again, batches, batches);
  }

  // One card per node.

  /** Batches of one node carry one card. */
  ghost predicate FixedCards(batches: seq<Batch>) {
    forall b, c :: b in batches && c in batches && NodeOf(b) == NodeOf(c) ==>
      b.pubkey == c.pubkey && b.details == c.details && b.firstSeen == c.firstSeen
  }

  /** A card without a date is dated by the clock. */
  predicate DatedByClock(ctx: Context, again: Context, b: Batch) {
    CarriesCard(again, b) && b.firstSeen == "" && again.now != ctx.now
  }

  lemma {:induction false} FinalCardIsOneOf(ctx: Context, batches: seq<Batch>, node: string, card: Value)
    requires forall c :: c in batches && CarriesCard(ctx, c) && NodeOf(c) == node ==> CardFor(ctx, c) == card
    ensures FinalCard(ctx, batches, node) == Some(card)
            || FinalCard(ctx, batches, node) == Get(ctx.existing, NodeKey(node))
  {
    hide CarriesCard, CardFor;
    if batches != [] {
      assert batches[|batches| - 1] in batches;
      FinalCardIsOneOf(ctx, batches[..|batches| - 1], node, card);
    }
  }

  lemma {:induction false} FinalCardIsFixed(ctx: Context, batches: seq<Batch>, b: Batch, card: Value)
    requires b in batches && CarriesCard(ctx, b)
    requires forall c :: c in batches && CarriesCard(ctx, c) && NodeOf(c) == NodeOf(b) ==> CardFor(ctx, c) == card
    ensures FinalCard(ctx, batches, NodeOf(b)) == Some(card)
  {
    hide CarriesCard, CardFor;
    var front, last := batches[..|batches| - 1], batches[|batches| - 1];
    assert last in batches && batches == front + [last];
    if CarriesCard(ctx, last) && NodeOf(last) == NodeOf(b) {
      FinalCardIsOneOf(ctx, front, NodeOf(b), card);
    } else {
      FinalCardIsFixed(ctx, front, b, card);
    }
  }

  /** With one card per node, all that can be written again is a card dated by a clock that has moved. */
  lemma OneCardPerNode(ctx: Context, again: Context, batches: seq<Batch>)
    requires SecondRun(ctx, again, batches) && ctx.now != "" && FixedCards(batches)
    ensures PlanFor(again, batches).changes == [] <==> forall b :: b in batches ==> !DatedByClock(ctx, again, b)
  {
    hide PlanFor, SecondRun, FixedCards, Rewrites, Reopens, DatedByClock;
    ReplanIsEmptyIff(ctx, again, batches);
    forall b | b in batches
      ensures Rewrites(ctx, again, batches, b) || Reopens(ctx, again, batches, b) <==> DatedByClock(ctx, again, b)
    {
      OneCardAgain(ctx, again, batches, b);
    }
  }

  lemma OneCardAgain(ctx: Context, again: Context, batches: seq<Batch>, b: Batch)
    requires SecondRun(ctx, again, batches) && FixedCards(batches) && b in batches
    ensures !Reopens(ctx, again, batches, b)
    ensures Rewrites(ctx, again, batches, b) <==> DatedByClock(ctx, again, b)
  {
    hide After, FinalCard, Considered;
    if CarriesCard(again, b) {
      assert Considered(ctx, b) by { StillConsidered(ctx, again, batches, b); }
      FinalCardIsFixed(ctx, batches, b, CardFor(ctx, b));
    }
  }

  lemma StillConsidered(ctx: Context, again: Context, batches: seq<Batch>, b: Batch)
    requires SecondRun(ctx, again, batches) && Considered(again, b)
    ensures Considered(ctx, b)
  {
    hide After, Signed;
  }

  /** Two different cards for a node are written over each other by every run. */
  lemma TwoCardsNeverSettle(ctx: Context, again: Context, batches: seq<Batch>, b: Batch, c: Batch)
    requires SecondRun(ctx, again, batches) && ctx.now != "" && b in batches && c in batches
    requires CarriesCard(again, b) && CarriesCard(again, c) && NodeOf(b) == NodeOf(c)
    requires CardFor(again, b) != CardFor(again, c)
    ensures PlanFor(again, batches).changes != []
  {
    hide PlanFor, SecondRun, CarriesCard, CardFor, FinalCard, Reopens;
    ReplanIsEmptyIff(ctx, again, batches);
    assert Rewrites(ctx, again, batches, b) || Rewrites(ctx, again, batches, c);
  }
}

/** What a run of the season sealer leaves in the store, told from what was published
    (orchard_chia/datalayer/main.py, orchard_chia/datalayer/verify.py). */
module WriterAgreement {
  import opened Ordering
  import opened Schema
  import opened Seal
  import opened Verify
  import opened Payout
  import opened Changelist
  import opened AttestWriter
  import Agreement

  // What a payload says.

  /** The hours that count towards a record, when only one with a public key can check signatures. */
  ghost function CountedHours(w: World, hours: Hours, pub: Option<PubKey>, window: Window): nat {
    |GoodHours(w, hours, pub, MIN_VERIFIED_READINGS_PER_HOUR, window)|
  }

  ghost predicate SomeHour(records: seq<HourRecord>) { exists rec :: rec in records && rec.hour.Some? }

  lemma SomeHourIsThere(records: seq<HourRecord>)
    ensures ByHour(records) != map[] <==> SomeHour(records)
  {
    ByHourFacts(records);
    if rec :| rec in records && rec.hour.Some? {
      ByHourHas(records, rec);
    }
    if ByHour(records) != map[] {
      assert |ByHour(records).Keys| == |ByHour(records)| != 0;
      var h := OneOf(ByHour(records).Keys);
    }
  }

  /** Something is signed for a season exactly when the oracle answered, the readings were read, the season is not
      passed over for having no hours, and some reading was published or placeholders are asked for. */
  lemma SignedExactlyWhen(env: Env, n: Node, season: int, height: int)
    ensures PayloadFor(env, n, season, height).Some? <==>
              var up, pub := env.uptime(n.id, season), env.published(n.id, season);
              && up.Uptime? && !(up.hours == 0 && env.skipEmpty) && pub.Published?
              && (SomeHour(pub.records) || env.writePlaceholders)
  {
    var pub := env.published(n.id, season);
    if pub.Published? { SomeHourIsThere(pub.records); }
    hide ByHour, SeasonRoot, HourRoots, GoodHours, SomeHour, Mismatches, ReadingTotal, BuildAttest;
  }

  /** Who and when: the same whether there are readings or not. */
  lemma PayloadIsOfTheSeason(env: Env, n: Node, season: int, height: int)
    requires PayloadFor(env, n, season, height).Some?
    ensures env.uptime(n.id, season).Uptime?
    ensures var b, up := PayloadFor(env, n, season, height).value, env.uptime(n.id, season);
            && b.nodeId == Upper(n.id) && b.season == Some(season)
            && b.seasonStart == up.start && b.seasonEnd == up.end && b.signedAt == up.sealTime
            && b.hoursOnline == up.hours && b.blockHeight == Some(height) && b.seasonRoot == b.dataHash
  {
    hide SealOf, SeasonScore;
  }

  /** With published hours, the record claims what those hours recount to, whatever the oracle says of uptime. */
  lemma PayloadIsTheRecount(env: Env, n: Node, season: int, height: int)
    requires env.published(n.id, season).Published? && SomeHour(env.published(n.id, season).records)
    requires PayloadFor(env, n, season, height).Some?
    ensures env.uptime(n.id, season).Uptime?
    ensures var b, up := PayloadFor(env, n, season, height).value, env.uptime(n.id, season);
            var records := env.published(n.id, season).records;
            && b.verifiedHours
               == Some(CountedHours(env.w, ByHour(records), n.devicePub, env.w.window(up.start, up.end)))
            && b.seasonRoot == SeasonRoot(env.w, HourRoots(env.w, ByHour(records)))
            && b.readingCount == Some(ReadingTotal(records)) && b.rootMismatches == Number(Mismatches(env.w, records))
            && b.minReadings == Some(MIN_VERIFIED_READINGS_PER_HOUR)
            && b.sealSource == Some(SEAL_READINGS) && b.sigsVerified == Some(n.devicePub.Some?)
  {
    SomeHourIsThere(env.published(n.id, season).records);
    hide ByHour, SeasonRoot, HourRoots, GoodHours, SomeHour, Mismatches, ReadingTotal, SeasonScore;
  }

  /** Without any, it is a placeholder that claims nothing, contradicts nothing and is paid nothing. */
  lemma PlaceholderClaimsNothing(env: Env, n: Node, season: int, height: int)
    requires env.published(n.id, season).Published? && !SomeHour(env.published(n.id, season).records)
    requires PayloadFor(env, n, season, height).Some?
    ensures env.uptime(n.id, season).Uptime?
    ensures var b := PayloadFor(env, n, season, height).value;
            && DeclaresPlaceholder(b) && !PlaceholderInconsistent(b) && b.sigsVerified == Some(false)
            && b.verifiedHours == Some(0) && b.readingCount == Some(0) && b.seasonScore == Some(0)
            && b.seasonRoot == env.w.placeholderRoot(n.id, season, env.uptime(n.id, season).hours)
            && !AttestWriter.ProofBacked(Record(SignAttest(env.w, b, env.seed)))
            && PaidHours(b, true, false) == (0, Unproven)
  {
    SomeHourIsThere(env.published(n.id, season).records);
    hide ByHour, SeasonRoot, HourRoots, GoodHours, SomeHour, Mismatches, ReadingTotal;
  }

  // The counters.

  /** The readings of a record that has an hour. */
  function HourReadings(rec: HourRecord): seq<Reading> { if rec.hour.Some? then rec.readings else [] }

  function AllPublished(records: seq<HourRecord>): seq<Reading> {
    if records == [] then [] else AllPublished(records[..|records| - 1]) + HourReadings(records[|records| - 1])
  }

  lemma {:induction false} ReadingTotalCounts(records: seq<HourRecord>)
    ensures ReadingTotal(records) == |AllPublished(records)|
  {
    if records != [] { ReadingTotalCounts(records[..|records| - 1]); }
  }

  /** The signed count of mismatches is zero exactly when no stored root differs from the recomputed one. */
  lemma {:induction false} NoMismatchExactlyWhen(w: World, records: seq<HourRecord>)
    ensures Mismatches(w, records) == 0 <==>
              forall rec :: rec in records && rec.hour.Some? ==>
                rec.hourRoot == NoRoot || rec.hourRoot == Root(HourRoot(w, rec.readings))
  {
    hide HourRoot;
    if records != [] {
      var front, last := records[..|records| - 1], records[|records| - 1];
      NoMismatchExactlyWhen(w, front);
      assert records == front + [last];
    }
  }

  // End to end.

  /** Nothing on chain yet, genuine hours published, and an oracle that answers. */
  ghost predicate Fresh(env: Env, store: Store, n: Node, season: int, pub: PubKey,
                        batches: seq<Agreement.HourBatch>) {
    && KeyFor(n.id, season) !in store && n.id != "" && n.devicePub == Some(pub)
    && env.w.SignaturesCorrect() && env.w.pubkeyOf(env.seed) != ""
    && env.uptime(n.id, season).Uptime? && !(env.uptime(n.id, season).hours == 0 && env.skipEmpty)
    && batches != [] && Agreement.GenuineBatches(env.w, n.id, pub, batches)
    && env.published(n.id, season) == Published(Agreement.Publish(env.w, n.id, season, batches))
  }

  /** The bundle anyone downloads for the season: the record in the store and the published hours. */
  ghost function Download(env: Env, n: Node, pub: PubKey, a: Attest, records: seq<HourRecord>): Bundle {
    Bundle(BuildMeta(env.w.pubkeyOf(env.seed)), BuildNode(n.id, pub), a, records)
  }

  /** What a run of the sealer puts on chain over genuine hours is accepted in full by the verifier, and is paid the
      recount anyone can make. */
  lemma RunVerifies(env: Env, store: Store, nodes: seq<Node>, current: int, height: int, i: nat, season: int,
                    pub: PubKey, batches: seq<Agreement.HourBatch>)
    requires FaithfulReads(env) && DistinctNodes(nodes) && i < |nodes| && nodes[i].first <= season < current
    requires Fresh(env, store, nodes[i], season, pub, batches)
    ensures var after, k := After(env, store, nodes, current, height), KeyFor(nodes[i].id, season);
            && k in after && after[k].Record?
            && var b := Download(env, nodes[i], pub, after[k].attest, env.published(nodes[i].id, season).records);
               && BundleSound(env.w, b, true) && Basis(b.attest.body, b.meta.schemaVersion) == Some(true)
               && PaidHours(b.attest.body, true, false) == (Recount(env.w, b), Verified)
  {
    hide *;
    var n := nodes[i];
    RunSeals(env, store, nodes, current, height, KeyFor(n.id, season));
    KeyParts(n.id, season);
    FreshIsSealed(env, store, n, season, height, pub, batches);
    FreshVerifies(env, store, n, season, height, pub, batches);
    Stored(After(env, store, nodes, current, height), KeyFor(n.id, season));
  }

  lemma KeyParts(id: string, season: int)
    ensures KeyFor(id, season).0 == Upper(id) && KeyFor(id, season).1 == season
  {}

  lemma Stored(store: Store, k: Key)
    ensures Get(store, k).Some? <==> k in store
    ensures k in store ==> Get(store, k) == Some(store[k])
  {}

  lemma FreshIsSealed(env: Env, store: Store, n: Node, season: int, height: int, pub: PubKey,
                      batches: seq<Agreement.HourBatch>)
    requires Fresh(env, store, n, season, pub, batches)
    ensures PayloadFor(env, n, season, height).Some?
    ensures Sealed(env, store, n, season, height)
            == Some(Record(SignAttest(env.w, PayloadFor(env, n, season, height).value, env.seed)))
  {
    SignedExactlyWhen(env, n, season, height);
    PublishedHours(env.w, n.id, season, batches);
    hide PayloadFor, SomeHour, Agreement.GenuineBatches, Agreement.Publish, SignAttest, Basis;
  }

  lemma PublishedHours(w: World, id: string, season: int, batches: seq<Agreement.HourBatch>)
    requires batches != []
    ensures SomeHour(Agreement.Publish(w, id, season, batches))
  {
    hide HourRoot, Sort;
    assert Agreement.Publish(w, id, season, batches)[0] in Agreement.Publish(w, id, season, batches);
  }

  /** The facts the season is signed under. */
  function Facts(n: Node, season: int, up: Uptime, height: int): Agreement.SeasonFacts
    requires up.Uptime?
  {
    Agreement.SeasonFacts(n.id, season, up.start, up.end, up.hours, height, up.sealTime)
  }

  lemma FreshVerifies(env: Env, store: Store, n: Node, season: int, height: int, pub: PubKey,
                      batches: seq<Agreement.HourBatch>)
    requires Fresh(env, store, n, season, pub, batches) && PayloadFor(env, n, season, height).Some?
    ensures var a := SignAttest(env.w, PayloadFor(env, n, season, height).value, env.seed);
            var b := Download(env, n, pub, a, env.published(n.id, season).records);
            && BundleSound(env.w, b, true) && Basis(b.attest.body, b.meta.schemaVersion) == Some(true)
            && PaidHours(b.attest.body, true, false) == (Recount(env.w, b), Verified)
  {
    FreshParts(env, store, n, season, pub, batches);
    hide *;
    var f := Facts(n, season, env.uptime(n.id, season), height);
    Agreement.SealedSeasonVerifies(env.w, f, pub, env.seed, batches);
    SameBundle(env, n, season, height, pub);
    PayloadIsBacked(env, n, season, height, pub);
    var b := Download(env, n, pub, SignAttest(env.w, PayloadFor(env, n, season, height).value, env.seed),
                      env.published(n.id, season).records);
    Agreement.ValidBundleIsPaidItsRecount(env.w, b, false);
  }

  lemma FreshParts(env: Env, store: Store, n: Node, season: int, pub: PubKey, batches: seq<Agreement.HourBatch>)
    requires Fresh(env, store, n, season, pub, batches)
    ensures env.uptime(n.id, season).Uptime? && n.devicePub == Some(pub) && env.published(n.id, season).Published?
    ensures var f := Facts(n, season, env.uptime(n.id, season), 0); f.nodeId == n.id != "" && f.season == season
    ensures forall height :: Facts(n, season, env.uptime(n.id, season), height).nodeId == n.id
                             && Facts(n, season, env.uptime(n.id, season), height).season == season
    ensures env.published(n.id, season).records == Agreement.Publish(env.w, n.id, season, batches)
    ensures env.w.SignaturesCorrect() && env.w.pubkeyOf(env.seed) != ""
    ensures batches != [] && Agreement.GenuineBatches(env.w, n.id, pub, batches)
    ensures SomeHour(env.published(n.id, season).records)
  {
    PublishedHours(env.w, n.id, season, batches);
    hide Agreement.GenuineBatches, Agreement.Publish, SomeHour;
  }

  /** The sealer's record is the one whose season was proved to verify. */
  lemma SameBundle(env: Env, n: Node, season: int, height: int, pub: PubKey)
    requires env.uptime(n.id, season).Uptime? && env.published(n.id, season).Published? && n.devicePub == Some(pub)
    requires PayloadFor(env, n, season, height).Some?
    ensures var f, records := Facts(n, season, env.uptime(n.id, season), height), env.published(n.id, season).records;
            Agreement.WriterSeal(env.w, f, pub, records).Some? ==>
              Download(env, n, pub, SignAttest(env.w, PayloadFor(env, n, season, height).value, env.seed), records)
              == Agreement.WriterBundle(env.w, f, pub, env.seed, Agreement.WriterSeal(env.w, f, pub, records).value,
                                        records)
  {
    hide SealOf, SignAttest, SeasonScore;
  }

  lemma PayloadIsBacked(env: Env, n: Node, season: int, height: int, pub: PubKey)
    requires env.published(n.id, season).Published? && SomeHour(env.published(n.id, season).records)
    requires PayloadFor(env, n, season, height).Some? && n.devicePub == Some(pub)
    ensures var a := SignAttest(env.w, PayloadFor(env, n, season, height).value, env.seed);
            Basis(Download(env, n, pub, a, env.published(n.id, season).records).attest.body,
                  BuildMeta(env.w.pubkeyOf(env.seed)).schemaVersion) == Some(true)
    ensures forall a: Attest :: Download(env, n, pub, a, env.published(n.id, season).records).meta
                                == BuildMeta(env.w.pubkeyOf(env.seed))
  {
    PayloadIsTheRecount(env, n, season, height);
    hide PayloadFor, SomeHour, SeasonRoot, HourRoots, ByHour, Mismatches, ReadingTotal, CountedHours;
  }
}

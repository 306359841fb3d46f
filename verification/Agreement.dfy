/** The writer, the verifier and the payer agree about one season. */
module Agreement {
  import opened Ordering
  import opened Merkle
  import opened Schema
  import opened Seal
  import opened Verify
  import opened Payout

  /** One published hour, as the hot-path writer is given it. */
  datatype HourBatch = HourBatch(hour: int, readings: seq<Reading>)

  function Publish(w: World, nodeId: string, season: int, batches: seq<HourBatch>): seq<HourRecord> {
    seq(|batches|, i requires 0 <= i < |batches| =>
      BuildReadingsBatch(w, nodeId, season, batches[i].hour, batches[i].readings))
  }

  /** A reading the device of `nodeId` signed and anchored. */
  predicate Genuine(w: World, nodeId: string, pub: PubKey, r: Reading) {
    Upper(r.body.nodeId) == Upper(nodeId) && VerifyReading(w, r, pub) && AnchorWellformed(w, r.body.blockAnchor)
  }

  ghost predicate GenuineBatches(w: World, nodeId: string, pub: PubKey, batches: seq<HourBatch>) {
    forall i :: 0 <= i < |batches| ==>
      batches[i].readings != [] && forall r :: r in batches[i].readings ==> Genuine(w, nodeId, pub, r)
  }

  /** What the season writer signs for these records, with the default quorum. */
  datatype SeasonFacts = SeasonFacts(nodeId: string, season: int, start: string, end: string,
                                     hoursOnline: int, blockHeight: int, signedAt: string)

  ghost function WriterSeal(w: World, f: SeasonFacts, pub: PubKey, records: seq<HourRecord>): Option<SealInputs> {
    SealOf(w, records, Some(pub), MIN_VERIFIED_READINGS_PER_HOUR, w.window(f.start, f.end))
  }

  function WriterBundle(w: World, f: SeasonFacts, pub: PubKey, seed: Seed, s: SealInputs, records: seq<HourRecord>)
    : Bundle
  {
    var attest :=
      SealedAttest(w, s, f.nodeId, f.season, f.start, f.end, f.hoursOnline, f.blockHeight, f.signedAt, seed);
    Bundle(BuildMeta(w.pubkeyOf(seed)), BuildNode(f.nodeId, pub), attest, records)
  }

  lemma PublishedRecord(w: World, nodeId: string, season: int, pub: PubKey, batches: seq<HourBatch>, rec: HourRecord)
    requires GenuineBatches(w, nodeId, pub, batches) && rec in Publish(w, nodeId, season, batches)
    ensures rec.nodeId == Upper(nodeId) && rec.season == Some(season) && rec.hour.Some? && rec.readings != []
    ensures rec.hourRoot == Root(HourRoot(w, rec.readings))
    ensures forall r :: r in rec.readings ==> Genuine(w, nodeId, pub, r)
  {
    hide Genuine, HourRoot, Sort;
    var i :| 0 <= i < |batches| && rec == Publish(w, nodeId, season, batches)[i];
    SortedReadingsFacts(batches[i].readings);
    forall r | r in rec.readings ensures Genuine(w, nodeId, pub, r) {
      assert r in batches[i].readings;
    }
  }

  lemma {:induction false} NoMismatchWhenRootsMatch(w: World, records: seq<HourRecord>)
    requires forall rec :: rec in records ==> rec.hourRoot == Root(HourRoot(w, rec.readings))
    ensures Mismatches(w, records) == 0
  {
    hide HourRoot;
    if records != [] {
      NoMismatchWhenRootsMatch(w, records[..|records| - 1]);
      assert records[|records| - 1] in records;
    }
  }

  ghost predicate PublishedRecords(w: World, f: SeasonFacts, pub: PubKey, records: seq<HourRecord>) {
    && records != []
    && (forall rec :: rec in records ==>
          && rec.nodeId == Upper(f.nodeId) && rec.season == Some(f.season) && rec.hour.Some? && rec.readings != []
          && rec.hourRoot == Root(HourRoot(w, rec.readings)))
    && (forall rec, r :: rec in records && r in rec.readings ==> Genuine(w, f.nodeId, pub, r))
  }

  /** What the writer seals, the verifier accepts. */
  lemma SealedSeasonVerifies(w: World, f: SeasonFacts, pub: PubKey, seed: Seed, batches: seq<HourBatch>)
    requires w.SignaturesCorrect() && w.pubkeyOf(seed) != "" && f.nodeId != ""
    requires batches != [] && GenuineBatches(w, f.nodeId, pub, batches)
    ensures WriterSeal(w, f, pub, Publish(w, f.nodeId, f.season, batches)).Some?
    ensures var records := Publish(w, f.nodeId, f.season, batches);
            BundleSound(w, WriterBundle(w, f, pub, seed, WriterSeal(w, f, pub, records).value, records), true)
  {
    BatchesArePublished(w, f, pub, batches);
    hide Publish, GenuineBatches, PublishedRecords;
    SealedRecordsVerify(w, f, pub, seed, Publish(w, f.nodeId, f.season, batches));
  }

  lemma BatchesArePublished(w: World, f: SeasonFacts, pub: PubKey, batches: seq<HourBatch>)
    requires batches != [] && GenuineBatches(w, f.nodeId, pub, batches)
    ensures PublishedRecords(w, f, pub, Publish(w, f.nodeId, f.season, batches))
  {
    var records := Publish(w, f.nodeId, f.season, batches);
    hide HourRoot;
    forall rec | rec in records
      ensures rec.nodeId == Upper(f.nodeId) && rec.season == Some(f.season) && rec.hour.Some? && rec.readings != []
      ensures rec.hourRoot == Root(HourRoot(w, rec.readings))
      ensures forall r :: r in rec.readings ==> Genuine(w, f.nodeId, pub, r)
    {
      PublishedRecord(w, f.nodeId, f.season, pub, batches, rec);
    }
  }

  lemma SealedRecordsVerify(w: World, f: SeasonFacts, pub: PubKey, seed: Seed, records: seq<HourRecord>)
    requires w.SignaturesCorrect() && w.pubkeyOf(seed) != "" && f.nodeId != "" && PublishedRecords(w, f, pub, records)
    ensures WriterSeal(w, f, pub, records).Some?
    ensures BundleSound(w, WriterBundle(w, f, pub, seed, WriterSeal(w, f, pub, records).value, records), true)
  {
    hide Holds, WriterBundle, WriterSeal, Basis, PlaceholderSealed, PublishedRecords, HasReadings;
    SealExists(w, f, pub, records);
    var s := WriterSeal(w, f, pub, records).value;
    DeclarationsHold(w, f, pub, seed, s, records);
    WriterBundleFacts(w, f, pub, seed, s, records);
    ReadingsHold(w, f, pub, WriterBundle(w, f, pub, seed, s, records));
    RecountHolds(w, f, pub, seed, s, records);
    assert WellFormed in DECLARATION_CHECKS && OneNodeSeason in DECLARATION_CHECKS;
    assert SchemaSupported in DECLARATION_CHECKS && ProofBacked in DECLARATION_CHECKS;
  }

  lemma SealExists(w: World, f: SeasonFacts, pub: PubKey, records: seq<HourRecord>)
    requires PublishedRecords(w, f, pub, records)
    ensures var s := WriterSeal(w, f, pub, records); s.Some? && s.value.sigsVerified && s.value.rootMismatches == 0
  {
    hide HourRoot, SeasonRoot, GoodHours;
    assert records[0] in records;
    ByHourHas(records, records[0]);
    NoMismatchWhenRootsMatch(w, records);
  }

  lemma WriterBundleFacts(w: World, f: SeasonFacts, pub: PubKey, seed: Seed, s: SealInputs, records: seq<HourRecord>)
    ensures var b := WriterBundle(w, f, pub, seed, s, records);
            var a := b.attest.body;
            && b.records == records && b.node.pubkey == pub && a.seasonStart == f.start && a.seasonEnd == f.end
            && a.verifiedHours == Some(s.verifiedHours) && a.seasonScore == Some(SeasonScore(s.verifiedHours))
            && a.seasonRoot == s.seasonRoot == a.dataHash && a.minReadings == Some(s.minReadings)
  {
    hide SeasonScore;
  }

  lemma SealMeaning(w: World, f: SeasonFacts, pub: PubKey, records: seq<HourRecord>)
    ensures WriterSeal(w, f, pub, records).Some? ==>
              var s := WriterSeal(w, f, pub, records).value;
              && s.seasonRoot == SeasonRoot(w, HourRoots(w, ByHour(records)))
              && s.minReadings == MIN_VERIFIED_READINGS_PER_HOUR
              && s.verifiedHours == |GoodHours(w, ByHour(records), Some(pub), MIN_VERIFIED_READINGS_PER_HOUR,
                                               w.window(f.start, f.end))|
  {
    hide SeasonRoot, HourRoots, ByHour, GoodHours;
  }

  lemma RecountHolds(w: World, f: SeasonFacts, pub: PubKey, seed: Seed, s: SealInputs, records: seq<HourRecord>)
    requires WriterSeal(w, f, pub, records) == Some(s)
    ensures forall n :: n in SEASON_CHECKS ==> Holds(w, WriterBundle(w, f, pub, seed, s, records), n)
  {
    hide SeasonRoot, HourRoots, ByHour, SeasonScore, GoodHours, Holds, WriterBundle, WriterSeal;
    var b := WriterBundle(w, f, pub, seed, s, records);
    WriterBundleFacts(w, f, pub, seed, s, records);
    SealMeaning(w, f, pub, records);
    SeasonMeaning(w, b);
  }

  lemma OneNodeHolds(w: World, f: SeasonFacts, pub: PubKey, b: Bundle)
    requires f.nodeId != "" && PublishedRecords(w, f, pub, b.records)
    requires b.node.nodeId == b.attest.body.nodeId == Upper(f.nodeId) && b.attest.body.season == Some(f.season)
    ensures Holds(w, b, WellFormed) && Holds(w, b, OneNodeSeason)
  {
    hide SeasonScore, HourRoot;
    UpperIdempotent(f.nodeId);
    forall rec | rec in b.records ensures RecordAgrees(b, rec) {
      forall r | r in rec.readings ensures Upper(r.body.nodeId) == Upper(f.nodeId) {
        assert Genuine(w, f.nodeId, pub, r);
      }
    }
    assert b.node.nodeId != "" by { assert |Upper(f.nodeId)| == |f.nodeId|; }
  }

  lemma DeclarationsHold(w: World, f: SeasonFacts, pub: PubKey, seed: Seed, s: SealInputs, records: seq<HourRecord>)
    requires w.SignaturesCorrect() && w.pubkeyOf(seed) != "" && f.nodeId != ""
    requires s.sigsVerified && s.rootMismatches == 0
    requires PublishedRecords(w, f, pub, records)
    ensures var b := WriterBundle(w, f, pub, seed, s, records);
            && (forall n :: n in DECLARATION_CHECKS ==> Holds(w, b, n))
            && Holds(w, b, NoMismatches) && Holds(w, b, PlaceholderConsistent) && Holds(w, b, OracleSignature)
            && !PlaceholderSealed(w, b) && Basis(b.attest.body, b.meta.schemaVersion) == Some(true)
  {
    hide SeasonScore, HourRoot, PublishedRecords, RecordAgrees;
    var b := WriterBundle(w, f, pub, seed, s, records);
    OneNodeHolds(w, f, pub, b);
    assert Holds(w, b, SchemaSupported) && Holds(w, b, ProofBacked);
  }

  lemma SignaturesHold(w: World, f: SeasonFacts, pub: PubKey, b: Bundle)
    requires PublishedRecords(w, f, pub, b.records) && b.node.pubkey == pub
    ensures Holds(w, b, DeviceSignatures) && Holds(w, b, Anchors)
  {
    hide HourRoot, ByHour, SeasonRoot, HourRoots, GoodHours, Basis, SeasonScore, VerifyReading, AnchorWellformed;
    assert b.records[0] in b.records;
    forall rec, r | rec in b.records && r in rec.readings
      ensures VerifyReading(w, r, pub) && AnchorWellformed(w, r.body.blockAnchor)
    {
      assert Genuine(w, f.nodeId, pub, r);
    }
  }

  lemma ReadingsHold(w: World, f: SeasonFacts, pub: PubKey, b: Bundle)
    requires PublishedRecords(w, f, pub, b.records) && b.node.pubkey == pub
    ensures forall n :: n in READING_CHECKS ==> Holds(w, b, n)
  {
    hide Holds, PublishedRecords;
    SignaturesHold(w, f, pub, b);
    RootsHold(w, f, pub, b);
  }

  lemma RootsHold(w: World, f: SeasonFacts, pub: PubKey, b: Bundle)
    requires PublishedRecords(w, f, pub, b.records)
    ensures Holds(w, b, ReadingProofs) && Holds(w, b, HourRootsMatch)
  {
    hide HourRoot, ByHour, SeasonRoot, HourRoots, GoodHours, Basis, SeasonScore;
    assert b.records[0] in b.records;
  }

  // Seasons sealed before a record had to declare anything about itself.

  /** A record of schema 1.0: no basis, no mismatch count, no quorum, so one reading makes an hour. */
  ghost function LegacyBody(w: World, f: SeasonFacts, pub: PubKey, records: seq<HourRecord>): AttestBody {
    var hours := ByHour(records);
    var n := |GoodHours(w, hours, Some(pub), LEGACY_MIN_READINGS_PER_HOUR, w.window(f.start, f.end))|;
    var root := SeasonRoot(w, HourRoots(w, hours));
    AttestBody(Upper(f.nodeId), Some(f.season), f.start, f.end, f.hoursOnline, Some(n), None, None, Absent,
               Some(SeasonScore(n)), None, None, Some(f.blockHeight), root, root, f.signedAt)
  }

  ghost function LegacyBundle(w: World, f: SeasonFacts, pub: PubKey, seed: Seed, records: seq<HourRecord>): Bundle {
    Bundle(Meta(Version("1", Some((1, 0))), Some("secp256r1"), Some("secp256r1"), w.pubkeyOf(seed)),
           BuildNode(f.nodeId, pub), SignAttest(w, LegacyBody(w, f, pub, records), seed), records)
  }

  /** Such a record, sealed over genuine hours, is still VALID, and is paid its recount. */
  lemma LegacySeasonVerifies(w: World, f: SeasonFacts, pub: PubKey, seed: Seed, batches: seq<HourBatch>)
    requires w.SignaturesCorrect() && w.pubkeyOf(seed) != "" && f.nodeId != ""
    requires batches != [] && GenuineBatches(w, f.nodeId, pub, batches)
    ensures var b := LegacyBundle(w, f, pub, seed, Publish(w, f.nodeId, f.season, batches));
            && BundleSound(w, b, true) && Basis(b.attest.body, b.meta.schemaVersion) == None
            && (b.attest.body.seasonRoot == PlaceholderHash(w, b)
                || PaidHours(b.attest.body, true, false) == (Recount(w, b), VerifiedUndeclared))
  {
    BatchesArePublished(w, f, pub, batches);
    hide Publish, GenuineBatches, PublishedRecords, BundleSound, LegacyBundle, Holds, PlaceholderHash, Recount, Basis;
    LegacyRecordsVerify(w, f, pub, seed, Publish(w, f.nodeId, f.season, batches));
    UndeclaredBundlePay(w, LegacyBundle(w, f, pub, seed, Publish(w, f.nodeId, f.season, batches)));
  }

  lemma LegacyRecordsVerify(w: World, f: SeasonFacts, pub: PubKey, seed: Seed, records: seq<HourRecord>)
    requires w.SignaturesCorrect() && w.pubkeyOf(seed) != "" && f.nodeId != "" && PublishedRecords(w, f, pub, records)
    ensures var b := LegacyBundle(w, f, pub, seed, records);
            BundleSound(w, b, true) && Basis(b.attest.body, b.meta.schemaVersion) == None
  {
    hide PublishedRecords, Holds, LegacyBundle, HasReadings, PlaceholderSealed, Basis;
    var b := LegacyBundle(w, f, pub, seed, records);
    LegacyIdentity(w, f, pub, seed, records);
    LegacyDeclarations(w, f, pub, seed, records);
    LegacySeason(w, f, pub, seed, records);
    OneNodeHolds(w, f, pub, b);
    ReadingsHold(w, f, pub, b);
  }

  lemma LegacyIdentity(w: World, f: SeasonFacts, pub: PubKey, seed: Seed, records: seq<HourRecord>)
    ensures var b := LegacyBundle(w, f, pub, seed, records);
            && b.records == records && b.node == BuildNode(f.nodeId, pub)
            && b.attest.body.nodeId == Upper(f.nodeId) && b.attest.body.season == Some(f.season)
            && Basis(b.attest.body, b.meta.schemaVersion) == None
  {
    hide SeasonRoot, HourRoots, ByHour, SeasonScore, GoodHours;
  }

  lemma LegacyDeclarations(w: World, f: SeasonFacts, pub: PubKey, seed: Seed, records: seq<HourRecord>)
    requires w.SignaturesCorrect() && w.pubkeyOf(seed) != ""
    ensures var b := LegacyBundle(w, f, pub, seed, records);
            && Holds(w, b, SchemaSupported) && Holds(w, b, ProofBacked) && Holds(w, b, NoMismatches)
            && Holds(w, b, PlaceholderConsistent) && Holds(w, b, OracleSignature)
            && (PlaceholderSealed(w, b) ==> Holds(w, b, PlaceholderRoot))
  {
    hide SeasonRoot, HourRoots, ByHour, SeasonScore, GoodHours, PlaceholderHash, LegacyBundle;
    LegacyFields(w, f, pub, seed, records);
    HeaderMeaning(w, LegacyBundle(w, f, pub, seed, records));
  }

  lemma LegacyFields(w: World, f: SeasonFacts, pub: PubKey, seed: Seed, records: seq<HourRecord>)
    ensures var b := LegacyBundle(w, f, pub, seed, records);
            var a := b.attest.body;
            && b.meta == Meta(Version("1", Some((1, 0))), Some("secp256r1"), Some("secp256r1"), w.pubkeyOf(seed))
            && a.sealSource == None && a.rootMismatches == Absent && a.seasonRoot == a.dataHash
            && b.attest.oracleSig == w.sign(seed, w.attestBytes(a))
  {
    hide SeasonRoot, HourRoots, ByHour, SeasonScore, GoodHours;
  }

  lemma LegacySeason(w: World, f: SeasonFacts, pub: PubKey, seed: Seed, records: seq<HourRecord>)
    ensures forall n :: n in SEASON_CHECKS ==> Holds(w, LegacyBundle(w, f, pub, seed, records), n)
  {
    hide SeasonRoot, HourRoots, ByHour, SeasonScore, GoodHours, Holds;
    SeasonMeaning(w, LegacyBundle(w, f, pub, seed, records));
  }

  lemma SeasonCheckHolds(w: World, b: Bundle, n: CheckName)
    requires BundleSound(w, b, true) && !PlaceholderSealed(w, b) && n in SEASON_CHECKS
    ensures Holds(w, b, n)
  {
    hide Holds, PlaceholderSealed, HasReadings;
  }

  lemma ClaimIsRecount(w: World, b: Bundle)
    requires BundleSound(w, b, true) && !PlaceholderSealed(w, b)
    ensures b.attest.body.verifiedHours == Some(Recount(w, b))
  {
    hide BundleSound, PlaceholderSealed, ByHour, GoodHours;
    assert VerifiedHoursMatch in SEASON_CHECKS;
    SeasonCheckHolds(w, b, VerifiedHoursMatch);
  }

  /** Conversely: what a VALID, proof-backed bundle claims is the recount under its own quorum and
      window, and that is exactly what is paid. */
  lemma ValidBundleIsPaidItsRecount(w: World, b: Bundle, payUnproven: bool)
    requires BundleSound(w, b, true) && Basis(b.attest.body, b.meta.schemaVersion) == Some(true)
    ensures b.attest.body.verifiedHours == Some(Recount(w, b))
    ensures PaidHours(b.attest.body, true, payUnproven) == (Recount(w, b), Verified)
    ensures Recount(w, b) <= |ByHour(b.records)|
  {
    hide BundleSound, ByHour, GoodHours;
    var a := b.attest.body;
    ClaimIsRecount(w, b);
    var hours := ByHour(b.records);
    GoodHoursAreHours(w, hours, Some(b.node.pubkey), DeclaredQuorum(a), w.window(a.seasonStart, a.seasonEnd));
    var good := GoodHours(w, hours, Some(b.node.pubkey), DeclaredQuorum(a), w.window(a.seasonStart, a.seasonEnd));
    SubsetSize(good, hours.Keys);
  }

  lemma {:induction false} SubsetSize<T>(a: set<T>, b: set<T>)
    requires a <= b
    ensures |a| <= |b|
  {
    if a != {} {
      var x :| x in a;
      SubsetSize(a - {x}, b - {x});
    }
  }

  /** A valid bundle that declares no basis at all is either an old-style placeholder, which carries
      the placeholder hash as its root, or its recount is what is paid. */
  lemma UndeclaredBundlePay(w: World, b: Bundle)
    requires BundleSound(w, b, true) && Basis(b.attest.body, b.meta.schemaVersion) == None
    ensures b.attest.body.seasonRoot == PlaceholderHash(w, b) ||
            PaidHours(b.attest.body, true, false) == (Recount(w, b), VerifiedUndeclared)
  {
    hide BundleSound, ByHour, GoodHours;
    if b.attest.body.seasonRoot != PlaceholderHash(w, b) { ClaimIsRecount(w, b); }
  }

  /** By default a record is paid the verified hours it claims unless it calls itself a placeholder, whatever basis
      it declares. Saying nothing about the basis never pays less, and it pays more exactly where a placeholder
      claims hours. */
  lemma PaidWhateverItsBasis(a: AttestBody)
    ensures PaidHours(a, true, false).0 != 0 <==> Claims(a.verifiedHours) && !DeclaresPlaceholder(a)
    ensures PaidHours(a, true, false).0 != 0 ==> a.verifiedHours == Some(PaidHours(a, true, false).0)
    ensures PaidHours(a.(sealSource := None), true, false).0 != PaidHours(a, true, false).0
            <==> DeclaresPlaceholder(a) && Claims(a.verifiedHours)
  {}

  ghost predicate NonEmptyRecords(b: Bundle) {
    b.records != [] && forall rec :: rec in b.records ==> rec.hour.Some? && rec.readings != []
  }

  /** Two bundles that both verify against the same season root hold the same readings in the same
      order; a writer who shows two different histories has produced a hash collision. */
  lemma OneRootOneHistory(w: World, b: Bundle, c: Bundle)
    requires w.CanonicalInjective() && NonEmptyRecords(b) && NonEmptyRecords(c)
    requires BundleSound(w, b, true) && Basis(b.attest.body, b.meta.schemaVersion) == Some(true)
    requires BundleSound(w, c, true) && Basis(c.attest.body, c.meta.schemaVersion) == Some(true)
    requires b.attest.body.seasonRoot == c.attest.body.seasonRoot
    ensures NonEmptyHours(ByHour(b.records)) && NonEmptyHours(ByHour(c.records))
    ensures match Clash(w.sha256, SeasonTree(w, ByHour(b.records)), SeasonTree(w, ByHour(c.records)))
            case None => AllReadings(ByHour(b.records)) == AllReadings(ByHour(c.records))
            case Some(x) => IsCollision(w.sha256, x.0, x.1)
  {
    RecordsAreNonEmptyHours(b);
    RecordsAreNonEmptyHours(c);
    SoundRoot(w, b);
    SoundRoot(w, c);
    hide BundleSound, Basis, SeasonRoot, HourRoots, AllReadings;
    SeasonRootBindsReadings(w, ByHour(b.records), ByHour(c.records));
  }

  lemma SoundRoot(w: World, b: Bundle)
    requires BundleSound(w, b, true) && Basis(b.attest.body, b.meta.schemaVersion) == Some(true)
    ensures SeasonRoot(w, HourRoots(w, ByHour(b.records))) == b.attest.body.seasonRoot
  {
    hide SeasonRoot, HourRoots, ByHour, HasReadings;
    assert !PlaceholderSealed(w, b);
    assert SeasonRootMatch in SEASON_CHECKS;
    assert Holds(w, b, SeasonRootMatch);
  }

  lemma RecordsAreNonEmptyHours(b: Bundle)
    requires NonEmptyRecords(b)
    ensures NonEmptyHours(ByHour(b.records))
  {
    ByHourFacts(b.records);
    assert b.records[0] in b.records;
    ByHourHas(b.records, b.records[0]);
  }
}

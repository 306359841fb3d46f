/** The independent verifier of a published season (orchard_chia/datalayer/verify.py). */
module Verify {
  import opened Ordering
  import opened Merkle
  import opened Schema

  datatype CheckName =
    | WellFormed | OneNodeSeason | SchemaSupported | ProofBacked | NoMismatches | PlaceholderConsistent
    | PlaceholderRoot | DeviceSignatures | Anchors | ReadingProofs | HourRootsMatch
    | SeasonRootMatch | VerifiedHoursMatch | ScoreMatch | OracleSignature

  datatype Check = Check(name: CheckName, ok: bool)

  datatype Bundle = Bundle(meta: Meta, node: NodeCard, attest: Attest, records: seq<HourRecord>)

  datatype Report = Report(season: int, hours: seq<int>, checks: seq<Check>)

  predicate Valid(report: Report) {
    report.checks != [] && forall c :: c in report.checks ==> c.ok
  }

  /** 16 characters that read as a non-zero hexadecimal number. */
  predicate AnchorWellformed(w: World, anchor: Option<string>) {
    anchor.Some? && |anchor.value| == 16 && w.hexValue(anchor.value).Some? && w.hexValue(anchor.value).value != 0
  }

  // What each check asserts about a bundle, stated without the program's loops.

  ghost predicate HasReadings(b: Bundle) {
    exists rec :: rec in b.records && rec.readings != []
  }

  ghost predicate AllReadingsSatisfy(b: Bundle, p: Reading -> bool) {
    forall rec, r :: rec in b.records && r in rec.readings ==> p(r)
  }

  function DeclaredQuorum(a: AttestBody): int {
    if a.minReadings.Some? && a.minReadings.value >= 1 then a.minReadings.value else LEGACY_MIN_READINGS_PER_HOUR
  }

  /** The hours anyone recounts from the bundle, under the quorum and window its record declares. */
  function Recount(w: World, b: Bundle): nat {
    var a := b.attest.body;
    |GoodHours(w, ByHour(b.records), Some(b.node.pubkey), DeclaredQuorum(a), w.window(a.seasonStart, a.seasonEnd))|
  }

  function PlaceholderHash(w: World, b: Bundle): Digest {
    var season := b.attest.body.season;
    w.placeholderRoot(Upper(b.node.nodeId), if season.Some? then season.value else 0, b.attest.body.hoursOnline)
  }

  predicate PlaceholderSealed(w: World, b: Bundle) {
    var a := b.attest.body;
    (DeclaresPlaceholder(a) && !PlaceholderInconsistent(a)) ||
    (Basis(a, b.meta.schemaVersion) == None && a.seasonRoot == PlaceholderHash(w, b))
  }

  /** A record that declares nothing admits nothing; one that cannot be read is a defect. */
  predicate MismatchFree(d: Declared) { d.Absent? || d == Number(0) }

  ghost predicate RecordAgrees(b: Bundle, rec: HourRecord) {
    var nid := Upper(b.node.nodeId);
    && Upper(rec.nodeId) == nid
    && (b.attest.body.season.Some? ==> rec.season == b.attest.body.season)
    && forall r :: r in rec.readings ==> Upper(r.body.nodeId) == nid
  }

  ghost predicate Holds(w: World, b: Bundle, n: CheckName) {
    var a := b.attest.body;
    match n
    case WellFormed => forall rec :: rec in b.records ==> rec.hour.Some?
    case OneNodeSeason =>
      && b.node.nodeId != "" && Upper(a.nodeId) == Upper(b.node.nodeId)
      && forall rec :: rec in b.records ==> RecordAgrees(b, rec)
    case SchemaSupported =>
      && b.meta.schemaVersion.Version? && b.meta.schemaVersion.majorText == "1"
      && (b.meta.deviceSig.Some? ==> b.meta.deviceSig.value == "secp256r1")
      && (b.meta.seasonSig.Some? ==> b.meta.seasonSig.value == "secp256r1")
    case ProofBacked => Basis(a, b.meta.schemaVersion) != Some(false)
    case NoMismatches => MismatchFree(a.rootMismatches)
    case PlaceholderConsistent => !PlaceholderInconsistent(a)
    case PlaceholderRoot => a.seasonRoot == PlaceholderHash(w, b) && a.dataHash == PlaceholderHash(w, b)
    case DeviceSignatures => HasReadings(b) && AllReadingsSatisfy(b, r => VerifyReading(w, r, b.node.pubkey))
    case Anchors => HasReadings(b) && AllReadingsSatisfy(b, (r: Reading) => AnchorWellformed(w, r.body.blockAnchor))
    case ReadingProofs =>
      && (exists rec :: rec in b.records && rec.hour.Some? && rec.readings != [])
      && (forall rec :: rec in b.records && rec.hour.Some? && rec.readings != [] ==>
            rec.hourRoot == Root(HourRoot(w, rec.readings)))
    case HourRootsMatch =>
      forall rec :: rec in b.records && rec.hour.Some? ==> rec.hourRoot == Root(HourRoot(w, rec.readings))
    case SeasonRootMatch => SeasonRoot(w, HourRoots(w, ByHour(b.records))) == a.seasonRoot == a.dataHash
    case VerifiedHoursMatch => a.verifiedHours == Some(Recount(w, b))
    case ScoreMatch => a.seasonScore == Some(SeasonScore(Recount(w, b)))
    case OracleSignature => b.meta.seasonPubkey != "" && VerifyAttest(w, b.attest, b.meta.seasonPubkey)
  }

  const DECLARATION_CHECKS: seq<CheckName> := [WellFormed, OneNodeSeason, SchemaSupported, ProofBacked]
  const READING_CHECKS: seq<CheckName> := [DeviceSignatures, Anchors, ReadingProofs, HourRootsMatch]
  const SEASON_CHECKS: seq<CheckName> := [SeasonRootMatch, VerifiedHoursMatch, ScoreMatch]

  /** The checks on the records' own declarations; three of them are reported only when they bite. */
  ghost function HeaderNames(w: World, b: Bundle): seq<CheckName> {
    DECLARATION_CHECKS
    + (if Holds(w, b, NoMismatches) then [] else [NoMismatches])
    + (if Holds(w, b, PlaceholderConsistent) then [] else [PlaceholderConsistent])
    + (if PlaceholderSealed(w, b) then [PlaceholderRoot] else [])
  }

  /** The checks of a report, in order. `full` is False for a bundle known to be a partial season. */
  ghost function Reported(w: World, b: Bundle, full: bool): seq<CheckName> {
    HeaderNames(w, b)
    + (if PlaceholderSealed(w, b) && !HasReadings(b) then [] else READING_CHECKS)
    + (if full && !PlaceholderSealed(w, b) then SEASON_CHECKS else [])
    + [OracleSignature]
  }

  ghost function Marks(w: World, b: Bundle, names: seq<CheckName>): seq<Check> {
    seq(|names|, i requires 0 <= i < |names| => Check(names[i], Holds(w, b, names[i])))
  }

  lemma MarksAppend(w: World, b: Bundle, x: seq<CheckName>, y: seq<CheckName>)
    ensures Marks(w, b, x + y) == Marks(w, b, x) + Marks(w, b, y)
  {
    hide Holds;
  }

  lemma MarksOfThree(w: World, b: Bundle, x: CheckName, y: CheckName, z: CheckName)
    ensures Marks(w, b, [x, y, z]) == [Check(x, Holds(w, b, x)), Check(y, Holds(w, b, y)), Check(z, Holds(w, b, z))]
  {
    hide Holds;
  }

  /** When a bundle is VALID: every declaration is in order and, unless it is an honest empty
      placeholder, everything recomputes. */
  ghost predicate BundleSound(w: World, b: Bundle, full: bool) {
    && Holds(w, b, WellFormed) && Holds(w, b, OneNodeSeason) && Holds(w, b, SchemaSupported)
    && Holds(w, b, ProofBacked) && Holds(w, b, NoMismatches) && Holds(w, b, PlaceholderConsistent)
    && Holds(w, b, OracleSignature)
    && (PlaceholderSealed(w, b) ==> Holds(w, b, PlaceholderRoot))
    && (!PlaceholderSealed(w, b) || HasReadings(b) ==> forall n :: n in READING_CHECKS ==> Holds(w, b, n))
    && (full && !PlaceholderSealed(w, b) ==> forall n :: n in SEASON_CHECKS ==> Holds(w, b, n))
  }

  lemma ValidIffAllHold(w: World, b: Bundle, names: seq<CheckName>, report: Report)
    requires names != [] && report.checks == Marks(w, b, names)
    ensures Valid(report) <==> forall n :: n in names ==> Holds(w, b, n)
  {
    hide Holds;
    forall n | n in names && Valid(report) ensures Holds(w, b, n) {
      var i :| 0 <= i < |names| && names[i] == n;
      assert report.checks[i] in report.checks;
    }
  }

  lemma ValidIffSound(w: World, b: Bundle, full: bool, report: Report)
    requires report.checks == Marks(w, b, Reported(w, b, full))
    ensures Valid(report) <==> BundleSound(w, b, full)
  {
    hide Holds, PlaceholderSealed, HasReadings, Marks;
    var names, header := Reported(w, b, full), HeaderNames(w, b);
    assert |header| >= 4 && header[0] == WellFormed && header[1] == OneNodeSeason
           && header[2] == SchemaSupported && header[3] == ProofBacked;
    assert NoMismatches in header <==> !Holds(w, b, NoMismatches);
    assert PlaceholderConsistent in header <==> !Holds(w, b, PlaceholderConsistent);
    assert PlaceholderRoot in header <==> PlaceholderSealed(w, b);
    assert OracleSignature in names;
    hide HeaderNames;
    ValidIffAllHold(w, b, names, report);
  }

  // The loops.

  method CheckRecordsAgree(b: Bundle) returns (ok: bool)
    ensures ok <==> forall rec :: rec in b.records ==> RecordAgrees(b, rec)
  {
    ok := true;
    for i := 0 to |b.records|
      invariant ok <==> forall rec :: rec in b.records[..i] ==> RecordAgrees(b, rec)
    {
      assert b.records[..i + 1] == b.records[..i] + [b.records[i]];
      var mine := CheckRecordAgrees(b, b.records[i]);
      hide RecordAgrees;
      ok := ok && mine;
    }
    assert b.records[..|b.records|] == b.records;
  }

  method CheckRecordAgrees(b: Bundle, rec: HourRecord) returns (ok: bool)
    ensures ok <==> RecordAgrees(b, rec)
  {
    var nid := Upper(b.node.nodeId);
    var native := true;
    for j := 0 to |rec.readings|
      invariant native <==> forall r :: r in rec.readings[..j] ==> Upper(r.body.nodeId) == nid
    {
      assert rec.readings[..j + 1] == rec.readings[..j] + [rec.readings[j]];
      native := native && Upper(rec.readings[j].body.nodeId) == nid;
    }
    assert rec.readings[..|rec.readings|] == rec.readings;
    ok := Upper(rec.nodeId) == nid && (b.attest.body.season.Some? ==> rec.season == b.attest.body.season) && native;
  }

  /** Whether there are readings at all, and whether they all have a property. */
  method CheckReadings(b: Bundle, p: Reading -> bool) returns (any: bool, good: bool)
    ensures any <==> HasReadings(b)
    ensures good <==> AllReadingsSatisfy(b, p)
  {
    any, good := false, true;
    for i := 0 to |b.records|
      invariant any <==> exists rec :: rec in b.records[..i] && rec.readings != []
      invariant good <==> forall rec, r :: rec in b.records[..i] && r in rec.readings ==> p(r)
    {
      var rec := b.records[i];
      var mine := true;
      for j := 0 to |rec.readings|
        invariant mine <==> forall r :: r in rec.readings[..j] ==> p(r)
      {
        assert rec.readings[..j + 1] == rec.readings[..j] + [rec.readings[j]];
        mine := mine && p(rec.readings[j]);
      }
      assert rec.readings[..|rec.readings|] == rec.readings;
      assert b.records[..i + 1] == b.records[..i] + [rec];
      any, good := any || rec.readings != [], good && mine;
    }
    assert b.records[..|b.records|] == b.records;
  }

  /** Every leaf of one hour is proven to the stored root by its own audit path. */
  method ProveHour(w: World, rec: HourRecord) returns (ok: bool)
    requires rec.readings != []
    ensures ok <==> rec.hourRoot == Root(HourRoot(w, rec.readings))
  {
    if !rec.hourRoot.Root? {
      return false;
    }
    SortedReadingsFacts(rec.readings);
    var leaves := LeafHashes(w.sha256, HourItems(w, rec.readings));
    assert |leaves| == |rec.readings|;
    ok := true;
    for i := 0 to |leaves|
      invariant ok <==> i == 0 || rec.hourRoot.digest == TreeHash(w.sha256, leaves)
    {
      var path := MerkleProof(w.sha256, leaves, i);
      var accepted := VerifyProof(w.sha256, leaves[i], path.value, rec.hourRoot.digest);
      PathReachesRoot(w.sha256, leaves, i);
      ok := ok && accepted;
    }
  }

  method CheckProofs(w: World, b: Bundle) returns (ok: bool)
    ensures ok <==> Holds(w, b, ReadingProofs)
  {
    hide HourRoot;
    var proven, failed := false, false;
    for i := 0 to |b.records|
      invariant proven || failed <==> exists rec :: rec in b.records[..i] && rec.hour.Some? && rec.readings != []
      invariant !failed <==> forall rec :: rec in b.records[..i] && rec.hour.Some? && rec.readings != [] ==>
                               rec.hourRoot == Root(HourRoot(w, rec.readings))
    {
      var rec := b.records[i];
      assert b.records[..i + 1] == b.records[..i] + [rec];
      if rec.hour.Some? && rec.readings != [] {
        var good := ProveHour(w, rec);
        proven, failed := proven || good, failed || !good;
      }
    }
    assert b.records[..|b.records|] == b.records;
    ok := proven && !failed;
  }

  method CheckHourRoots(w: World, b: Bundle) returns (ok: bool)
    ensures ok <==> Holds(w, b, HourRootsMatch)
  {
    ok := true;
    for i := 0 to |b.records|
      invariant ok <==> forall rec :: rec in b.records[..i] && rec.hour.Some? ==>
                          rec.hourRoot == Root(HourRoot(w, rec.readings))
    {
      var rec := b.records[i];
      assert b.records[..i + 1] == b.records[..i] + [rec];
      if rec.hour.Some? {
        var root := ComputeHourRoot(w, rec.readings);
        ok := ok && rec.hourRoot == Root(root);
      }
    }
    assert b.records[..|b.records|] == b.records;
  }

  method GroupByHour(records: seq<HourRecord>) returns (byHour: Hours, malformed: nat)
    ensures byHour == ByHour(records)
    ensures malformed == 0 <==> forall rec :: rec in records ==> rec.hour.Some?
  {
    byHour, malformed := map[], 0;
    for i := 0 to |records|
      invariant byHour == ByHour(records[..i])
      invariant malformed == 0 <==> forall rec :: rec in records[..i] ==> rec.hour.Some?
    {
      var rec := records[i];
      assert records[..i + 1] == records[..i] + [rec];
      assert records[..i + 1][..i] == records[..i];
      if rec.hour.None? {
        malformed := malformed + 1;
      } else {
        byHour := byHour[rec.hour.value := rec.readings];
      }
    }
    assert records[..|records|] == records;
  }

  method DeclarationChecks(w: World, b: Bundle, malformed: nat) returns (checks: seq<Check>)
    requires malformed == 0 <==> Holds(w, b, WellFormed)
    ensures checks == Marks(w, b, DECLARATION_CHECKS)
  {
    var a := b.attest.body;
    var agree := CheckRecordsAgree(b);
    checks := [
      Check(WellFormed, malformed == 0),
      Check(OneNodeSeason, b.node.nodeId != "" && Upper(a.nodeId) == Upper(b.node.nodeId) && agree),
      Check(SchemaSupported, b.meta.schemaVersion.Version? && b.meta.schemaVersion.majorText == "1" &&
                             (b.meta.deviceSig.Some? ==> b.meta.deviceSig.value == "secp256r1") &&
                             (b.meta.seasonSig.Some? ==> b.meta.seasonSig.value == "secp256r1")),
      Check(ProofBacked, Basis(a, b.meta.schemaVersion) != Some(false))];
  }

  method HeaderChecks(w: World, b: Bundle, malformed: nat) returns (checks: seq<Check>)
    requires malformed == 0 <==> Holds(w, b, WellFormed)
    ensures checks == Marks(w, b, HeaderNames(w, b))
  {
    hide Holds, PlaceholderSealed, PlaceholderInconsistent, Marks, PlaceholderHash;
    var a := b.attest.body;
    var mismatchFree, consistent := MismatchFree(a.rootMismatches), !PlaceholderInconsistent(a);
    var rootOk := a.seasonRoot == PlaceholderHash(w, b) && a.dataHash == PlaceholderHash(w, b);
    HeaderMeaning(w, b);
    OneMark(w, b);
    checks := DeclarationChecks(w, b, malformed);
    ghost var names := DECLARATION_CHECKS;
    if !mismatchFree {
      MarksAppend(w, b, names, [NoMismatches]);
      checks, names := checks + [Check(NoMismatches, false)], names + [NoMismatches];
    }
    if !consistent {
      MarksAppend(w, b, names, [PlaceholderConsistent]);
      checks, names := checks + [Check(PlaceholderConsistent, false)], names + [PlaceholderConsistent];
    }
    if PlaceholderSealed(w, b) {
      MarksAppend(w, b, names, [PlaceholderRoot]);
      checks, names := checks + [Check(PlaceholderRoot, rootOk)], names + [PlaceholderRoot];
    }
    assert names == HeaderNames(w, b);
  }

  lemma HeaderMeaning(w: World, b: Bundle)
    ensures Holds(w, b, NoMismatches) == MismatchFree(b.attest.body.rootMismatches)
    ensures Holds(w, b, PlaceholderConsistent) == !PlaceholderInconsistent(b.attest.body)
    ensures Holds(w, b, PlaceholderRoot) ==
            (b.attest.body.seasonRoot == PlaceholderHash(w, b) && b.attest.body.dataHash == PlaceholderHash(w, b))
  {}

  lemma OneMark(w: World, b: Bundle)
    ensures forall n :: Marks(w, b, [n]) == [Check(n, Holds(w, b, n))]
  {
    hide Holds;
  }

  lemma SeasonMeaning(w: World, b: Bundle)
    ensures Holds(w, b, SeasonRootMatch) ==
            (SeasonRoot(w, HourRoots(w, ByHour(b.records))) == b.attest.body.seasonRoot == b.attest.body.dataHash)
    ensures Holds(w, b, VerifiedHoursMatch) == (b.attest.body.verifiedHours == Some(Recount(w, b)))
    ensures Holds(w, b, ScoreMatch) == (b.attest.body.seasonScore == Some(SeasonScore(Recount(w, b))))
  {
    hide SeasonRoot, HourRoots, ByHour, Recount, SeasonScore;
  }

  /** The reading-level checks. */
  method ReadingChecks(w: World, b: Bundle) returns (checks: seq<Check>, any: bool)
    ensures any <==> HasReadings(b)
    ensures checks == Marks(w, b, READING_CHECKS)
  {
    var some, signed := CheckReadings(b, r => VerifyReading(w, r, b.node.pubkey));
    var _, anchored := CheckReadings(b, (r: Reading) => AnchorWellformed(w, r.body.blockAnchor));
    var proofs := CheckProofs(w, b);
    var roots := CheckHourRoots(w, b);
    any := some;
    checks := [Check(DeviceSignatures, any && signed), Check(Anchors, any && anchored),
               Check(ReadingProofs, proofs), Check(HourRootsMatch, roots)];
  }

  /** The season-level checks: root, hours and score recomputed from the bundle's own readings. */
  method SeasonChecks(w: World, b: Bundle, byHour: Hours) returns (checks: seq<Check>)
    requires byHour == ByHour(b.records)
    ensures checks == Marks(w, b, SEASON_CHECKS)
  {
    hide Holds, SeasonRoot, HourRoots, ByHour, GoodHours, SeasonScore, Marks;
    SeasonMeaning(w, b);
    var a := b.attest.body;
    var sr := ComputeSeasonRoot(w, HourRoots(w, byHour));
    var vh := CountHours(w, byHour, Some(b.node.pubkey), DeclaredQuorum(a), w.window(a.seasonStart, a.seasonEnd));
    assert vh == Recount(w, b);
    var rootOk, hoursOk := sr == a.seasonRoot && a.seasonRoot == a.dataHash, a.verifiedHours == Some(vh);
    var scoreOk := a.seasonScore == Some(SeasonScore(vh));
    assert rootOk == Holds(w, b, SeasonRootMatch);
    assert hoursOk == Holds(w, b, VerifiedHoursMatch) && scoreOk == Holds(w, b, ScoreMatch);
    hide *;
    MarksOfThree(w, b, SeasonRootMatch, VerifiedHoursMatch, ScoreMatch);
    checks := [Check(SeasonRootMatch, rootOk), Check(VerifiedHoursMatch, hoursOk), Check(ScoreMatch, scoreOk)];
  }

  /** Exactly the applicable checks are reported, each says what its name promises, and the report
      is VALID if and only if the bundle is sound. */
  method VerifyBundle(w: World, b: Bundle, full: bool) returns (report: Report)
    ensures report.checks == Marks(w, b, Reported(w, b, full))
    ensures Valid(report) <==> BundleSound(w, b, full)
    ensures report.hours == HourList(ByHour(b.records).Keys)
  {
    hide Holds;
    var byHour, malformed := CountMalformed(w, b);
    var hours := Ascend(IntLe, byHour.Keys);
    var sealedEmpty := PlaceholderSealed(w, b);
    var checks := HeaderChecks(w, b, malformed);
    ghost var names := HeaderNames(w, b);
    var readingChecks, any := ReadingChecks(w, b);
    if !(sealedEmpty && !any) {
      MarksAppend(w, b, names, READING_CHECKS);
      checks, names := checks + readingChecks, names + READING_CHECKS;
    }
    if full && !sealedEmpty {
      var seasonChecks := SeasonChecks(w, b, byHour);
      MarksAppend(w, b, names, SEASON_CHECKS);
      checks, names := checks + seasonChecks, names + SEASON_CHECKS;
    }
    var signed := CheckOracle(w, b);
    MarksAppend(w, b, names, [OracleSignature]);
    checks, names := checks + signed, names + [OracleSignature];
    var season := b.attest.body.season;
    report := Report(if season.Some? then season.value else 0, hours, checks);
    assert names == Reported(w, b, full);
    ValidIffSound(w, b, full, report);
  }

  method CountMalformed(w: World, b: Bundle) returns (byHour: Hours, malformed: nat)
    ensures byHour == ByHour(b.records)
    ensures malformed == 0 <==> Holds(w, b, WellFormed)
  {
    byHour, malformed := GroupByHour(b.records);
  }

  method CheckOracle(w: World, b: Bundle) returns (checks: seq<Check>)
    ensures checks == Marks(w, b, [OracleSignature])
  {
    checks := [Check(OracleSignature, b.meta.seasonPubkey != "" && VerifyAttest(w, b.attest, b.meta.seasonPubkey))];
  }

  // One reading, without the season around it.

  datatype ReadingCheck = ReadingCheck(signatureOk: bool, inHourTree: bool, hourRootOk: bool)

  function ReadingLeaf(w: World, r: Reading): Digest { LeafHash(w.sha256, w.readingBytes(r)) }

  /** The audit path of a member always reaches the recomputed root, so membership is what is found. */
  method VerifyReadingInHour(w: World, r: Reading, pub: PubKey, rec: HourRecord) returns (c: ReadingCheck)
    ensures c.signatureOk <==> VerifyReading(w, r, pub)
    ensures c.hourRootOk <==> rec.hourRoot == Root(HourRoot(w, rec.readings))
    ensures c.inHourTree <==> ReadingLeaf(w, r) in LeafHashes(w.sha256, HourItems(w, rec.readings))
  {
    hide VerifyReading, HourItems, ReadingLeaf, LeafHashes;
    var leaves := LeafHashes(w.sha256, HourItems(w, rec.readings));
    var target := ReadingLeaf(w, r);
    var recomputed := ComputeHourRoot(w, rec.readings);
    hide AuditPath, Fold, TreeHash, SortedReadings;
    var i := 0;
    while i < |leaves| && leaves[i] != target
      invariant 0 <= i <= |leaves| && target !in leaves[..i]
    {
      i := i + 1;
    }
    var found := false;
    if i < |leaves| {
      var path := MerkleProof(w.sha256, leaves, i);
      found := VerifyProof(w.sha256, target, path.value, recomputed);
      PathReachesRoot(w.sha256, leaves, i);
    } else {
      assert leaves[..i] == leaves;
    }
    c := ReadingCheck(VerifyReading(w, r, pub), found, rec.hourRoot == Root(recomputed));
  }

  /** A reading found in the hour's tree is one of the hour's readings, or here is a hash collision. */
  lemma FoundReadingIsPublished(w: World, r: Reading, rec: HourRecord) returns (other: Reading)
    requires w.CanonicalInjective()
    requires ReadingLeaf(w, r) in LeafHashes(w.sha256, HourItems(w, rec.readings))
    ensures other in rec.readings
    ensures r == other || IsCollision(w.sha256, [0] + w.readingBytes(r), [0] + w.readingBytes(other))
  {
    var ordered := SortedReadings(rec.readings);
    SortedReadingsFacts(rec.readings);
    hide SortedReadings;
    var items := HourItems(w, rec.readings);
    var leaves := LeafHashes(w.sha256, items);
    var i :| 0 <= i < |leaves| && leaves[i] == ReadingLeaf(w, r);
    other := ordered[i];
    var x, y := [0] + w.readingBytes(r), [0] + w.readingBytes(other);
    if x == y { assert x[1..] == w.readingBytes(r) && y[1..] == w.readingBytes(other); }
  }
}

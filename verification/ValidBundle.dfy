/** What a VALID report says about the bundle, in terms of its records and its readings
    (orchard_chia/datalayer/verify.py). */
module ValidBundle {
  import opened Ordering
  import opened Schema
  import opened Verify

  // One reading.

  /** The card's key verifies the reading's own bytes. */
  ghost predicate SignedBy(w: World, r: Reading, pub: PubKey) {
    r.sig != "" && w.verify(pub, w.bodyBytes(r.body), r.sig)
  }

  /** The reading names a block: sixteen hexadecimal characters, not all zero. */
  ghost predicate Anchored(w: World, r: Reading) {
    match r.body.blockAnchor
    case None => false
    case Some(text) => |text| == 16 && w.hexValue(text).Some? && w.hexValue(text).value != 0
  }

  /** Measured in the season, from its first moment up to but not at its end. */
  ghost predicate Within(r: Reading, window: Window) {
    window.Some? ==> r.body.tsMs.Some? && window.value.0 <= r.body.tsMs.value < window.value.1
  }

  ghost predicate Countable(w: World, r: Reading, pub: PubKey, window: Window) {
    Within(r, window) && SignedBy(w, r, pub)
  }

  /** The places at which an hour's readings count. */
  ghost function Places(w: World, rs: seq<Reading>, pub: PubKey, window: Window): set<nat> {
    set i: nat | i < |rs| && Countable(w, rs[i], pub, window)
  }

  lemma SameFrontPlaces(w: World, rs: seq<Reading>, pub: PubKey, window: Window, i: nat)
    requires i < |rs| - 1
    ensures i in Places(w, rs[..|rs| - 1], pub, window) <==> i in Places(w, rs, pub, window)
  {
    hide Countable;
    assert rs[..|rs| - 1][i] == rs[i];
  }

  lemma OneElementMore(front: set<nat>, all: set<nat>, n: nat)
    requires (forall i :: i in front ==> i < n) && (forall i :: i in all ==> i <= n)
    requires forall i :: i < n ==> (i in front <==> i in all)
    ensures |all| == |front| + if n in all then 1 else 0
  {
    assert all - {n} == front;
  }

  lemma OnePlaceMore(w: World, rs: seq<Reading>, pub: PubKey, window: Window)
    requires rs != []
    ensures var n := |rs| - 1;
            |Places(w, rs, pub, window)|
            == |Places(w, rs[..n], pub, window)| + if Countable(w, rs[n], pub, window) then 1 else 0
  {
    hide Countable;
    var n := |rs| - 1;
    forall i: nat | i < n ensures i in Places(w, rs[..n], pub, window) <==> i in Places(w, rs, pub, window) {
      SameFrontPlaces(w, rs, pub, window, i);
    }
    OneElementMore(Places(w, rs[..n], pub, window), Places(w, rs, pub, window), n);
  }

  lemma CountableQualifies(w: World, r: Reading, pub: PubKey, window: Window)
    ensures Countable(w, r, pub, window) <==> Qualifies(w, r, Some(pub), window)
  {}

  lemma {:induction false} CountIsOfPlaces(w: World, rs: seq<Reading>, pub: PubKey, window: Window)
    ensures CountQualifying(w, rs, Some(pub), window) == |Places(w, rs, pub, window)|
  {
    hide Countable, Qualifies;
    if rs == [] {
      assert Places(w, rs, pub, window) == {};
    } else {
      var n := |rs| - 1;
      CountIsOfPlaces(w, rs[..n], pub, window);
      CountableQualifies(w, rs[n], pub, window);
      OnePlaceMore(w, rs, pub, window);
      hide Places;
    }
  }

  /** The hours of the bundle that have their quorum. */
  ghost function Shown(w: World, b: Bundle, quorum: int, window: Window): set<int> {
    set h | h in ByHour(b.records) && |Places(w, ByHour(b.records)[h], b.node.pubkey, window)| >= quorum
  }

  /** The quorum a record declares; a record that declares none is of the time when one reading made an hour. */
  ghost function Quorum(b: Bundle): int {
    match b.attest.body.minReadings
    case Some(n) => if n > 0 then n else 1
    case None => 1
  }

  lemma RecountIsOfShown(w: World, b: Bundle)
    ensures Recount(w, b) == |Shown(w, b, Quorum(b), w.window(b.attest.body.seasonStart, b.attest.body.seasonEnd))|
  {
    var a := b.attest.body;
    var window := w.window(a.seasonStart, a.seasonEnd);
    hide CountQualifying, ByHour, Places;
    forall rs ensures CountQualifying(w, rs, Some(b.node.pubkey), window) == |Places(w, rs, b.node.pubkey, window)| {
      CountIsOfPlaces(w, rs, b.node.pubkey, window);
    }
    assert GoodHours(w, ByHour(b.records), Some(b.node.pubkey), DeclaredQuorum(a), window)
        == Shown(w, b, Quorum(b), window);
  }

  // The bundle.

  /** Every record, and every reading in it, is of the node and the season the attestation names. */
  ghost predicate OneSeason(b: Bundle) {
    var id, a := Upper(b.node.nodeId), b.attest.body;
    && b.node.nodeId != "" && Upper(a.nodeId) == id
    && (forall rec :: rec in b.records ==> Upper(rec.nodeId) == id)
    && (forall rec :: rec in b.records && a.season.Some? ==> rec.season == a.season)
    && (forall rec, r :: rec in b.records && r in rec.readings ==> Upper(r.body.nodeId) == id)
  }

  /** The readings speak for themselves: there are some, and all of them are signed by the card's key and anchored, and
      each record's root is that of its readings. */
  ghost predicate ReadingsProven(w: World, b: Bundle) {
    && (exists rec :: rec in b.records && rec.readings != [])
    && (forall rec, r :: rec in b.records && r in rec.readings ==> SignedBy(w, r, b.node.pubkey) && Anchored(w, r))
    && (forall rec :: rec in b.records ==> rec.hour.Some? && rec.hourRoot == Root(HourRoot(w, rec.readings)))
  }

  /** What the attestation claims is what the records give: the root, the hours that have their quorum, and the nearest
      whole percentage of a day's hours. */
  ghost predicate Recomputed(w: World, b: Bundle) {
    var a := b.attest.body;
    var shown := |Shown(w, b, Quorum(b), w.window(a.seasonStart, a.seasonEnd))|;
    && a.seasonRoot == SeasonRoot(w, HourRoots(w, ByHour(b.records))) && a.dataHash == a.seasonRoot
    && a.verifiedHours == Some(shown)
    && a.seasonScore.Some? && -12 < 24 * a.seasonScore.value - 100 * shown <= 12
  }

  /** The declarations: a form this verifier knows, no admission of a wrong root, evidence of the kind that is checked
      here, and the season's key under all of it. */
  ghost predicate Declared(w: World, b: Bundle) {
    var a, m := b.attest.body, b.meta;
    && m.schemaVersion.Version? && m.schemaVersion.majorText == "1"
    && m.deviceSig in {None, Some("secp256r1")} && m.seasonSig in {None, Some("secp256r1")}
    && a.rootMismatches in {Absent, Number(0)}
    && (a.sealSource == None || (a.sealSource == Some("readings") && a.sigsVerified == Some(true)))
    && (a.sealSource == None ==> Undeclaring(m.schemaVersion))
    && m.seasonPubkey != "" && b.attest.oracleSig != ""
    && w.verify(m.seasonPubkey, w.attestBytes(a), b.attest.oracleSig)
  }

  /** The store has no version, or one that is read as a number below 1.1, from when records say what they rest on. */
  ghost predicate Undeclaring(v: Version) {
    match v
    case NoVersion => true
    case Version(_, None) => false
    case Version(_, Some((major, minor))) => major < 1 || (major == 1 && minor < 1)
  }

  lemma BasisSays(w: World, b: Bundle)
    ensures Holds(w, b, ProofBacked) <==>
              || (b.attest.body.sealSource == None && Undeclaring(b.meta.schemaVersion))
              || (b.attest.body.sealSource == Some("readings") && b.attest.body.sigsVerified == Some(true))
  {
    assert SEAL_READINGS == "readings";
  }

  lemma SchemaSays(w: World, b: Bundle)
    ensures Holds(w, b, SchemaSupported) <==>
              && b.meta.schemaVersion.Version? && b.meta.schemaVersion.majorText == "1"
              && b.meta.deviceSig in {None, Some("secp256r1")} && b.meta.seasonSig in {None, Some("secp256r1")}
  {}

  lemma RestSays(w: World, b: Bundle)
    ensures Holds(w, b, NoMismatches) <==> b.attest.body.rootMismatches in {Absent, Number(0)}
    ensures Holds(w, b, OracleSignature) <==>
              && b.meta.seasonPubkey != "" && b.attest.oracleSig != ""
              && w.verify(b.meta.seasonPubkey, w.attestBytes(b.attest.body), b.attest.oracleSig)
  {}

  lemma DeclarationsSay(w: World, b: Bundle)
    ensures Declared(w, b) <==>
              && Holds(w, b, SchemaSupported) && Holds(w, b, ProofBacked) && Holds(w, b, NoMismatches)
              && Holds(w, b, OracleSignature)
  {
    hide Holds, Undeclaring;
    BasisSays(w, b);
    SchemaSays(w, b);
    RestSays(w, b);
  }

  lemma EveryReading(b: Bundle, p: Reading -> bool, rec: HourRecord, r: Reading)
    requires AllReadingsSatisfy(b, p) && rec in b.records && r in rec.readings
    ensures p(r)
  {}

  lemma SignaturesSay(w: World, b: Bundle)
    ensures Holds(w, b, DeviceSignatures) <==>
              && HasReadings(b)
              && forall rec, r :: rec in b.records && r in rec.readings ==> SignedBy(w, r, b.node.pubkey)
  {
    hide HasReadings;
    if Holds(w, b, DeviceSignatures) {
      forall rec, r | rec in b.records && r in rec.readings ensures SignedBy(w, r, b.node.pubkey) {
        EveryReading(b, r => VerifyReading(w, r, b.node.pubkey), rec, r);
      }
    } else if forall rec, r :: rec in b.records && r in rec.readings ==> SignedBy(w, r, b.node.pubkey) {
      forall rec, r | rec in b.records && r in rec.readings ensures VerifyReading(w, r, b.node.pubkey) {
        assert SignedBy(w, r, b.node.pubkey);
      }
    }
  }

  lemma AnchorsSay(w: World, b: Bundle)
    ensures Holds(w, b, Anchors) <==>
              HasReadings(b) && forall rec, r :: rec in b.records && r in rec.readings ==> Anchored(w, r)
  {
    hide HasReadings;
    if Holds(w, b, Anchors) {
      forall rec, r | rec in b.records && r in rec.readings ensures Anchored(w, r) {
        EveryReading(b, (r: Reading) => AnchorWellformed(w, r.body.blockAnchor), rec, r);
      }
    } else if forall rec, r :: rec in b.records && r in rec.readings ==> Anchored(w, r) {
      forall rec, r | rec in b.records && r in rec.readings ensures AnchorWellformed(w, r.body.blockAnchor) {
        assert Anchored(w, r);
      }
    }
  }

  lemma RootsSay(w: World, b: Bundle)
    requires forall rec :: rec in b.records ==> rec.hour.Some?
    ensures Holds(w, b, HourRootsMatch) <==>
              forall rec :: rec in b.records ==> rec.hourRoot == Root(HourRoot(w, rec.readings))
    ensures Holds(w, b, HourRootsMatch) && HasReadings(b) ==> Holds(w, b, ReadingProofs)
  {
    hide HourRoot;
  }

  lemma ReadingsSay(w: World, b: Bundle)
    ensures ReadingsProven(w, b) <==> Holds(w, b, WellFormed) && forall n :: n in READING_CHECKS ==> Holds(w, b, n)
  {
    SignaturesSay(w, b);
    AnchorsSay(w, b);
    assert Holds(w, b, WellFormed) <==> forall rec :: rec in b.records ==> rec.hour.Some?;
    if Holds(w, b, WellFormed) { RootsSay(w, b); }
    hide *;
    FourChecks(w, b);
    var signed := forall rec, r :: rec in b.records && r in rec.readings ==> SignedBy(w, r, b.node.pubkey);
    var anchored := forall rec, r :: rec in b.records && r in rec.readings ==> Anchored(w, r);
    ProvenMeans(w, b, signed, anchored);
  }

  lemma ProvenMeans(w: World, b: Bundle, signed: bool, anchored: bool)
    requires signed <==> forall rec, r :: rec in b.records && r in rec.readings ==> SignedBy(w, r, b.node.pubkey)
    requires anchored <==> forall rec, r :: rec in b.records && r in rec.readings ==> Anchored(w, r)
    ensures ReadingsProven(w, b) <==>
              && HasReadings(b) && signed && anchored
              && (forall rec :: rec in b.records ==> rec.hour.Some?)
              && (forall rec :: rec in b.records ==> rec.hourRoot == Root(HourRoot(w, rec.readings)))
  {
    hide HourRoot, SignedBy, Anchored;
  }

  lemma FourChecks(w: World, b: Bundle)
    ensures (forall n :: n in READING_CHECKS ==> Holds(w, b, n)) <==>
              && Holds(w, b, DeviceSignatures) && Holds(w, b, Anchors) && Holds(w, b, ReadingProofs)
              && Holds(w, b, HourRootsMatch)
  {
    hide Holds;
    var names := READING_CHECKS;
    assert names[0] in names && names[1] in names && names[2] in names && names[3] in names;
  }

  lemma ThreeChecks(w: World, b: Bundle)
    ensures (forall n :: n in SEASON_CHECKS ==> Holds(w, b, n)) <==>
              Holds(w, b, SeasonRootMatch) && Holds(w, b, VerifiedHoursMatch) && Holds(w, b, ScoreMatch)
  {
    hide Holds;
    var names := SEASON_CHECKS;
    assert names[0] in names && names[1] in names && names[2] in names;
  }

  lemma OneScore(score: int, v: nat)
    ensures score == SeasonScore(v) <==> -12 < 24 * score - 100 * v <= 12
  {
    ScoreIsNearest(v);
  }

  lemma SeasonSays(w: World, b: Bundle)
    ensures Recomputed(w, b) <==> forall n :: n in SEASON_CHECKS ==> Holds(w, b, n)
  {
    hide Shown, HourRoots, SeasonRoot, Quorum, Recount, SeasonScore, ByHour;
    RecountIsOfShown(w, b);
    ThreeChecks(w, b);
    if b.attest.body.seasonScore.Some? { OneScore(b.attest.body.seasonScore.value, Recount(w, b)); }
  }

  /** A full bundle is valid exactly when all of this is so. The one kind left aside is told apart by its root: it is
      the hash that stands for "nothing was published". */
  lemma ValidExactlyWhen(w: World, b: Bundle)
    requires b.attest.body.seasonRoot != PlaceholderHash(w, b)
    ensures BundleSound(w, b, true) <==>
              OneSeason(b) && Declared(w, b) && ReadingsProven(w, b) && Recomputed(w, b)
  {
    DeclarationsSay(w, b);
    ReadingsSay(w, b);
    SeasonSays(w, b);
    assert Holds(w, b, OneNodeSeason) <==> OneSeason(b);
    NotAPlaceholder(w, b);
    hide Holds, Declared, ReadingsProven, Recomputed, OneSeason, PlaceholderSealed, HasReadings;
  }

  lemma NotAPlaceholder(w: World, b: Bundle)
    requires b.attest.body.seasonRoot != PlaceholderHash(w, b)
    ensures Holds(w, b, ProofBacked) ==> !PlaceholderSealed(w, b) && Holds(w, b, PlaceholderConsistent)
    ensures !PlaceholderSealed(w, b) ==> Holds(w, b, PlaceholderConsistent) || DeclaresPlaceholder(b.attest.body)
  {
    hide PlaceholderHash;
  }

  /** In any valid bundle with readings, full or not, whatever its basis, every reading verifies under the card's key,
      names a block, is of the card's node, and lies under its record's root. */
  lemma ValidReadingsAreProven(w: World, b: Bundle, full: bool)
    requires BundleSound(w, b, full) && exists rec :: rec in b.records && rec.readings != []
    ensures OneSeason(b) && Declared(w, b) && ReadingsProven(w, b)
  {
    DeclarationsSay(w, b);
    ReadingsSay(w, b);
    assert Holds(w, b, OneNodeSeason) <==> OneSeason(b);
    hide Holds, Declared, ReadingsProven, Recomputed, OneSeason, PlaceholderSealed;
  }

  /** A valid bundle without readings is an old, undeclared record under the placeholder hash, or no full season. */
  lemma ValidWithoutReadings(w: World, b: Bundle, full: bool)
    requires BundleSound(w, b, full) && forall rec :: rec in b.records ==> rec.readings == []
    ensures var a := b.attest.body;
            a.sealSource.None? && a.seasonRoot == PlaceholderHash(w, b) && a.dataHash == PlaceholderHash(w, b)
  {
    hide PlaceholderHash;
    if !PlaceholderSealed(w, b) { ReadingsSay(w, b); }
  }
}

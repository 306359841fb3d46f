/** Published records, their canonical bytes and the roots over them
    (orchard_chia/datalayer/schema.py).

    Everything that belongs to a library is a field of `World`: SHA-256, ECDSA over P-256,
    canonical JSON, ISO-date parsing and Python's `int(s, 16)`. */
module Schema {
  import opened Ordering
  import opened Merkle

  type Seed = string
  type PubKey = string
  type Sig = string
  type Window = Option<(int, int)>

  /** A reading without its signature. `tsMs` is None when the field is missing or not an integer;
      every field the verifier does not look at is part of `payload`. */
  datatype ReadingBody = ReadingBody(nodeId: string, tsMs: Option<int>, blockAnchor: Option<string>, payload: string)

  /** The signature is "" when the field is missing. */
  datatype Reading = Reading(body: ReadingBody, sig: Sig)

  /** A stored hour_root: absent, not a hex string, or the hex of a digest. */
  datatype StoredRoot = NoRoot | Garbage | Root(digest: Digest)

  /** One `readings:` value. `hour` is None when the field is missing or not an integer. */
  datatype HourRecord = HourRecord(nodeId: string, season: Option<int>, hour: Option<int>,
                                   readings: seq<Reading>, hourRoot: StoredRoot)

  /** A count a record may declare: left out (or null), not a number, or a number. */
  datatype Declared = Absent | Unreadable | Number(n: int)

  datatype AttestBody = AttestBody(
    nodeId: string, season: Option<int>, seasonStart: string, seasonEnd: string,
    hoursOnline: int, verifiedHours: Option<int>, sealSource: Option<string>, sigsVerified: Option<bool>,
    rootMismatches: Declared, seasonScore: Option<int>, minReadings: Option<int>,
    readingCount: Option<int>, blockHeight: Option<int>, dataHash: Digest, seasonRoot: Digest, signedAt: string)

  datatype Attest = Attest(body: AttestBody, oracleSig: Sig)

  /** `orchard_schema`: absent, or its text before the first dot and, when both parse, (major, minor). */
  datatype Version = NoVersion | Version(majorText: string, parsed: Option<(int, int)>)

  datatype Meta = Meta(schemaVersion: Version, deviceSig: Option<string>, seasonSig: Option<string>,
                       seasonPubkey: PubKey)

  datatype NodeCard = NodeCard(nodeId: string, pubkey: PubKey)

  datatype World = World(
    sha256: Hash,
    readingBytes: Reading -> Bytes,
    bodyBytes: ReadingBody -> Bytes,
    attestBytes: AttestBody -> Bytes,
    pubkeyOf: Seed -> PubKey,
    sign: (Seed, Bytes) -> Sig,
    verify: (PubKey, Bytes, Sig) -> bool,
    window: (string, string) -> Window,
    placeholderRoot: (string, int, int) -> Digest,
    hexValue: string -> Option<int>)
  {
    /** A signature made with a seed is non-empty and verifies under the seed's public key. */
    ghost predicate SignaturesCorrect() {
      forall k, m :: sign(k, m) != "" && verify(pubkeyOf(k), m, sign(k, m))
    }

    /** Canonical JSON tells different readings apart. */
    ghost predicate CanonicalInjective() {
      forall a, b :: readingBytes(a) == readingBytes(b) ==> a == b
    }
  }

  const SEAL_READINGS := "readings"
  const SEAL_PLACEHOLDER := "placeholder"
  const MIN_VERIFIED_READINGS_PER_HOUR := 30
  const LEGACY_MIN_READINGS_PER_HOUR := 1
  const HOURS_PER_SEASON := 24

  // Signatures.

  predicate VerifyReading(w: World, r: Reading, pub: PubKey) {
    r.sig != "" && w.verify(pub, w.bodyBytes(r.body), r.sig)
  }

  function SignAttest(w: World, body: AttestBody, seed: Seed): Attest {
    Attest(body, w.sign(seed, w.attestBytes(body)))
  }

  predicate VerifyAttest(w: World, a: Attest, pub: PubKey) {
    a.oracleSig != "" && w.verify(pub, w.attestBytes(a.body), a.oracleSig)
  }

  // Roots.

  function SortTime(r: Reading): int {
    if r.body.tsMs.Some? then r.body.tsMs.value else 0
  }

  predicate ReadingLe(a: Reading, b: Reading) {
    SortTime(a) < SortTime(b) || (SortTime(a) == SortTime(b) && TextLe(a.sig, b.sig))
  }

  lemma ReadingOrder()
    ensures TotalPreorder(ReadingLe)
  {
    TextOrder();
  }

  function SortedReadings(rs: seq<Reading>): seq<Reading> {
    Sort(ReadingLe, rs)
  }

  lemma SortedReadingsFacts(rs: seq<Reading>)
    ensures |SortedReadings(rs)| == |rs|
    ensures multiset(SortedReadings(rs)) == multiset(rs)
    ensures SortedReadings(SortedReadings(rs)) == SortedReadings(rs)
    ensures forall r :: r in rs <==> r in SortedReadings(rs)
  {
    ReadingOrder();
    SortIsSortedPermutation(ReadingLe, rs);
    SortMembers(ReadingLe, rs);
    SortedIsFixed(ReadingLe, SortedReadings(rs));
  }

  /** Readings are committed by the time they name, none counting as the epoch, and at one time by their signature. */
  lemma CommittedByTime(rs: seq<Reading>, i: nat, j: nat)
    requires i < j < |SortedReadings(rs)|
    ensures var a, b := SortedReadings(rs)[i], SortedReadings(rs)[j];
            var s, t := if a.body.tsMs.Some? then a.body.tsMs.value else 0,
                        if b.body.tsMs.Some? then b.body.tsMs.value else 0;
            s <= t && (s == t ==> TextLe(a.sig, b.sig))
  {
    ReadingOrder();
    SortIsSortedPermutation(ReadingLe, rs);
    hide Sort, TextLe;
  }

  /** The canonical bytes of an hour's readings, in the order they are committed. */
  function HourItems(w: World, rs: seq<Reading>): seq<Bytes> {
    var ordered := SortedReadings(rs);
    seq(|ordered|, i requires 0 <= i < |ordered| => w.readingBytes(ordered[i]))
  }

  function HourRoot(w: World, rs: seq<Reading>): Digest {
    TreeHash(w.sha256, LeafHashes(w.sha256, HourItems(w, rs)))
  }

  /** The order in which readings arrived is forgotten exactly when no two different ones have the same
      time and signature: the sort is stable. */
  lemma ArrivalOrderIsForgottenIff(rs: seq<Reading>)
    ensures (forall other: seq<Reading> ::
               multiset(other) == multiset(rs) ==> SortedReadings(other) == SortedReadings(rs))
            <==> NoTies(ReadingLe, rs)
  {
    ReadingOrder();
    SortForgetsOrderIff(ReadingLe, rs);
    hide NoTies, Sort, ReadingLe;
    if NoTies(ReadingLe, rs) {
      forall other: seq<Reading> | multiset(other) == multiset(rs) ensures SortedReadings(other) == SortedReadings(rs) {
        assert Sort(ReadingLe, other) == Sort(ReadingLe, rs);
      }
    } else {
      var other: seq<Reading> :| multiset(other) == multiset(rs) && Sort(ReadingLe, other) != Sort(ReadingLe, rs);
      assert SortedReadings(other) != SortedReadings(rs);
    }
  }

  /** Without such ties the hour root does not depend on the order of arrival either. */
  lemma HourRootIgnoresArrival(w: World, rs: seq<Reading>, other: seq<Reading>)
    requires multiset(other) == multiset(rs) && NoTies(ReadingLe, rs)
    ensures HourRoot(w, other) == HourRoot(w, rs)
  {
    ArrivalOrderIsForgottenIff(rs);
    assert SortedReadings(other) == SortedReadings(rs);
  }

  type Hours = map<int, seq<Reading>>

  ghost function HourList(m: set<int>): seq<int> {
    Ascending(IntLe, m)
  }

  /** The hour roots, ascending by hour, used directly as the season tree's leaves. */
  ghost function SeasonLeaves(roots: map<int, Digest>): seq<Digest> {
    AscendingIsSortedListing(IntLe, roots.Keys);
    var hs := HourList(roots.Keys);
    seq(|hs|, i requires 0 <= i < |hs| => assert hs[i] in roots; roots[hs[i]])
  }

  ghost function SeasonRoot(w: World, roots: map<int, Digest>): Digest {
    TreeHash(w.sha256, SeasonLeaves(roots))
  }

  function HourRoots(w: World, hours: Hours): map<int, Digest> {
    map h | h in hours :: HourRoot(w, hours[h])
  }

  method ComputeHourRoot(w: World, rs: seq<Reading>) returns (root: Digest)
    ensures root == HourRoot(w, rs)
  {
    root := MerkleRoot(w.sha256, LeafHashes(w.sha256, HourItems(w, rs)));
  }

  method ComputeSeasonRoot(w: World, roots: map<int, Digest>) returns (root: Digest)
    ensures root == SeasonRoot(w, roots)
  {
    var hs := Ascend(IntLe, roots.Keys);
    AscendingIsSortedListing(IntLe, roots.Keys);
    var leaves := seq(|hs|, i requires 0 <= i < |hs| => assert hs[i] in roots; roots[hs[i]]);
    assert leaves == SeasonLeaves(roots);
    root := MerkleRoot(w.sha256, leaves);
  }

  // What a season root binds.

  ghost predicate NonEmptyHours(hours: Hours) {
    hours != map[] && forall h :: h in hours ==> hours[h] != []
  }

  function HourTree(w: World, rs: seq<Reading>): Tree
    requires rs != []
  {
    SortedReadingsFacts(rs);
    var items := HourItems(w, rs);
    Join(seq(|items|, i requires 0 <= i < |items| => Leaf(items[i])))
  }

  ghost function HourTrees(w: World, hours: Hours): seq<Tree>
    requires NonEmptyHours(hours)
  {
    AscendingIsSortedListing(IntLe, hours.Keys);
    var hs := HourList(hours.Keys);
    seq(|hs|, i requires 0 <= i < |hs| => assert hs[i] in hours; HourTree(w, hours[hs[i]]))
  }

  ghost function SeasonTree(w: World, hours: Hours): Tree
    requires NonEmptyHours(hours)
  {
    AscendingIsSortedListing(IntLe, hours.Keys);
    Join(HourTrees(w, hours))
  }

  /** Every reading of a season, hour by hour, in committed order. */
  ghost function AllReadings(hours: Hours): seq<Reading> {
    Concat(OrderedHours(hours))
  }

  function BytesOf(w: World, rs: seq<Reading>): seq<Bytes> {
    seq(|rs|, i requires 0 <= i < |rs| => w.readingBytes(rs[i]))
  }

  lemma HourTreeRoot(w: World, rs: seq<Reading>)
    requires rs != []
    ensures RootOf(w.sha256, HourTree(w, rs)) == HourRoot(w, rs)
    ensures Leaves(HourTree(w, rs)) == HourItems(w, rs) == BytesOf(w, SortedReadings(rs))
  {
    SortedReadingsFacts(rs);
    var items := HourItems(w, rs);
    var leaves := seq(|items|, i requires 0 <= i < |items| => Leaf(items[i]));
    JoinRoot(w.sha256, leaves);
    assert Roots(w.sha256, leaves) == LeafHashes(w.sha256, items);
    JoinLeaves(leaves);
    assert LeafLists(leaves) == Singletons(items);
    ConcatSingletons(items);
  }

  function Singletons<T>(xs: seq<T>): seq<seq<T>> {
    seq(|xs|, i requires 0 <= i < |xs| => [xs[i]])
  }

  lemma {:induction false} ConcatSingletons<T>(xs: seq<T>)
    ensures Concat(Singletons(xs)) == xs
  {
    if xs != [] {
      assert Singletons(xs)[1..] == Singletons(xs[1..]);
      ConcatSingletons(xs[1..]);
      assert xs == [xs[0]] + xs[1..];
    }
  }

  function PartBytes(w: World, parts: seq<seq<Reading>>): seq<seq<Bytes>> {
    seq(|parts|, i requires 0 <= i < |parts| => BytesOf(w, parts[i]))
  }

  lemma {:induction false} ConcatBytes(w: World, parts: seq<seq<Reading>>)
    ensures Concat(PartBytes(w, parts)) == BytesOf(w, Concat(parts))
  {
    if parts != [] {
      assert PartBytes(w, parts)[1..] == PartBytes(w, parts[1..]);
      ConcatBytes(w, parts[1..]);
    }
  }

  lemma SeasonTreeRoot(w: World, hours: Hours)
    requires NonEmptyHours(hours)
    ensures RootOf(w.sha256, SeasonTree(w, hours)) == SeasonRoot(w, HourRoots(w, hours))
  {
    hide HourTrees, RootOf, TreeHash, SeasonLeaves, HourRoots, Join, Roots;
    HourTreeRoots(w, hours);
    JoinRoot(w.sha256, HourTrees(w, hours));
  }

  lemma HourTreeRoots(w: World, hours: Hours)
    requires NonEmptyHours(hours)
    ensures HourTrees(w, hours) != []
    ensures Roots(w.sha256, HourTrees(w, hours)) == SeasonLeaves(HourRoots(w, hours))
  {
    hide HourRoot, HourTree, RootOf, Ascending, Sorted;
    AscendingIsSortedListing(IntLe, hours.Keys);
    var hs, trees := HourList(hours.Keys), HourTrees(w, hours);
    assert HourRoots(w, hours).Keys == hours.Keys;
    assert |hours.Keys| > 0;
    forall i | 0 <= i < |hs|
      ensures RootOf(w.sha256, trees[i]) == HourRoot(w, hours[hs[i]])
    {
      HourTreeRoot(w, hours[hs[i]]);
    }
  }

  ghost function OrderedHours(hours: Hours): seq<seq<Reading>> {
    AscendingIsSortedListing(IntLe, hours.Keys);
    var hs := HourList(hours.Keys);
    seq(|hs|, i requires 0 <= i < |hs| => assert hs[i] in hours; SortedReadings(hours[hs[i]]))
  }

  lemma SeasonTreeLeaves(w: World, hours: Hours)
    requires NonEmptyHours(hours)
    ensures Leaves(SeasonTree(w, hours)) == BytesOf(w, AllReadings(hours))
  {
    hide HourTrees, OrderedHours, BytesOf, LeafLists, PartBytes, Join, Leaves;
    HourTreeRoots(w, hours);
    HourTreeLeaves(w, hours);
    JoinLeaves(HourTrees(w, hours));
    ConcatBytes(w, OrderedHours(hours));
  }

  lemma HourTreeLeaves(w: World, hours: Hours)
    requires NonEmptyHours(hours)
    ensures LeafLists(HourTrees(w, hours)) == PartBytes(w, OrderedHours(hours))
  {
    hide HourTree, BytesOf, Leaves, Ascending, Sorted, SortedReadings;
    AscendingIsSortedListing(IntLe, hours.Keys);
    var trees, parts := HourTrees(w, hours), OrderedHours(hours);
    forall i | 0 <= i < |parts|
      ensures Leaves(trees[i]) == BytesOf(w, parts[i])
    {
      HourTreeRoot(w, hours[HourList(hours.Keys)[i]]);
    }
  }

  lemma BytesTellReadingsApart(w: World, x: seq<Reading>, y: seq<Reading>)
    requires w.CanonicalInjective()
    ensures BytesOf(w, x) == BytesOf(w, y) <==> x == y
  {
    if BytesOf(w, x) == BytesOf(w, y) {
      assert |BytesOf(w, x)| == |x| && |BytesOf(w, y)| == |y|;
      forall i | 0 <= i < |x| ensures x[i] == y[i] {
        assert BytesOf(w, x)[i] == BytesOf(w, y)[i];
      }
    }
  }

  /** One season root, one left-to-right sequence of readings: otherwise a collision is in hand. */
  lemma SeasonRootBindsReadings(w: World, a: Hours, b: Hours)
    requires w.CanonicalInjective() && NonEmptyHours(a) && NonEmptyHours(b)
    requires SeasonRoot(w, HourRoots(w, a)) == SeasonRoot(w, HourRoots(w, b))
    ensures match Clash(w.sha256, SeasonTree(w, a), SeasonTree(w, b))
            case None => AllReadings(a) == AllReadings(b)
            case Some(c) => IsCollision(w.sha256, c.0, c.1)
  {
    SeasonTreeRoot(w, a);
    SeasonTreeRoot(w, b);
    SeasonTreeLeaves(w, a);
    SeasonTreeLeaves(w, b);
    EqualRootsBind(w.sha256, SeasonTree(w, a), SeasonTree(w, b));
    BytesTellReadingsApart(w, AllReadings(a), AllReadings(b));
  }

  /** It does not bind the hour boundaries: two readings in one hour and the same two readings in
      two hours have the same root. */
  lemma SeasonRootForgetsHours(w: World, x: Reading, y: Reading)
    requires ReadingLe(x, y)
    ensures SeasonRoot(w, HourRoots(w, map[0 := [x, y]])) == SeasonRoot(w, HourRoots(w, map[0 := [x], 1 := [y]]))
  {
    HourRootOfTwo(w, x, y);
    SmallSeasons(HourRoot(w, [x, y]), HourRoot(w, [x]), HourRoot(w, [y]));
    SmallHourRoots(w, [x, y], [x], [y]);
    hide HourRoot, HourRoots, SeasonLeaves, ReadingLe, DoubleBelow;
  }

  lemma SmallHourRoots(w: World, a: seq<Reading>, b: seq<Reading>, c: seq<Reading>)
    ensures HourRoots(w, map[0 := a]) == map[0 := HourRoot(w, a)]
    ensures HourRoots(w, map[0 := b, 1 := c]) == map[0 := HourRoot(w, b), 1 := HourRoot(w, c)]
  {
    hide HourRoot;
  }

  lemma SmallSeasons(r: Digest, s: Digest, t: Digest)
    ensures SeasonLeaves(map[0 := r]) == [r]
    ensures SeasonLeaves(map[0 := s, 1 := t]) == [s, t]
  {
    var one, two: map<int, Digest> := map[0 := r], map[0 := s, 1 := t];
    AscendingUnique(IntLe, one.Keys, [0]);
    AscendingUnique(IntLe, two.Keys, [0, 1]);
  }

  lemma HourRootOfTwo(w: World, x: Reading, y: Reading)
    requires ReadingLe(x, y)
    ensures HourRoot(w, [x, y]) == TreeHash(w.sha256, [HourRoot(w, [x]), HourRoot(w, [y])])
  {
    SortedHourRoot(w, [x, y]);
    SortedHourRoot(w, [x]);
    SortedHourRoot(w, [y]);
    hide HourRoot, SortedReadings, HourItems;
    var hx, hy := LeafHash(w.sha256, w.readingBytes(x)), LeafHash(w.sha256, w.readingBytes(y));
    assert LeafHashes(w.sha256, BytesOf(w, [x])) == [hx];
    assert LeafHashes(w.sha256, BytesOf(w, [y])) == [hy];
    assert LeafHashes(w.sha256, BytesOf(w, [x, y])) == [hx, hy];
  }

  lemma SortedHourRoot(w: World, rs: seq<Reading>)
    requires Sorted(ReadingLe, rs)
    ensures HourRoot(w, rs) == TreeHash(w.sha256, LeafHashes(w.sha256, BytesOf(w, rs)))
  {
    SortedIsFixed(ReadingLe, rs);
    assert HourItems(w, rs) == BytesOf(w, rs);
  }

  /** The path of reading i of hour h inside its hour, then the hour's path inside the season. */
  ghost function ReadingPath(w: World, hours: Hours, k: nat, i: nat): seq<Step>
    requires k < |hours| && i < |HourItems(w, HourAt(hours, k))|
  {
    AscendingIsSortedListing(IntLe, hours.Keys);
    assert |HourRoots(w, hours).Keys| == |hours.Keys| by { assert HourRoots(w, hours).Keys == hours.Keys; }
    AscendingIsSortedListing(IntLe, HourRoots(w, hours).Keys);
    AuditPath(w.sha256, LeafHashes(w.sha256, HourItems(w, HourAt(hours, k))), i) +
    AuditPath(w.sha256, SeasonLeaves(HourRoots(w, hours)), k)
  }

  /** The readings of the k-th hour present. */
  ghost function HourAt(hours: Hours, k: nat): seq<Reading>
    requires k < |hours|
  {
    AscendingIsSortedListing(IntLe, hours.Keys);
    assert |hours.Keys| == |hours|;
    assert HourList(hours.Keys)[k] in hours;
    hours[HourList(hours.Keys)[k]]
  }

  /** Every published reading proves itself against the season root with one concatenated path. */
  lemma ReadingProvesAgainstSeason(w: World, hours: Hours, k: nat, i: nat)
    requires k < |hours| && i < |HourItems(w, HourAt(hours, k))|
    ensures Fold(w.sha256, LeafHash(w.sha256, HourItems(w, HourAt(hours, k))[i]), ReadingPath(w, hours, k, i))
         == SeasonRoot(w, HourRoots(w, hours))
  {
    AscendingIsSortedListing(IntLe, hours.Keys);
    assert HourRoots(w, hours).Keys == hours.Keys;
    var leaves := LeafHashes(w.sha256, HourItems(w, HourAt(hours, k)));
    var season := SeasonLeaves(HourRoots(w, hours));
    PathReachesRoot(w.sha256, leaves, i);
    PathReachesRoot(w.sha256, season, k);
    assert |season| == |hours.Keys| == |hours|;
    assert season[k] == TreeHash(w.sha256, leaves);
    FoldAppend(w.sha256, leaves[i], AuditPath(w.sha256, leaves, i), AuditPath(w.sha256, season, k));
  }

  // Hours and scores.

  predicate InWindow(r: Reading, window: Window) {
    match window
    case None => true
    case Some((lo, hi)) => r.body.tsMs.Some? && lo <= r.body.tsMs.value < hi
  }

  predicate Qualifies(w: World, r: Reading, pub: Option<PubKey>, window: Window) {
    InWindow(r, window) && (pub.Some? ==> VerifyReading(w, r, pub.value))
  }

  function CountQualifying(w: World, rs: seq<Reading>, pub: Option<PubKey>, window: Window): nat {
    if rs == [] then 0
    else CountQualifying(w, rs[..|rs| - 1], pub, window) + (if Qualifies(w, rs[|rs| - 1], pub, window) then 1 else 0)
  }

  /** Hours holding at least `min` qualifying readings. Without a public key a reading's presence
      in the window is all that qualifies it. */
  function GoodHours(w: World, hours: Hours, pub: Option<PubKey>, min: int, window: Window): set<int> {
    set h | h in hours && CountQualifying(w, hours[h], pub, window) >= min
  }

  method CountHours(w: World, hours: Hours, pub: Option<PubKey>, min: int, window: Window) returns (n: nat)
    ensures n == |GoodHours(w, hours, pub, min, window)|
  {
    hide GoodHours, CountQualifying;
    n := 0;
    var todo := hours.Keys;
    ghost var good := GoodHours(w, hours, pub, min, window);
    GoodHoursAreHours(w, hours, pub, min, window);
    while todo != {}
      invariant todo <= hours.Keys
      invariant n == |good - todo|
      decreases |todo|
    {
      var h := Pick(todo);
      var q := CountReadings(w, hours[h], pub, window);
      OneHourMore(w, hours, pub, min, window, todo, h);
      if q >= min { n := n + 1; }
      todo := todo - {h};
    }
    assert good - todo == good;
  }

  lemma GoodHoursAreHours(w: World, hours: Hours, pub: Option<PubKey>, min: int, window: Window)
    ensures GoodHours(w, hours, pub, min, window) <= hours.Keys
    ensures GoodHours(w, hours, pub, min, window) - hours.Keys == {}
  {
    hide CountQualifying;
  }

  lemma OneHourMore(w: World, hours: Hours, pub: Option<PubKey>, min: int, window: Window, todo: set<int>, h: int)
    requires todo <= hours.Keys && h in todo
    ensures var good := GoodHours(w, hours, pub, min, window);
            |good - (todo - {h})| == |good - todo| + if CountQualifying(w, hours[h], pub, window) >= min then 1 else 0
  {
    hide CountQualifying;
    var good := GoodHours(w, hours, pub, min, window);
    if h in good {
      assert good - (todo - {h}) == (good - todo) + {h};
    } else {
      assert good - (todo - {h}) == good - todo;
    }
  }

  method CountReadings(w: World, rs: seq<Reading>, pub: Option<PubKey>, window: Window) returns (n: nat)
    ensures n == CountQualifying(w, rs, pub, window)
  {
    n := 0;
    for i := 0 to |rs|
      invariant n == CountQualifying(w, rs[..i], pub, window)
    {
      if Qualifies(w, rs[i], pub, window) {
        n := n + 1;
      }
      assert rs[..i + 1][..i] == rs[..i];
    }
    assert rs[..|rs|] == rs;
  }

  /** Round half up of 100 v / 24. */
  function SeasonScore(verified: int): int {
    var v := if verified < 0 then 0 else verified;
    (100 * v + HOURS_PER_SEASON / 2) / HOURS_PER_SEASON
  }

  /** The score is the nearest whole percentage of the season's hours, a half going up, and nothing less than none. */
  lemma ScoreIsNearest(verified: int)
    ensures var v := if verified < 0 then 0 else verified;
            -12 < 24 * SeasonScore(verified) - 100 * v <= 12
    ensures SeasonScore(0) == 0 && SeasonScore(24) == 100
  {}

  /** Readings by hour; records without an integer hour are skipped, the last record of an hour wins. */
  function ByHour(records: seq<HourRecord>): Hours {
    if records == [] then map[]
    else
      var rec := records[|records| - 1];
      var before := ByHour(records[..|records| - 1]);
      if rec.hour.None? then before else before[rec.hour.value := rec.readings]
  }

  lemma {:induction false} ByHourFacts(records: seq<HourRecord>)
    ensures forall h :: h in ByHour(records) <==> exists rec :: rec in records && rec.hour == Some(h)
    ensures forall h :: h in ByHour(records) ==>
              exists rec :: rec in records && rec.hour == Some(h) && ByHour(records)[h] == rec.readings
  {
    if records != [] {
      var last, init := records[|records| - 1], records[..|records| - 1];
      ByHourFacts(init);
      assert forall rec :: rec in records <==> rec in init || rec == last;
    }
  }

  lemma {:induction false} ByHourHas(records: seq<HourRecord>, rec: HourRecord)
    requires rec in records && rec.hour.Some?
    ensures rec.hour.value in ByHour(records)
  {
    var init, last := records[..|records| - 1], records[|records| - 1];
    if rec != last {
      assert rec in init;
      ByHourHas(init, rec);
    }
  }

  /** Of several records of one hour, the last one given speaks for it. */
  lemma {:induction false} LastRecordSpeaks(before: seq<HourRecord>, rec: HourRecord, after: seq<HourRecord>)
    requires rec.hour.Some? && forall r :: r in after ==> r.hour != rec.hour
    ensures var hours := ByHour(before + [rec] + after);
            rec.hour.value in hours && hours[rec.hour.value] == rec.readings
    decreases |after|
  {
    var records := before + [rec] + after;
    if after == [] {
      assert records[..|records| - 1] == before;
    } else {
      var front, last := after[..|after| - 1], after[|after| - 1];
      assert records[..|records| - 1] == before + [rec] + front && last in after;
      LastRecordSpeaks(before, rec, front);
    }
  }

  // What a sealed record says about its own evidence.

  predicate DeclaresBasis(v: Version) {
    match v
    case NoVersion => false
    case Version(_, None) => true
    case Version(_, Some((major, minor))) => major > 1 || (major == 1 && minor >= 1)
  }

  /** Some(true) is proof-backed, Some(false) is not, None is undeclared. */
  function Basis(a: AttestBody, v: Version): Option<bool> {
    if a.sealSource.None? then
      if DeclaresBasis(v) then Some(false) else None
    else if a.sealSource.value != SEAL_READINGS then Some(false)
    else Some(a.sigsVerified == Some(true))
  }

  predicate DeclaresPlaceholder(a: AttestBody) {
    a.sealSource == Some(SEAL_PLACEHOLDER)
  }

  predicate PlaceholderInconsistent(a: AttestBody) {
    DeclaresPlaceholder(a) &&
    (Claims(a.verifiedHours) || Claims(a.seasonScore) || Claims(a.readingCount))
  }

  predicate Claims(n: Option<int>) {
    n.Some? && n.value != 0
  }

  // Record builders.

  function BuildReadingsBatch(w: World, nodeId: string, season: int, hour: int, readings: seq<Reading>): HourRecord {
    var ordered := SortedReadings(readings);
    HourRecord(Upper(nodeId), Some(season), Some(hour), ordered, Root(HourRoot(w, ordered)))
  }

  function BuildAttest(nodeId: string, season: int, start: string, end: string, hoursOnline: int,
                       verified: int, readingCount: int, blockHeight: int, seasonRoot: Digest, signedAt: string,
                       source: string, sigsVerified: bool, rootMismatches: int, minReadings: int): AttestBody
  {
    AttestBody(Upper(nodeId), Some(season), start, end, hoursOnline, Some(verified), Some(source),
               Some(sigsVerified), Number(rootMismatches), Some(SeasonScore(verified)), Some(minReadings),
               Some(readingCount), Some(blockHeight), seasonRoot, seasonRoot, signedAt)
  }

  /** Schema 1.1.0, secp256r1 for devices and seasons. */
  function BuildMeta(seasonPubkey: PubKey): Meta {
    Meta(Version("1", Some((1, 1))), Some("secp256r1"), Some("secp256r1"), seasonPubkey)
  }

  function BuildNode(nodeId: string, pubkey: PubKey): NodeCard {
    NodeCard(Upper(nodeId), pubkey)
  }
}
